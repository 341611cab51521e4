/**
 * Excel number-format codes turned into the text a cell shows
 * (laminar_floating_point_error/convert.py). The old and the new converter
 * share every branch; they differ only in how a number is rendered with a
 * fixed number of decimals: float formatting in the old one, Decimal
 * quantization with ROUND_HALF_UP in the new one.
 */
module Convert {
  import opened Wrappers
  import opened Text
  import opened Decimals

  /** What a converter hands back. */
  datatype Conv =
    | Rendered(s: string)                               // a string the converter built
    | StrOf(v: Dec)                                     // `str(value)` of the cell value
    | Number(v: Dec)                                    // the (possibly percent-scaled) value itself
    | Scientific(v: Dec, precision: nat, expDigits: nat) // `eformat(value, prec, exp_digits)`
    | NoValue                                           // None
    | Raised                                            // Decimal signalled InvalidOperation

  /** A number rendered with n decimals; None when rendering raises. */
  type Renderer = (Dec, nat) -> Option<string>

  /** The new converter's rendering: `str(Decimal(str(value)).quantize(10 ** -n, ROUND_HALF_UP))`. */
  function HalfUpText(d: Dec, n: nat): Option<string>
  {
    match Quantize(d, -(n as int))
    case None => None
    case Some(q) => Some(DecStr(q))
  }

  predicate ZerosOnly(s: string) { forall k :: 0 <= k < |s| ==> s[k] == '0' }

  /** `E\+0*` */
  predicate ExpTail(s: string) { |s| >= 2 && s[0] == 'E' && s[1] == '+' && ZerosOnly(s[2..]) }

  /** `0*E\+0*` */
  predicate ZerosThenExp(s: string)
    decreases |s|
  {
    ExpTail(s) || (|s| > 0 && s[0] == '0' && ZerosThenExp(s[1..]))
  }

  /** `#+0*E\+0*` */
  predicate HashesThenExp(s: string)
    decreases |s|
  {
    |s| > 0 && s[0] == '#' && (ZerosThenExp(s[1..]) || HashesThenExp(s[1..]))
  }

  /** `re.match("^...$", s)`: `$` also matches just before a final newline. */
  predicate Anchored(s: string, body: string -> bool)
  {
    body(s) || (EndsWith(s, "\n") && body(s[..|s| - 1]))
  }

  /** `len(s) - len(s.lstrip("0"))` */
  function LeadingZeros(s: string): nat
  {
    if s != [] && s[0] == '0' then 1 + LeadingZeros(s[1..]) else 0
  }

  /** `len(s) - len(s.rstrip("0"))` */
  function TrailingZeros(s: string): nat
  {
    if s != [] && s[|s| - 1] == '0' then 1 + TrailingZeros(s[..|s| - 1]) else 0
  }

  /** The characters 0, # and ? of the decimal part, in order; the others carry no precision. */
  function DecimalSection(s: string): (r: string)
    ensures forall k :: 0 <= k < |r| ==> r[k] in "0#?"
    ensures |r| <= |s|
  {
    if s == [] then []
    else (if s[0] in "0#?" then [s[0]] else []) + DecimalSection(s[1..])
  }

  /** The number of `#` at the end of the section. */
  function TrailingHashes(s: string): nat
  {
    if s != [] && s[|s| - 1] == '#' then 1 + TrailingHashes(s[..|s| - 1]) else 0
  }

  /** k rounds of "drop the last character if it is 0". */
  function TrimZeros(s: string, k: nat): string
  {
    if k == 0 then s else TrimZeros(if EndsWith(s, "0") then s[..|s| - 1] else s, k - 1)
  }

  /** The format section that applies: the second for a negative value when there are two or more. */
  function ChosenSection(f: string, value: Dec): string
  {
    var multi := Split(f, ';');
    if IsNegative(value) && |multi| > 1 then multi[1] else multi[0]
  }

  function Finish(text: Option<string>, hashes: nat, percentage: bool): Conv
  {
    match text
    case None => Raised
    case Some(t) => Rendered(TrimZeros(t, hashes) + (if percentage then "%" else ""))
  }

  /** The value and the code once a trailing "%" is taken off (the value then times 100). */
  function Unpercent(fmt: string, v: Dec): (bool, Dec, string)
  {
    if EndsWith(fmt, "%") then (true, Percent(v), fmt[..|fmt| - 1]) else (false, v, fmt)
  }

  /** The chosen section split at ".". */
  function CodeParts(fmt: string, v: Dec): seq<string>
  {
    var (_, value, f) := Unpercent(fmt, v);
    Split(ChosenSection(f, value), '.')
  }

  /** convert_old and convert_new, with the rendering of a fixed number of decimals as a parameter. */
  function Converted(fmt: string, v: Dec, render: Renderer): (r: Conv)
    ensures r.StrOf? <==> Contains(fmt, "@")
    ensures r.StrOf? ==> r.v == v
    ensures r.Raised? ==> exists n: nat :: render(Unpercent(fmt, v).1, n).None?
  {
    if Contains(fmt, "@") then StrOf(v)
    else
      var (percentage, value, f) := Unpercent(fmt, v);
      if f == "General" then Number(value)
      else
        var code := CodeParts(fmt, v);
        if |code| > 2 then NoValue
        else if |code| < 2 then Finish(render(value, 0), 0, percentage)
        else if Anchored(code[1], HashesThenExp) then Number(value)
        else if Anchored(code[1], ZerosThenExp) then
          Scientific(value, LeadingZeros(code[1]), TrailingZeros(code[1]))
        else
          var section := DecimalSection(code[1]);
          Finish(render(value, |section|), TrailingHashes(section), percentage)
  }

  /** convert_new */
  function ConvertNewSpec(fmt: string, v: Dec): Conv { Converted(fmt, v, HalfUpText) }

  /** convert_old, given Python's `"{0:.nf}".format` as `fixed`. */
  function ConvertOldSpec(fmt: string, v: Dec, fixed: Renderer): Conv { Converted(fmt, v, fixed) }

  /**
   * The converter as the source runs it: the trailing `#` are counted by a
   * loop from the right that stops at the first other character, and the
   * zeros are stripped by a loop that runs once per trailing `#`.
   */
  method Convert(fmt: string, v: Dec, render: Renderer) returns (r: Conv)
    ensures r == Converted(fmt, v, render)
  {
    if Contains(fmt, "@") {
      return StrOf(v);
    }
    var percentage := false;
    var value := v;
    var f := fmt;
    if EndsWith(f, "%") {
      value := Percent(value);
      f := f[..|f| - 1];
      percentage := true;
    }
    if f == "General" {
      return Number(value);
    }
    var code := Split(ChosenSection(f, value), '.');
    assert code == CodeParts(fmt, v);
    if |code| > 2 {
      return NoValue;
    }
    var newValue: string;
    if |code| < 2 {
      var t := render(value, 0);
      if t.None? {
        return Raised;
      }
      newValue := t.value;
    } else if Anchored(code[1], HashesThenExp) {
      return Number(value);
    } else if Anchored(code[1], ZerosThenExp) {
      return Scientific(value, LeadingZeros(code[1]), TrailingZeros(code[1]));
    } else {
      var section := DecimalSection(code[1]);
      var numberHash := CountTrailingHashes(section);
      var t := render(value, |section|);
      if t.None? {
        return Raised;
      }
      newValue := StripZeros(t.value, numberHash);
    }
    if percentage {
      newValue := newValue + "%";
    }
    return Rendered(newValue);
  }

  /** The `number_hash` loop: walks the section from the right while it sees `#`. */
  method CountTrailingHashes(section: string) returns (numberHash: nat)
    ensures numberHash == TrailingHashes(section)
  {
    numberHash := 0;
    var i := |section|;
    assert section[..i] == section;
    while i > 0
      invariant 0 <= i <= |section|
      invariant TrailingHashes(section) == numberHash + TrailingHashes(section[..i])
      decreases i
    {
      if section[i - 1] == '#' {
        assert section[..i][..i - 1] == section[..i - 1];
        numberHash := numberHash + 1;
      } else {
        break;
      }
      i := i - 1;
    }
    assert i > 0 ==> TrailingHashes(section[..i]) == 0;
  }

  /** The trimming loop: once per counted `#`, drops a final "0" if there is one. */
  method StripZeros(s: string, numberHash: nat) returns (t: string)
    ensures t == TrimZeros(s, numberHash)
  {
    t := s;
    var j := 0;
    while j < numberHash
      invariant 0 <= j <= numberHash
      invariant TrimZeros(s, numberHash) == TrimZeros(t, numberHash - j)
    {
      if EndsWith(t, "0") {
        t := t[..|t| - 1];
      }
      j := j + 1;
    }
  }

  /** handle_general_old: returns "" whatever it is given. */
  function HandleGeneralOld(fmt: string, v: Dec): Conv { Rendered("") }

  /** handle_general_new: returns "" whatever it is given. */
  function HandleGeneralNew(fmt: string, v: Dec): Conv { Rendered("") }

  /** The two General handlers never disagree, so a General cell never shows a difference. */
  lemma GeneralHandlersAgree(fmt: string, v: Dec)
    ensures HandleGeneralOld(fmt, v) == HandleGeneralNew(fmt, v) == Rendered("")
  {
  }

  /**
   * Trimming removes at most k characters, all of them "0", from the end;
   * when it removes fewer than k, what is left does not end in "0".
   */
  predicate ZeroTrimmed(t: string, s: string, k: nat)
  {
    |s| - k <= |t| <= |s| && t == s[..|t|]
    && (forall i :: |t| <= i < |s| ==> s[i] == '0')
    && (|t| > |s| - k ==> !EndsWith(t, "0"))
  }

  lemma {:induction false} TrimOnlyZeros(s: string, k: nat)
    ensures ZeroTrimmed(TrimZeros(s, k), s, k)
  {
    if k > 0 {
      if EndsWith(s, "0") {
        var s' := s[..|s| - 1];
        TrimOnlyZeros(s', k - 1);
        var t := TrimZeros(s', k - 1);
        assert s'[..|t|] == s[..|t|];
      } else {
        TrimOnlyZeros(s, k - 1);
        var t := TrimZeros(s, k - 1);
        if |t| == |s| {
          assert t == s;
        }
      }
    }
  }

  /** The counted hashes are exactly the run of `#` that ends the section. */
  lemma {:induction false} TrailingHashesRun(s: string)
    ensures var n := TrailingHashes(s);
      n <= |s| && (forall i :: |s| - n <= i < |s| ==> s[i] == '#')
      && (n < |s| ==> s[|s| - n - 1] != '#')
  {
    if s != [] && s[|s| - 1] == '#' {
      TrailingHashesRun(s[..|s| - 1]);
    }
  }

  lemma {:induction false} ContainsChar(s: string, c: char)
    ensures Contains(s, [c]) <==> c in s
  {
    if s != [] {
      ContainsChar(s[1..], c);
      assert s == [s[0]] + s[1..];
    }
  }

  /** Facts that follow from the branch structure, whatever the rendering. */
  lemma {:induction false} Branches(fmt: string, v: Dec, render: Renderer)
    ensures Contains(fmt, "@") ==> Converted(fmt, v, render) == StrOf(v)
    ensures fmt == "General" ==> Converted(fmt, v, render) == Number(v)
    ensures fmt == "General%" ==> Converted(fmt, v, render) == Number(Percent(v))
    ensures !Contains(fmt, "@") && EndsWith(fmt, "%") && Converted(fmt, v, render).Rendered?
      ==> EndsWith(Converted(fmt, v, render).s, "%")
  {
    ContainsChar(fmt, '@');
    if fmt == "General%" {
      assert fmt[..|fmt| - 1] == "General";
    }
  }

  /**
   * With no "." in the chosen section, convert_new rounds to a whole number
   * half up (ties away from zero), keeps the sign, and appends "%" back when
   * it was stripped.
   */
  lemma {:induction false} IntegerPath(fmt: string, v: Dec)
    requires !Contains(fmt, "@") && Unpercent(fmt, v).2 != "General" && |CodeParts(fmt, v)| == 1
    ensures var (pct, value, _) := Unpercent(fmt, v);
      var u := RoundedUnits(value, 0);
      var r := ConvertNewSpec(fmt, v);
      (r == Raised || r == Rendered(DecStr(Dec(value.neg, u, 0)) + (if pct then "%" else "")))
      && (value.exp >= 0 ==> u == value.coef * Pow10(value.exp))
      && (value.exp < 0 ==> 2 * u * Pow10(-value.exp) <= 2 * value.coef + Pow10(-value.exp) < 2 * u * Pow10(-value.exp) + 2 * Pow10(-value.exp))
  {
    var value := Unpercent(fmt, v).1;
    if value.exp < 0 {
      HalfUp(value, 0);
    }
  }

  /**
   * With a decimal section, convert_new renders the value quantized half up
   * to as many places as the section has 0, # and ? characters, and trims
   * once per trailing # of the section (what that gives: FinishHalfUp).
   */
  lemma {:induction false} DecimalPath(fmt: string, v: Dec)
    requires !Contains(fmt, "@") && Unpercent(fmt, v).2 != "General"
    requires var code := CodeParts(fmt, v);
      |code| == 2 && !Anchored(code[1], HashesThenExp) && !Anchored(code[1], ZerosThenExp)
    ensures var section := DecimalSection(CodeParts(fmt, v)[1]);
      ConvertNewSpec(fmt, v) == Finish(HalfUpText(Unpercent(fmt, v).1, |section|), TrailingHashes(section), Unpercent(fmt, v).0)
  {
  }

  /**
   * Rounding half up to n places raises exactly when the quantized
   * coefficient needs more than 28 digits; otherwise the sign is kept and
   * at most `hashes` characters, all of them "0", are trimmed from the end.
   */
  lemma {:induction false} FinishHalfUp(value: Dec, n: nat, hashes: nat, pct: bool)
    ensures var r := Finish(HalfUpText(value, n), hashes, pct);
      (r == Raised <==> Quantize(value, -(n as int)).None?)
      && (r != Raised ==>
        var q := Quantize(value, -(n as int)).value;
        var t := TrimZeros(DecStr(q), hashes);
        q.exp == -(n as int) && q.neg == value.neg
        && r == Rendered(t + (if pct then "%" else ""))
        && ZeroTrimmed(t, DecStr(q), hashes))
  {
    var q := Quantize(value, -(n as int));
    if q.Some? {
      TrimOnlyZeros(DecStr(q.value), hashes);
    }
  }

  /**
   * The old and the new converter take the same branch for every format and
   * value; they can disagree only on a rendered string, never on "@",
   * General, None or E-notation results.
   */
  lemma {:induction false} OldNewDifferOnlyInRendering(fmt: string, v: Dec, fixed: Renderer)
    ensures var o := ConvertOldSpec(fmt, v, fixed); var n := ConvertNewSpec(fmt, v);
      o != n ==> (o.Rendered? || o.Raised?) && (n.Rendered? || n.Raised?)
  {
  }
}
