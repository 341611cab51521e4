/**
 * The laminar-load key repair: every key holding "%20" is copied to the
 * key with each "%20" replaced by a space, unless an object of that name
 * already exists. Nothing is deleted or overwritten; the selected keys and
 * their new names are reported side by side.
 */
module SpaceKeys {
  import opened Text

  const Escaped := "%20"

  /** `key.replace("%20", " ")`. */
  function Renamed(key: string): string { ReplaceAll(key, Escaped, " ") }

  /** The listed keys holding "%20", in listing order. */
  function Selected(keys: seq<string>): seq<string>
  {
    if keys == [] then []
    else
      var last := keys[|keys| - 1];
      Selected(keys[..|keys| - 1]) + (if Contains(last, Escaped) then [last] else [])
  }

  /** The names the copies went to. */
  function Targets(copies: seq<(string, string)>): set<string>
  {
    set c | c in copies :: c.0
  }

  /**
   * The copies (new name, source key) the second loop makes for
   * `selected`, in order, when the bucket held `existing`: a copy is made
   * only when no object of the new name exists, counting earlier copies.
   */
  function Plan(selected: seq<string>, existing: set<string>): seq<(string, string)>
  {
    if selected == [] then []
    else
      var done := Plan(selected[..|selected| - 1], existing);
      var key := selected[|selected| - 1];
      var name := Renamed(key);
      done + (if name in existing || name in Targets(done) then [] else [(name, key)])
  }

  lemma TargetsAppend(copies: seq<(string, string)>, more: seq<(string, string)>)
    ensures Targets(copies + more) == Targets(copies) + Targets(more)
  {
    forall n | n in Targets(copies + more) ensures n in Targets(copies) + Targets(more) {
      var c :| c in copies + more && c.0 == n;
    }
  }

  /** The first loop, over the whole listing. */
  method SelectKeys(listing: seq<string>) returns (toBeCorrected: seq<string>)
    ensures toBeCorrected == Selected(listing)
  {
    toBeCorrected := [];
    for i := 0 to |listing|
      invariant toBeCorrected == Selected(listing[..i])
    {
      assert listing[..i + 1][..i] == listing[..i];
      if Contains(listing[i], Escaped) {
        toBeCorrected := toBeCorrected + [listing[i]];
      }
    }
    assert listing[..|listing|] == listing;
  }

  /**
   * The whole script: the selection loop over the listing, then the copy
   * loop, which keeps track of the objects the bucket holds. Returns the
   * before and after keys, the copies made and the bucket's keys at the end.
   */
  method CorrectSpaces(listing: seq<string>) returns (before: seq<string>, after: seq<string>,
                                                     copies: seq<(string, string)>, bucket: set<string>)
    ensures before == Selected(listing)
    ensures |after| == |before| && forall i :: 0 <= i < |before| ==> after[i] == Renamed(before[i])
    ensures copies == Plan(before, set k | k in listing)
    ensures bucket == (set k | k in listing) + Targets(copies)
  {
    var toBeCorrected := SelectKeys(listing);
    before, after, copies, bucket := CopyKeys(toBeCorrected, set k | k in listing);
  }

  /** The second loop, over the selected keys, starting from the listed bucket. */
  method CopyKeys(toBeCorrected: seq<string>, listed: set<string>) returns (before: seq<string>, after: seq<string>,
                                                                          copies: seq<(string, string)>, bucket: set<string>)
    ensures before == toBeCorrected
    ensures |after| == |before| && forall i :: 0 <= i < |before| ==> after[i] == Renamed(before[i])
    ensures copies == Plan(before, listed)
    ensures bucket == listed + Targets(copies)
  {
    before, after, copies := [], [], [];
    bucket := listed;
    for i := 0 to |toBeCorrected|
      invariant before == toBeCorrected[..i]
      invariant |after| == i && forall j :: 0 <= j < i ==> after[j] == Renamed(before[j])
      invariant copies == Plan(toBeCorrected[..i], listed)
      invariant bucket == listed + Targets(copies)
    {
      assert toBeCorrected[..i + 1] == toBeCorrected[..i] + [toBeCorrected[i]];
      var key := toBeCorrected[i];
      before := before + [key];
      var name := Renamed(key);
      after := after + [name];
      if name !in bucket {
        TargetsAppend(copies, [(name, key)]);
        assert Targets([(name, key)]) == {name};
        copies := copies + [(name, key)];
        bucket := bucket + {name};
      } else {
        assert copies + [] == copies;
      }
    }
    assert toBeCorrected[..|toBeCorrected|] == toBeCorrected;
  }
}

module SpaceKeysFacts {
  import opened Text
  import opened SpaceKeys

  /** A key is selected exactly when it is listed and holds "%20". */
  lemma {:induction false} SelectedIff(keys: seq<string>, k: string)
    ensures k in Selected(keys) <==> k in keys && Contains(k, Escaped)
  {
    if keys != [] {
      var init := keys[..|keys| - 1];
      SelectedIff(init, k);
      assert keys == init + [keys[|keys| - 1]];
    }
  }

  lemma {:induction false} ContainsFits(s: string, p: string)
    requires Contains(s, p)
    ensures |p| <= |s|
    decreases |s|
  {
    if !(p <= s) {
      ContainsFits(s[1..], p);
    }
  }

  /** The replacement's first character is the space or the key's own first character. */
  lemma RenamedHead(s: string)
    ensures |Renamed(s)| == 0 <==> |s| == 0
    ensures |Renamed(s)| > 0 ==> Renamed(s)[0] == ' ' || Renamed(s)[0] == s[0]
  {
  }

  /** No new name holds "%20": the replacement scans left to right and a space never completes one. */
  lemma {:induction false} NoEscapeLeft(s: string)
    ensures !Contains(Renamed(s), Escaped)
    decreases |s|
  {
    var r := Renamed(s);
    if |s| < |Escaped| {
      if Contains(r, Escaped) {
        ContainsFits(r, Escaped);
      }
    } else if Escaped <= s {
      NoEscapeLeft(s[|Escaped|..]);
      assert r[1..] == Renamed(s[|Escaped|..]);
      assert r[0] == ' ';
    } else {
      var tail := Renamed(s[1..]);
      NoEscapeLeft(s[1..]);
      assert r == [s[0]] + tail;
      assert r[1..] == tail;
      if s[0] == '%' && |tail| >= 2 && tail[0] == '2' {
        RenamedHead(s[1..]);
        assert s[1] == '2';
        assert s[..3] != Escaped;
        assert s[..3][0] == '%' && s[..3][1] == '2';
        assert s[2] != '0';
        TailRenamed(s[1..]);
        RenamedHead(s[2..]);
        assert tail[1] == Renamed(s[2..])[0];
      }
      assert |r| >= 3 ==> r[..3] == [r[0], tail[0], tail[1]];
    }
  }

  /** A text that does not start with "%20" keeps its first character in front of the rest's replacement. */
  lemma TailRenamed(s: string)
    requires |s| > 0 && s[0] != '%'
    ensures Renamed(s) == [s[0]] + Renamed(s[1..])
  {
    if |s| < |Escaped| {
      assert Renamed(s[1..]) == s[1..];
      assert s == [s[0]] + s[1..];
    }
  }

  /**
   * Each copy goes from a selected key to its new name, which was not in
   * the bucket, and no two copies share a name: nothing is overwritten.
   * Afterwards every selected key's new name exists.
   */
  lemma {:induction false} PlanFacts(selected: seq<string>, existing: set<string>)
    ensures forall c :: c in Plan(selected, existing) ==> c.1 in selected && c.0 == Renamed(c.1) && c.0 !in existing
    ensures forall i, j :: 0 <= i < j < |Plan(selected, existing)| ==> Plan(selected, existing)[i].0 != Plan(selected, existing)[j].0
    ensures forall k :: k in selected ==> Renamed(k) in existing + Targets(Plan(selected, existing))
  {
    if selected != [] {
      var init := selected[..|selected| - 1];
      var key := selected[|selected| - 1];
      PlanFacts(init, existing);
      var done := Plan(init, existing);
      assert selected == init + [key];
      var name := Renamed(key);
      if !(name in existing || name in Targets(done)) {
        TargetsAppend(done, [(name, key)]);
        assert Targets([(name, key)]) == {name};
        forall i | 0 <= i < |done| ensures done[i].0 != name {
          assert done[i] in done;
        }
      } else {
        assert done + [] == done;
      }
    }
  }

  /** A selected key is copied exactly when its new name is neither in the bucket nor an earlier copy's name. */
  lemma PlanCopies(selected: seq<string>, existing: set<string>)
    requires selected != []
    ensures var key := selected[|selected| - 1];
      var done := Plan(selected[..|selected| - 1], existing);
      (Renamed(key) !in existing && Renamed(key) !in Targets(done) <==> Plan(selected, existing) == done + [(Renamed(key), key)])
  {
  }
}
