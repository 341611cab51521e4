/**
 * JSON documents as the scripts see them after `json.loads`: objects keep
 * their keys in insertion order, as Python dicts do.
 */
module Json {
  import opened Wrappers

  datatype Value =
    | Null
    | Bool(b: bool)
    | Num(n: int)
    | Str(s: string)
    | Arr(items: seq<Value>)
    | Obj(entries: seq<(string, Value)>)

  /** Python truthiness. */
  predicate Truthy(v: Value)
  {
    match v
    case Null => false
    case Bool(b) => b
    case Num(n) => n != 0
    case Str(s) => s != []
    case Arr(a) => a != []
    case Obj(e) => e != []
  }

  function Lookup(e: seq<(string, Value)>, k: string): Option<Value>
  {
    if e == [] then None else if e[0].0 == k then Some(e[0].1) else Lookup(e[1..], k)
  }

  /** `k in v` for a dict `v`. */
  predicate Has(v: Value, k: string) { v.Obj? && Lookup(v.entries, k).Some? }

  /** `v.get(k, d)`. */
  function Get(v: Value, k: string, d: Value): Value
  {
    if v.Obj? && Lookup(v.entries, k).Some? then Lookup(v.entries, k).value else d
  }

  /** `v.get(k)`, whose default is None. */
  function At(v: Value, k: string): Value { Get(v, k, Null) }

  /**
   * The values a `for x in v` loop visits: a list's items, a string's
   * one-character strings, a dict's keys; None for anything else, where
   * Python raises.
   */
  function Elements(v: Value): (r: Option<seq<Value>>)
    ensures r.None? <==> !(v.Arr? || v.Str? || v.Obj?)
    ensures v.Arr? ==> r == Some(v.items)
  {
    match v
    case Arr(items) => Some(items)
    case Str(s) => Some(seq(|s|, i requires 0 <= i < |s| => Str([s[i]])))
    case Obj(e) => Some(seq(|e|, i requires 0 <= i < |e| => Str(e[i].0)))
    case _ => None
  }

  function SetEntries(e: seq<(string, Value)>, k: string, x: Value): seq<(string, Value)>
  {
    if Lookup(e, k).None? then e + [(k, x)] else Replace(e, k, x)
  }

  function Replace(e: seq<(string, Value)>, k: string, x: Value): seq<(string, Value)>
  {
    if e == [] then [] else [if e[0].0 == k then (k, x) else e[0]] + Replace(e[1..], k, x)
  }

  function DeleteEntries(e: seq<(string, Value)>, k: string): seq<(string, Value)>
  {
    if e == [] then [] else (if e[0].0 == k then [] else [e[0]]) + DeleteEntries(e[1..], k)
  }

  /** `v[k] = x` on a dict: an existing key keeps its place, a new one goes last. */
  function Set(v: Value, k: string, x: Value): (r: Value)
    requires v.Obj?
    ensures r.Obj?
  {
    Obj(SetEntries(v.entries, k, x))
  }

  /** `del v[k]` (or `v.pop(k, None)`) on a dict. */
  function Delete(v: Value, k: string): (r: Value)
    requires v.Obj?
    ensures r.Obj?
  {
    Obj(DeleteEntries(v.entries, k))
  }

  lemma {:induction false} LookupAppend(e: seq<(string, Value)>, k: string, j: string, x: Value)
    ensures Lookup(e + [(j, x)], k) == if Lookup(e, k).Some? then Lookup(e, k) else if j == k then Some(x) else None
  {
    if e != [] {
      assert (e + [(j, x)])[1..] == e[1..] + [(j, x)];
      LookupAppend(e[1..], k, j, x);
    }
  }

  lemma {:induction false} LookupReplace(e: seq<(string, Value)>, k: string, j: string, x: Value)
    ensures Lookup(Replace(e, j, x), k) == if k == j && Lookup(e, k).Some? then Some(x) else Lookup(e, k)
  {
    if e != [] {
      LookupReplace(e[1..], k, j, x);
    }
  }

  lemma {:induction false} LookupDelete(e: seq<(string, Value)>, k: string, j: string)
    ensures Lookup(DeleteEntries(e, j), k) == if k == j then None else Lookup(e, k)
  {
    if e != [] {
      LookupDelete(e[1..], k, j);
      var rest := DeleteEntries(e[1..], j);
      if e[0].0 != j {
        assert DeleteEntries(e, j) == [e[0]] + rest;
        assert ([e[0]] + rest)[1..] == rest;
      } else {
        assert DeleteEntries(e, j) == rest;
      }
    }
  }

  /** After `v[j] = x`, key `j` reads `x` and every other key reads as before. */
  lemma GetSet(v: Value, j: string, x: Value, k: string, d: Value)
    requires v.Obj?
    ensures Get(Set(v, j, x), k, d) == if k == j then x else Get(v, k, d)
    ensures Has(Set(v, j, x), k) == (k == j || Has(v, k))
  {
    if Lookup(v.entries, j).None? {
      LookupAppend(v.entries, k, j, x);
    } else {
      LookupReplace(v.entries, k, j, x);
    }
  }

  /** After `del v[j]`, key `j` is absent and every other key reads as before. */
  lemma GetDelete(v: Value, j: string, k: string, d: Value)
    requires v.Obj?
    ensures Get(Delete(v, j), k, d) == if k == j then d else Get(v, k, d)
    ensures Has(Delete(v, j), k) == (k != j && Has(v, k))
  {
    LookupDelete(v.entries, k, j);
  }

  lemma {:induction false} DeleteAbsent(e: seq<(string, Value)>, k: string)
    requires Lookup(e, k).None?
    ensures DeleteEntries(e, k) == e
  {
    if e != [] {
      DeleteAbsent(e[1..], k);
    }
  }
}
