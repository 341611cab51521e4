/**
 * The `Updated` sort key both history scripts write: a row whose time
 * equals the previous row's gets `num_same` thousandths of a second added,
 * `num_same` counting the rows of that run. Times are whole milliseconds
 * here, so a thousandth of a second is 1.
 */
module UpdatedKeys {
  import opened Wrappers

  /** `num_same` at row `i`: how many rows right before it carry the same time. */
  function RunIndex(times: seq<int>, i: nat): nat
    requires i < |times|
  {
    if i == 0 || times[i - 1] != times[i] then 0 else RunIndex(times, i - 1) + 1
  }

  /** The Updated keys, in milliseconds. */
  function Keys(times: seq<int>): (r: seq<int>)
    ensures |r| == |times|
  {
    seq(|times|, i requires 0 <= i < |times| => times[i] + RunIndex(times, i))
  }

  /** The script's check on row `i`: `not prev_updated_seconds or prev_updated_seconds < updated_seconds`. */
  predicate Passes(keys: seq<int>, i: nat)
    requires i < |keys|
  {
    i == 0 || keys[i - 1] == 0 || keys[i - 1] < keys[i]
  }

  /** Every row passes the check. */
  predicate Accepted(keys: seq<int>)
  {
    forall i :: 0 <= i < |keys| ==> Passes(keys, i)
  }

  /** How many leading keys pass the check: the rows put before the script stops. */
  function Admitted(keys: seq<int>): (n: nat)
    ensures n <= |keys|
    ensures forall i :: 0 <= i < n ==> Passes(keys, i)
    ensures n < |keys| ==> !Passes(keys, n)
  {
    if keys == [] then 0
    else
      var init := keys[..|keys| - 1];
      var m := Admitted(init);
      assert forall i :: 0 <= i < |init| ==> Passes(init, i) == Passes(keys, i);
      if m < |init| then m else if Passes(keys, |init|) then |keys| else |init|
  }

  /**
   * The key loop. It yields the keys of the rows put before the first row
   * whose check fails, where the script stops; `ok` says no row failed.
   */
  method AssignKeys(times: seq<int>) returns (keys: seq<int>, ok: bool)
    ensures ok <==> Accepted(Keys(times))
    ensures ok ==> keys == Keys(times)
    ensures !ok ==> |keys| < |times| && keys == Keys(times)[..|keys|] && !Passes(Keys(times), |keys|)
    ensures |keys| == Admitted(Keys(times))
  {
    keys := [];
    var prevSeconds: Option<int> := None;
    var prevUpdated: Option<int> := None;
    var numSame: nat := 0;
    for i := 0 to |times|
      invariant keys == Keys(times)[..i]
      invariant forall j :: 0 <= j < i ==> Passes(Keys(times), j)
      invariant i > 0 ==> (prevSeconds == Some(times[i - 1]) && prevUpdated == Some(keys[i - 1])
        && numSame == RunIndex(times, i - 1))
      invariant i == 0 ==> prevSeconds.None? && prevUpdated.None?
    {
      var seconds := times[i];
      var updated := seconds;
      if prevSeconds == Some(seconds) {
        numSame := numSame + 1;
        updated := updated + numSame;
      } else {
        numSame := 0;
      }
      assert updated == Keys(times)[i];
      if !(prevUpdated.None? || prevUpdated.value == 0 || prevUpdated.value < updated) {
        assert !Passes(Keys(times), i);
        return keys, false;
      }
      assert Passes(Keys(times), i);
      prevSeconds, prevUpdated := Some(seconds), Some(updated);
      keys := keys + [updated];
    }
    assert keys == Keys(times);
    return keys, true;
  }
}

module UpdatedKeysFacts {
  import opened UpdatedKeys

  /** Times as S3 gives them, oldest first: whole seconds, never decreasing. */
  predicate Chronological(times: seq<int>)
  {
    (forall i :: 0 <= i < |times| ==> times[i] % 1000 == 0)
    && forall i, j :: 0 <= i < j < |times| ==> times[i] <= times[j]
  }

  /**
   * Oldest-first whole-second times with runs shorter than a thousand rows get
   * strictly increasing keys, so the script's check passes and no two rows of
   * an object share a key.
   */
  lemma {:induction false} KeysIncrease(times: seq<int>)
    requires Chronological(times)
    requires forall i :: 0 <= i < |times| ==> RunIndex(times, i) < 1000
    ensures forall i, j :: 0 <= i < j < |times| ==> Keys(times)[i] < Keys(times)[j]
    ensures Accepted(Keys(times))
  {
    var keys := Keys(times);
    forall i | 0 < i < |times| ensures keys[i - 1] < keys[i] {
      if times[i - 1] != times[i] {
        assert times[i - 1] < times[i];
        assert times[i - 1] + 1000 <= times[i] by {
          assert times[i - 1] % 1000 == 0 && times[i] % 1000 == 0;
          assert (times[i] - times[i - 1]) % 1000 == 0;
        }
      }
    }
    forall i, j | 0 <= i < j < |times| ensures keys[i] < keys[j] {
      Chain(keys, i, j);
    }
  }

  /** Consecutive increases add up. */
  lemma {:induction false} Chain(keys: seq<int>, i: nat, j: nat)
    requires i < j < |keys|
    requires forall k :: 0 < k < |keys| ==> keys[k - 1] < keys[k]
    ensures keys[i] < keys[j]
    decreases j - i
  {
    if i + 1 < j {
      Chain(keys, i + 1, j);
    }
  }

  /** Rows listed newest first break the check: the second key is smaller than the first. */
  lemma NewestFirstRejected(t: int)
    requires t > 0
    ensures !Accepted(Keys([t + 1000, t]))
  {
    assert Keys([t + 1000, t])[0] == t + 1000;
    assert Keys([t + 1000, t])[1] == t;
    assert !Passes(Keys([t + 1000, t]), 1);
  }
}
