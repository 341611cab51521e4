/**
 * The cooperative shutdown flag of laminar_floating_point_error/process.py.
 * The flag is a threading.Event that the interrupt handler sets and nothing
 * clears, so every read from some point on sees it set. It is modelled by
 * the number of reads that still see it clear; each reading procedure takes
 * the number of reads made so far and returns it advanced.
 */
module Interrupt {
  import opened Wrappers

  datatype Shutdown = Never | AfterReads(n: nat)

  /** What the read numbered `read` (counting from 0) sees. */
  predicate IsSet(s: Shutdown, read: nat) { s.AfterReads? && read >= s.n }

  const InterruptedMessage: string := "Comparison interrupted by user"

  /** Once a read sees the flag set, every later read does too. */
  lemma {:induction false} StaysSet(s: Shutdown, i: nat, j: nat)
    requires i <= j && IsSet(s, i)
    ensures IsSet(s, j)
  {
  }

  /**
   * Among `count` reads numbered from `read`, the position of the first one
   * that sees the flag set, if any.
   */
  function FirstSet(s: Shutdown, read: nat, count: nat): Option<nat>
  {
    if count > 0 && s.AfterReads? && s.n < read + count then Some(if s.n <= read then 0 else s.n - read) else None
  }

  lemma {:induction false} FirstSetIsFirst(s: Shutdown, read: nat, count: nat)
    ensures FirstSet(s, read, count).Some? ==>
      var i := FirstSet(s, read, count).value;
      i < count && IsSet(s, read + i) && forall j :: read <= j < read + i ==> !IsSet(s, j)
    ensures FirstSet(s, read, count).None? ==> forall j :: read <= j < read + count ==> !IsSet(s, j)
  {
  }
}
