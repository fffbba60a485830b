/**
 * How `dedupe` checks behave when called: a check runs the older patch when
 * that patch carries the check's mark and the newer one otherwise, so a
 * second copy of a patch defers to the first.
 */
module Dispatch {
  import opened Heap
  import opened Wrap
  import Guard

  /**
   * Calling the check built by `dedupe(key, oldFn, newFn)` runs `oldFn` if
   * and only if `oldFn[key]` already equals `key`, and `newFn` otherwise.
   */
  lemma DedupeDispatch(s: State, key: Key, oldFn: FnId, newFn: FnId)
    requires WellFormed(s) && oldFn < |s.fns| && newFn < |s.fns|
    ensures var (t, ck) := Guard.Dedupe(s, key, oldFn, newFn);
            var target := if Get(s.fns, oldFn, key) == Some(Str(key)) then oldFn else newFn;
            Call(t, ck) == (Call(t, target).0, Outcome([ck] + Call(t, target).1.trace, Call(t, target).1.threw))
  {
    var (t, ck) := Guard.Dedupe(s, key, oldFn, newFn);
    GetAgrees(t.fns, s.fns, oldFn, key);
  }

  /**
   * A patch deduplicated twice under the same key: the second check finds
   * the first one's mark and defers to it, so the second `newFn` never runs
   * through it.
   */
  lemma NestedDedupeDefers(s: State, key: Key, oldFn: FnId, newFn1: FnId, newFn2: FnId)
    requires WellFormed(s) && oldFn < |s.fns| && newFn1 < |s.fns| && newFn2 < |s.fns|
    ensures var (t1, c1) := Guard.Dedupe(s, key, oldFn, newFn1);
            var (t2, c2) := Guard.Dedupe(t1, key, c1, newFn2);
            Call(t2, c2) == (Call(t2, c1).0, Outcome([c2] + Call(t2, c1).1.trace, Call(t2, c1).1.threw))
  {
    var (t1, c1) := Guard.Dedupe(s, key, oldFn, newFn1);
    var (t2, c2) := Guard.Dedupe(t1, key, c1, newFn2);
    GetAgrees(t2.fns, t1.fns, c1, key);
  }
}
