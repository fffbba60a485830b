/**
 * The key-guarded dispatcher `dedupe(key, oldFn, newFn)`: a fresh `check`
 * function, marked with `check[key] = key`, that runs `oldFn` when `oldFn`
 * already carries that mark and `newFn` otherwise.
 */
module Guard {
  import opened Heap

  /** The function a `check` built for `key` delegates to: `oldFn[key] === key ? oldFn : newFn`. */
  function Choose(fns: seq<Fn>, key: Key, oldFn: FnId, newFn: FnId): (r: FnId)
    requires LinksDescend(fns) && oldFn < |fns| && newFn < |fns|
    ensures r == oldFn || r == newFn
    ensures r == oldFn <==> Get(fns, oldFn, key) == Some(Str(key)) || oldFn == newFn
  {
    if Get(fns, oldFn, key) == Some(Str(key)) then oldFn else newFn
  }

  /**
   * `dedupe(key, oldFn, newFn)`: allocates `check`, whose own property `key`
   * holds `key`. Nothing that existed before changes.
   */
  function Dedupe(s: State, key: Key, oldFn: FnId, newFn: FnId): (r: (State, FnId))
    requires WellFormed(s) && oldFn < |s.fns| && newFn < |s.fns|
    ensures WellFormed(r.0) && r.1 == |s.fns| && |r.0.fns| == r.1 + 1 && r.0.fns[..r.1] == s.fns
    ensures r.0.fns[r.1].kind == Check(key, oldFn, newFn)
    ensures Get(r.0.fns, r.1, key) == Some(Str(key))
    ensures r.0.own == s.own && r.0.proto == s.proto && r.0.cells == s.cells
  {
    (Alloc(s, Fn(Check(key, oldFn, newFn), FunctionProto, map[key := Str(key)])), |s.fns|)
  }
}
