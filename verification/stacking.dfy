/**
 * Two forwarding wrappers installed in turn on one method `m`, whatever `m`
 * was before: own, inherited from the prototype, or missing, and in either
 * build. Calls run outermost first, removing the inner wrapper skips its
 * replacement, removal in reverse order restores the slot, and a pass-through
 * wrapper left in the slot heals itself. Only what the first wrapper's
 * `original` does at the end of a call depends on the case.
 */
module Stacking {
  import opened Heap
  import opened Wrap
  import Laws

  /**
   * The heap two forwarding installs on `m` leave: the outer wrapper `w2`
   * holds the slot; each wrapper links to its relay; the outer relay calls
   * and links to the inner wrapper; the inner relay calls the inner
   * `original` and links to what `obj[m]` was; nothing older changed.
   */
  ghost predicate Layout(s: State, t: State, w1: FnId, w2: FnId, m: Key,
                         p1: map<Key, Value>, p2: map<Key, Value>, dynamic: bool) {
    && |s.fns| < w1 && w1 + 1 < w2 && |t.fns| == w2 + 1 && t.fns[..|s.fns|] == s.fns
    && t.own == s.own[m := w2] && t.proto == s.proto && w1 in t.cells && w2 in t.cells
    && var c1 := t.cells[w1];
    && c1.name == m && ClosureOf(s, c1, dynamic) && c1.current == Some(w1 - 1) && Below(c1.original, w1 - 1)
    && (dynamic && m !in s.own ==> t.fns[|s.fns|].kind == Shim(m))
    && t.fns[w1] == Fn(Wrapper, ToFn(w1 - 1), map[])
    && t.fns[w1 - 1].kind == Relay(c1.original) && t.fns[w1 - 1].props == p1
    && t.fns[w1 - 1].link == (if Lookup(s, m).Some? then ToFn(Lookup(s, m).value) else FunctionProto)
    && t.cells[w2] == Cell(m, Some(w1), Some(w1), true, Some(w2 - 1))
    && t.fns[w2] == Fn(Wrapper, ToFn(w2 - 1), map[])
    && t.fns[w2 - 1] == Fn(Relay(Some(w1)), ToFn(w1), p2)
  }

  /** Forwarding installs always succeed; two of them in turn leave `Layout`. */
  lemma TwoInstalls(s: State, m: Key, p1: map<Key, Value>, p2: map<Key, Value>, dynamic: bool)
    requires WellFormed(s)
    ensures Around1(s, m, Forwarding(p1), dynamic).Ok?
    ensures var (t1, w1) := Around1(s, m, Forwarding(p1), dynamic).value;
            && Around1(t1, m, Forwarding(p2), dynamic).Ok?
            && var (t2, w2) := Around1(t1, m, Forwarding(p2), dynamic).value;
            && WellFormed(t2) && Layout(s, t2, w1, w2, m, p1, p2, dynamic)
  {
    var (t1, w1) := Around1(s, m, Forwarding(p1), dynamic).value;
    var (t2, w2) := Around1(t1, m, Forwarding(p2), dynamic).value;
    StackLayout(s, t1, w1, t2, w2, m, p1, p2, dynamic);
  }

  lemma StackLayout(s: State, t1: State, w1: FnId, t2: State, w2: FnId, m: Key,
                    p1: map<Key, Value>, p2: map<Key, Value>, dynamic: bool)
    requires WellFormed(s) && WellFormed(t1) && WellFormed(t2)
    requires Installed(s, t1, w1, m, Forwarding(p1), dynamic)
    requires Installed(t1, t2, w2, m, Forwarding(p2), dynamic)
    ensures Layout(s, t2, w1, w2, m, p1, p2, dynamic)
  {
    var n := |s.fns|;
    var n1 := |t1.fns|;
    forall i | 0 <= i < n1 ensures t2.fns[i] == t1.fns[i] {
      assert t2.fns[..n1][i] == t1.fns[i];
    }
    forall i | 0 <= i < n ensures t1.fns[i] == s.fns[i] {
      assert t1.fns[..n][i] == s.fns[i];
    }
    assert t2.fns[..n] == s.fns;
    var c1 := t1.cells[w1];
    assert t2.cells[w1] == c1;
    assert FnOk(t1, w1 - 1);
    assert Lookup(t1, m) == Some(w1);
  }

  /** A call that first enters the functions `front`, then goes on as `r`. */
  function Prefixed(front: seq<FnId>, r: (State, Outcome)): (State, Outcome) {
    (r.0, Outcome(front + r.1.trace, r.1.threw))
  }

  /** Calling `f` if there is one; calling nothing is a TypeError. */
  function Tail(u: State, f: Option<FnId>): (State, Outcome)
    requires WellFormed(u) && Below(f, |u.fns|)
  {
    if f.None? then (u, Outcome([], true)) else Call(u, f.value)
  }

  lemma PrefixedTwice(a: seq<FnId>, b: seq<FnId>, r: (State, Outcome))
    ensures Prefixed(a, Prefixed(b, r)) == Prefixed(a + b, r)
  {
    assert a + (b + r.1.trace) == (a + b) + r.1.trace;
  }

  /** A wrapper that is not pass-through: itself, its relay at `w - 1`, then what the relay calls. */
  lemma ThroughWrapper(u: State, w: FnId)
    requires WellFormed(u) && 0 < w < |u.fns| && w in u.cells && u.fns[w].kind == Wrapper
    requires u.cells[w].current == Some(w - 1) && u.cells[w].original != Some(w - 1)
    requires u.fns[w - 1].kind.Relay?
    ensures Below(u.fns[w - 1].kind.next, w - 1)
    ensures Call(u, w) == Prefixed([w, w - 1], Tail(u, u.fns[w - 1].kind.next))
  {
    assert FnOk(u, w - 1);
    var next := u.fns[w - 1].kind.next;
    assert Call(u, w) == Prefixed([w], Call(u, w - 1));
    if next.None? {
      assert [w - 1] + [] == [w - 1];
    }
    assert Call(u, w - 1) == Prefixed([w - 1], Tail(u, next));
    PrefixedTwice([w], [w - 1], Tail(u, next));
    assert [w] + [w - 1] == [w, w - 1];
  }

  /** A pass-through wrapper that is not the slot's direct value: itself, then its `original`. */
  lemma SkippingWrapper(u: State, w: FnId)
    requires WellFormed(u) && w in u.cells && u.fns[w].kind == Wrapper
    requires u.cells[w].current == u.cells[w].original && Lookup(u, u.cells[w].name) != Some(w)
    ensures Below(u.cells[w].current, w)
    ensures Call(u, w) == Prefixed([w], Tail(u, u.cells[w].current))
  {
    assert FnOk(u, w);
    assert [w] + [] == [w];
  }

  /** A pass-through wrapper that is the slot's direct value: it removes itself, then calls its `original`. */
  lemma SelfRemovingWrapper(v: State, w: FnId)
    requires WellFormed(v) && w in v.cells && v.fns[w].kind == Wrapper
    requires v.cells[w].current == v.cells[w].original && Lookup(v, v.cells[w].name) == Some(w)
    ensures Below(v.cells[w].current, w) && w < |Remove(v, w).fns|
    ensures Call(v, w) == Prefixed([w], Tail(Remove(v, w), v.cells[w].current))
  {
    assert FnOk(v, w);
    assert [w] + [] == [w];
  }

  /**
   * A call through both wrappers: outer wrapper, outer replacement, inner
   * wrapper, inner replacement, then the inner `original`.
   */
  lemma StackedCallsAny(s: State, t: State, w1: FnId, w2: FnId, m: Key,
                        p1: map<Key, Value>, p2: map<Key, Value>, dynamic: bool)
    requires WellFormed(t) && Layout(s, t, w1, w2, m, p1, p2, dynamic)
    ensures CallMethod(t, m) == Prefixed([w2, w2 - 1, w1, w1 - 1], Tail(t, t.cells[w1].original))
  {
    assert Lookup(t, m) == Some(w2);
    ThroughWrapper(t, w2);
    assert Tail(t, Some(w1)) == Call(t, w1);
    ThroughWrapper(t, w1);
    PrefixedTwice([w2, w2 - 1], [w1, w1 - 1], Tail(t, t.cells[w1].original));
    assert [w2, w2 - 1] + [w1, w1 - 1] == [w2, w2 - 1, w1, w1 - 1];
  }

  /**
   * What the inner `original` does for a method the object did not own: in
   * the static build it is the prototype's method found at install time (or
   * nothing); in the dynamic build it is the shim, which calls whatever the
   * prototype holds when it runs.
   */
  lemma InheritedOriginal(s: State, x: State, c: Cell, dynamic: bool)
    requires WellFormed(s) && WellFormed(x) && c.name !in s.own && ClosureOf(s, c, dynamic)
    requires |s.fns| < |x.fns| && x.fns[..|s.fns|] == s.fns
    requires dynamic ==> x.fns[|s.fns|].kind == Shim(c.name)
    ensures Below(c.original, |x.fns|)
    ensures Tail(x, c.original) ==
              if dynamic then
                if c.name in x.proto then (x, Outcome([|s.fns|, x.proto[c.name]], false))
                else (x, Outcome([|s.fns|], true))
              else
                if c.name in s.proto then (x, Outcome([s.proto[c.name]], false))
                else (x, Outcome([], true))
  {
    var m := c.name;
    if !dynamic && m in s.proto {
      var n := s.proto[m];
      assert x.fns[n] == x.fns[..|s.fns|][n] == s.fns[n];
    }
  }

  /**
   * The stacked call over a method the object only inherits, or lacks: the
   * static build ends at the prototype's method found at install time, the
   * dynamic one goes through the shim to the prototype's current method.
   */
  lemma StackedCallsInherited(s: State, t: State, w1: FnId, w2: FnId, m: Key,
                              p1: map<Key, Value>, p2: map<Key, Value>, dynamic: bool)
    requires WellFormed(s) && WellFormed(t) && Layout(s, t, w1, w2, m, p1, p2, dynamic) && m !in s.own
    ensures var front := [w2, w2 - 1, w1, w1 - 1];
            CallMethod(t, m) ==
              if dynamic then
                if m in s.proto then (t, Outcome(front + [|s.fns|, s.proto[m]], false))
                else (t, Outcome(front + [|s.fns|], true))
              else
                if m in s.proto then (t, Outcome(front + [s.proto[m]], false))
                else (t, Outcome(front, true))
  {
    StackedCallsAny(s, t, w1, w2, m, p1, p2, dynamic);
    InheritedOriginal(s, t, t.cells[w1], dynamic);
    assert [w2, w2 - 1, w1, w1 - 1] + [] == [w2, w2 - 1, w1, w1 - 1];
  }

  /** Removing the inner wrapper: the outer one keeps the slot, the inner one turns pass-through. */
  lemma InnerRemoved(s: State, t: State, w1: FnId, w2: FnId, m: Key,
                     p1: map<Key, Value>, p2: map<Key, Value>, dynamic: bool)
    requires WellFormed(t) && Layout(s, t, w1, w2, m, p1, p2, dynamic)
    ensures var u := Remove(t, w1);
            && u.own == t.own && Lookup(u, m) == Some(w2) && |u.fns| == |t.fns|
            && u.fns[w2] == t.fns[w2] && u.fns[w2 - 1] == t.fns[w2 - 1] && u.cells[w2] == t.cells[w2]
            && u.fns[w1].kind == Wrapper && u.cells[w1] == t.cells[w1].(current := t.cells[w1].original)
  {
    assert Lookup(t, m) == Some(w2);
  }

  /**
   * Removing the inner wrapper beneath the outer one leaves the slot alone;
   * a call then skips the inner replacement and goes from the inner wrapper
   * straight to its `original`.
   */
  lemma InnerRemovedCallsAny(s: State, t: State, w1: FnId, w2: FnId, m: Key,
                             p1: map<Key, Value>, p2: map<Key, Value>, dynamic: bool)
    requires WellFormed(t) && Layout(s, t, w1, w2, m, p1, p2, dynamic)
    ensures Remove(t, w1).own == t.own
    ensures CallMethod(Remove(t, w1), m) == Prefixed([w2, w2 - 1, w1], Tail(Remove(t, w1), t.cells[w1].original))
  {
    InnerRemoved(s, t, w1, w2, m, p1, p2, dynamic);
    OverSkipping(Remove(t, w1), w1, w2, m);
  }

  /** An outer wrapper, not pass-through, over a pass-through one that is not the slot's direct value. */
  lemma OverSkipping(u: State, w1: FnId, w2: FnId, m: Key)
    requires WellFormed(u) && w1 in u.cells && w2 in u.cells && 0 < w2 < |u.fns| && w1 != w2 - 1
    requires Lookup(u, m) == Some(w2) && u.cells[w1].name == m
    requires u.fns[w2].kind == Wrapper && u.cells[w2].current == Some(w2 - 1) && u.cells[w2].original == Some(w1)
    requires u.fns[w2 - 1].kind == Relay(Some(w1))
    requires u.fns[w1].kind == Wrapper && u.cells[w1].current == u.cells[w1].original
    ensures Below(u.cells[w1].original, |u.fns|)
    ensures CallMethod(u, m) == Prefixed([w2, w2 - 1, w1], Tail(u, u.cells[w1].original))
  {
    ThroughWrapper(u, w2);
    assert Tail(u, Some(w1)) == Call(u, w1);
    SkippingWrapper(u, w1);
    PrefixedTwice([w2, w2 - 1], [w1], Tail(u, u.cells[w1].original));
    assert [w2, w2 - 1] + [w1] == [w2, w2 - 1, w1];
  }

  /** Writing a key twice keeps the second value. */
  lemma UpdateTwice(own: map<Key, FnId>, m: Key, x: FnId, y: FnId)
    ensures own[m := x][m := y] == own[m := y]
  {
  }

  /** Removing a wrapper that holds the slot and had replaced `w1` there puts `w1` back. */
  lemma OuterRemoved(u: State, w1: FnId, w2: FnId, m: Key)
    requires WellFormed(u) && w1 in u.cells && w2 in u.cells && w1 != w2 && w1 < |u.fns|
    requires Lookup(u, m) == Some(w2) && u.cells[w2].name == m
    requires u.cells[w2].hadOwn && u.cells[w2].original == Some(w1)
    ensures var v := Remove(u, w2);
            && v.own == u.own[m := w1] && v.proto == u.proto && v.cells[w1] == u.cells[w1]
            && v.fns[w1] == u.fns[w1]
  {
    assert Remove(u, w2).own == Restored(u.own, u.cells[w2]);
  }

  /** Removing the outer wrapper, then the inner one, gives back every own slot. */
  lemma ReverseRemovalAny(s: State, t: State, w1: FnId, w2: FnId, m: Key,
                          p1: map<Key, Value>, p2: map<Key, Value>, dynamic: bool)
    requires WellFormed(t) && Layout(s, t, w1, w2, m, p1, p2, dynamic)
    ensures Remove(Remove(t, w2), w1).own == s.own
  {
    var y := Remove(t, w2);
    assert Lookup(t, m) == Some(w2);
    OuterRemoved(t, w1, w2, m);
    UpdateTwice(s.own, m, w2, w1);
    Laws.RemoveRestoresHolding(s, y, m, w1);
  }

  /** Both removals, inner first: the inner wrapper, now pass-through, is back in the slot. */
  lemma BothRemoved(s: State, t: State, w1: FnId, w2: FnId, m: Key,
                    p1: map<Key, Value>, p2: map<Key, Value>, dynamic: bool)
    requires WellFormed(t) && Layout(s, t, w1, w2, m, p1, p2, dynamic)
    ensures var v := Remove(Remove(t, w1), w2);
            && v.own == s.own[m := w1] && v.proto == s.proto && w1 in v.cells && w1 < |v.fns|
            && v.fns[w1].kind == Wrapper
            && v.cells[w1] == t.cells[w1].(current := t.cells[w1].original)
  {
    InnerRemoved(s, t, w1, w2, m, p1, p2, dynamic);
    var u := Remove(t, w1);
    OuterRemoved(u, w1, w2, m);
    UpdateTwice(s.own, m, w2, w1);
  }

  /**
   * Removing the inner wrapper, then the outer one, leaves the pass-through
   * inner wrapper in the slot. Its next call removes it, which gives back
   * every own slot, and then runs its `original`.
   */
  lemma SelfHealingAny(s: State, t: State, w1: FnId, w2: FnId, m: Key,
                       p1: map<Key, Value>, p2: map<Key, Value>, dynamic: bool)
    requires WellFormed(t) && Layout(s, t, w1, w2, m, p1, p2, dynamic)
    ensures var v := Remove(Remove(t, w1), w2);
            && Lookup(v, m) == Some(w1) && Remove(v, w1).own == s.own
            && CallMethod(v, m) == Prefixed([w1], Tail(Remove(v, w1), t.cells[w1].original))
  {
    BothRemoved(s, t, w1, w2, m, p1, p2, dynamic);
    var v := Remove(Remove(t, w1), w2);
    assert Lookup(v, m) == Some(w1);
    Laws.RemoveRestoresHolding(s, v, m, w1);
    SelfRemovingWrapper(v, w1);
  }

  /** Past a wrapper and its replacement, a property the replacement lacks is looked up on `next`. */
  lemma PastReplacement(fns: seq<Fn>, w: FnId, next: FnId, props: map<Key, Value>, p: Key)
    requires LinksDescend(fns) && 0 < w < |fns| && p !in props
    requires fns[w] == Fn(Wrapper, ToFn(w - 1), map[]) && fns[w - 1].link == ToFn(next)
    requires fns[w - 1].props == props
    ensures next < w - 1 && Get(fns, w, p) == Get(fns, next, p)
  {
    assert Get(fns, w, p) == Get(fns, w - 1, p);
  }

  /**
   * The outer wrapper shows the outer replacement's properties, then the
   * inner replacement's, then those of what `obj[m]` was (none when it was
   * missing).
   */
  lemma StackedPropsAny(s: State, t: State, w1: FnId, w2: FnId, m: Key,
                        p1: map<Key, Value>, p2: map<Key, Value>, dynamic: bool, p: Key)
    requires WellFormed(s) && WellFormed(t) && Layout(s, t, w1, w2, m, p1, p2, dynamic)
    ensures Get(t.fns, w2, p) ==
              if p in p2 then Some(p2[p])
              else if p in p1 then Some(p1[p])
              else if Lookup(s, m).Some? then Get(s.fns, Lookup(s, m).value, p)
              else None
  {
    assert Get(t.fns, w2, p) == Get(t.fns, w2 - 1, p);
    if p !in p2 {
      PastReplacement(t.fns, w2, w1, p2, p);
      assert Get(t.fns, w1, p) == Get(t.fns, w1 - 1, p);
      if p !in p1 && Lookup(s, m).Some? {
        PrefixGet(s.fns, t.fns, Lookup(s, m).value, p);
      }
    }
  }

  /**
   * Once the inner wrapper is removed, the outer wrapper no longer shows the
   * inner replacement's properties: past its own replacement it shows those of
   * what `obj[m]` was.
   */
  lemma InnerGonePropsAny(s: State, t: State, w1: FnId, w2: FnId, m: Key,
                          p1: map<Key, Value>, p2: map<Key, Value>, dynamic: bool, p: Key)
    requires WellFormed(s) && WellFormed(t) && Layout(s, t, w1, w2, m, p1, p2, dynamic) && p !in p2
    ensures Get(Remove(t, w1).fns, w2, p) ==
              if Lookup(s, m).Some? then Get(s.fns, Lookup(s, m).value, p) else None
  {
    InnerRemoved(s, t, w1, w2, m, p1, p2, dynamic);
    var u := Remove(t, w1);
    PastReplacement(u.fns, w2, w1, p2, p);
    Laws.RemovedWrapperSkipsReplacement(t, w1, p);
    if Lookup(s, m).Some? {
      PrefixGet(s.fns, t.fns, Lookup(s, m).value, p);
    }
  }
}
