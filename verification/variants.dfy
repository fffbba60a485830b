/**
 * Where the two builds of `around1` differ: for a method the object only
 * inherits, the dynamic build hands the factory a shim that looks the method
 * up on the prototype at each call, the static one the method found at
 * install time.
 */
module Variants {
  import opened Heap
  import opened Wrap

  /**
   * What a forwarding install on a method `m` the object does not own leaves:
   * `m` held by wrapper `w`, whose `current` is the relay at `w - 1`, calling
   * `original` (the shim at `|s.fns|` in the dynamic build, the captured
   * value in the static one).
   */
  ghost predicate InheritShape(s: State, t: State, w: FnId, m: Key, dynamic: bool) {
    && m !in s.own && |s.fns| + 1 <= w && |t.fns| == w + 1 && t.fns[..|s.fns|] == s.fns
    && t.own == s.own[m := w] && t.proto == s.proto && w in t.cells
    && t.fns[w].kind == Wrapper
    && var c := t.cells[w];
    && c.current == Some(w - 1) && c.original != Some(w - 1)
    && c.original == (if dynamic then Some(|s.fns|) else Lookup(s, m))
    && t.fns[w - 1].kind == Relay(c.original)
    && (dynamic ==> |s.fns| < w - 1 && t.fns[|s.fns|].kind == Shim(m))
  }

  /** A forwarding install over a method the object does not own leaves `InheritShape`. */
  lemma ForwardOverInherited(s: State, t: State, w: FnId, m: Key, props: map<Key, Value>, dynamic: bool)
    requires WellFormed(s) && m !in s.own && Installed(s, t, w, m, Forwarding(props), dynamic)
    ensures InheritShape(s, t, w, m, dynamic)
  {
  }

  /** A call through wrapper `w` whose relay at `w - 1` calls `next`: the three steps in order. */
  lemma RelayedCall(u: State, m: Key, w: FnId, next: FnId)
    requires WellFormed(u) && 0 < w < |u.fns| && Lookup(u, m) == Some(w) && w in u.cells
    requires u.fns[w].kind == Wrapper && u.cells[w].current == Some(w - 1) && u.cells[w].original != Some(w - 1)
    requires u.fns[w - 1].kind == Relay(Some(next))
    ensures next < w - 1
    ensures var (v, o) := Call(u, next);
            CallMethod(u, m) == (v, Outcome([w, w - 1] + o.trace, o.threw))
  {
    assert FnOk(u, w - 1);
    var (v, o) := Call(u, next);
    assert Call(u, w - 1) == (v, Outcome([w - 1] + o.trace, o.threw));
    assert [w] + ([w - 1] + o.trace) == [w, w - 1] + o.trace;
  }

  /**
   * Dynamic build, inherited method: once the ancestor's method is replaced,
   * a call through the wrapper reaches the new one (wrapper, the factory's
   * relay, the shim, the new ancestor method).
   */
  lemma ShimFollowsAncestor(s: State, t: State, w: FnId, m: Key, props: map<Key, Value>)
    requires WellFormed(s) && WellFormed(t) && m !in s.own && Installed(s, t, w, m, Forwarding(props), true)
    ensures var (u, a) := DefineProto(t, m);
            CallMethod(u, m) == (u, Outcome([w, w - 1, |s.fns|, a], false))
  {
    ForwardOverInherited(s, t, w, m, props, true);
    var sh := |s.fns|;
    var (u, a) := DefineProto(t, m);
    assert u.fns[w] == t.fns[w] && u.fns[w - 1] == t.fns[w - 1] && u.fns[sh] == t.fns[sh];
    assert Call(u, sh) == (u, Outcome([sh, a], false));
    RelayedCall(u, m, w, sh);
    assert [w, w - 1] + [sh, a] == [w, w - 1, sh, a];
  }

  /**
   * Static build, inherited method: the wrapper keeps calling the method
   * captured at install time, even after the ancestor's method is replaced;
   * when there was none, calls keep failing.
   */
  lemma FrozenCapture(s: State, t: State, w: FnId, m: Key, props: map<Key, Value>)
    requires WellFormed(s) && WellFormed(t) && m !in s.own && Installed(s, t, w, m, Forwarding(props), false)
    ensures var (u, a) := DefineProto(t, m);
            CallMethod(u, m) ==
              if m in s.proto then (u, Outcome([w, w - 1, s.proto[m]], false))
              else (u, Outcome([w, w - 1], true))
  {
    ForwardOverInherited(s, t, w, m, props, false);
    var (u, a) := DefineProto(t, m);
    assert |u.fns| == w + 2 && u.own == t.own && u.cells == t.cells;
    assert u.fns[w] == t.fns[w] && u.fns[w - 1] == t.fns[w - 1];
    if m in s.proto {
      FrozenFound(s, t, w, m, u);
    } else {
      assert t.fns[w - 1].kind == Relay(None) && Lookup(u, m) == Some(w);
      assert Call(u, w - 1) == (u, Outcome([w - 1], true));
      assert [w] + [w - 1] == [w, w - 1];
    }
  }

  /** The static build with an ancestor method at install time: the call reaches that method. */
  lemma FrozenFound(s: State, t: State, w: FnId, m: Key, u: State)
    requires WellFormed(s) && WellFormed(u) && InheritShape(s, t, w, m, false) && m in s.proto
    requires |u.fns| == w + 2 && u.own == t.own && u.cells == t.cells
    requires u.fns[w] == t.fns[w] && u.fns[w - 1] == t.fns[w - 1] && u.fns[..|t.fns|] == t.fns
    ensures CallMethod(u, m) == (u, Outcome([w, w - 1, s.proto[m]], false))
  {
    var n := s.proto[m];
    assert Lookup(s, m) == Some(n) && t.fns[w - 1].kind == Relay(Some(n));
    assert u.fns[n] == u.fns[..|t.fns|][n] == t.fns[n] == t.fns[..|s.fns|][n] == s.fns[n];
    assert Call(u, n) == (u, Outcome([n], false));
    RelayedCall(u, m, w, n);
    assert [w, w - 1] + [n] == [w, w - 1, n];
  }

  /** What `f => f` leaves in the dynamic build on a method `m` the object does not own. */
  ghost predicate ShimShape(s: State, t: State, w: FnId, m: Key) {
    && |t.fns| == w + 1 && |s.fns| < w && t.fns[..|s.fns|] == s.fns
    && t.own == s.own[m := w] && t.proto == s.proto && w in t.cells
    && t.fns[w].kind == Wrapper && t.fns[|s.fns|].kind == Shim(m)
    && t.cells[w] == Cell(m, Lookup(s, m), Some(|s.fns|), false, Some(|s.fns|))
  }

  /** In the dynamic build, `f => f` on a method the object does not own installs, leaving `ShimShape`. */
  lemma IdentityOverInherited(s: State, m: Key)
    requires WellFormed(s) && m !in s.own
    ensures var (t, w) := Around1(s, m, Identity, true).value;
            ShimShape(s, t, w, m)
  {
    var (t, w) := Around1(s, m, Identity, true).value;
    assert Installed(s, t, w, m, Identity, true);
  }

  /**
   * Dynamic build, `f => f` on an inherited method: the factory returns the
   * shim itself, so the wrapper is pass-through from the start and its first
   * call takes it out of the slot, leaving the object's own slots as before.
   */
  lemma IdentityShimSelfRemoves(s: State, m: Key)
    requires WellFormed(s) && m !in s.own
    ensures var (t, w) := Around1(s, m, Identity, true).value;
            var (v, o) := CallMethod(t, m);
            v.own == s.own &&
            o == if m in s.proto then Outcome([w, |s.fns|, s.proto[m]], false) else Outcome([w, |s.fns|], true)
  {
    var (t, w) := Around1(s, m, Identity, true).value;
    IdentityOverInherited(s, m);
    ShimSelfRemoves(s, t, w, m);
  }

  /** The first call through that wrapper removes it, then runs the shim. */
  lemma ShimSelfRemoves(s: State, t: State, w: FnId, m: Key)
    requires WellFormed(s) && WellFormed(t) && m !in s.own && ShimShape(s, t, w, m)
    ensures var (v, o) := CallMethod(t, m);
            v.own == s.own &&
            o == if m in s.proto then Outcome([w, |s.fns|, s.proto[m]], false) else Outcome([w, |s.fns|], true)
  {
    var sh := |s.fns|;
    assert Lookup(t, m) == Some(w);
    var r := Remove(t, w);
    assert r.own == s.own by {
      assert s.own[m := w] - {m} == s.own;
    }
    assert r.fns == t.fns && r.proto == s.proto;
    if m in s.proto {
      assert Call(r, sh) == (r, Outcome([sh, s.proto[m]], false));
      assert [w] + [sh, s.proto[m]] == [w, sh, s.proto[m]];
    } else {
      assert Call(r, sh) == (r, Outcome([sh], true));
      assert [w] + [sh] == [w, sh];
    }
  }
}
