/**
 * The same protocol as it runs: one mutable heap whose fields the operations
 * update step by step, as `around1`, `remove`, `wrapper`, `around` and `dedupe`
 * do. Each method is proved to leave exactly the state, and return exactly
 * the value, that the corresponding transition of `Wrap` or `Guard` describes.
 */
module Patcher {
  import opened Heap
  import opened Wrap
  import Guard

  class Realm {
    var fns: seq<Fn>
    var own: map<Key, FnId>
    var proto: map<Key, FnId>
    var cells: map<FnId, Cell>

    /** The heap as a value. */
    function Snapshot(): State
      reads this
    {
      State(fns, own, proto, cells)
    }

    /** The heap is well formed: links and references point to older functions. */
    ghost predicate Valid()
      reads this
    {
      WellFormed(Snapshot())
    }

    constructor (s: State)
      requires WellFormed(s)
      ensures Valid() && Snapshot() == s
    {
      fns, own, proto, cells := s.fns, s.own, s.proto, s.cells;
    }

    /** `around1(obj, m, createWrapper)`. */
    method Around1(m: Key, factory: Factory, dynamic: bool) returns (r: Result<FnId>)
      requires Valid()
      modifies this
      ensures Valid()
      ensures var out := Wrap.Around1(old(Snapshot()), m, factory, dynamic);
              if out.Ok? then r == Ok(out.value.1) && Snapshot() == out.value.0
              else r.TypeError? && Snapshot() == old(Snapshot())
    {
      ghost var s := Snapshot();
      var inherited := Lookup(Snapshot(), m);
      var hadOwn := m in own;
      var original := inherited;
      if dynamic && !hadOwn {
        original := Some(|fns|);
        fns := fns + [Fn(Shim(m), FunctionProto, map[])];
      }
      assert (Snapshot(), original) == Capture(s, m, dynamic);
      ghost var s1 := Snapshot();
      var current := original;
      match factory {
        case Identity =>
        case Forwarding(props) =>
          current := Some(|fns|);
          fns := fns + [Fn(Relay(original), FunctionProto, props)];
      }
      assert (Snapshot(), current) == Produce(s1, factory, original);
      if current.None? || current == inherited {
        return TypeError;
      }
      var w := Link(Cell(m, inherited, original, hadOwn, current));
      r := Ok(w);
    }

    /**
     * The three writes of an install: the factory's result links to the
     * captured value, the fresh `wrapper` links to it, and the slot takes the wrapper.
     */
    method Link(c: Cell) returns (w: FnId)
      requires Valid() && c.current.Some? && c.current.value < |fns|
      requires Below(c.inherited, c.current.value) && CellBelow(c, |fns|)
      modifies this
      ensures Valid() && (Snapshot(), w) == Commit(old(Snapshot()), c)
    {
      var k := c.current.value;
      if c.inherited.Some? {
        fns := fns[k := fns[k].(link := ToFn(c.inherited.value))];
      }
      w := |fns|;
      fns := fns + [Fn(Wrapper, ToFn(k), map[])];
      cells := cells[w := c];
      own := own[c.name := w];
      assert Snapshot() == Commit(old(Snapshot()), c).0;
    }

    /** `remove()` of the install whose wrapper is `w`. */
    method Remove(w: FnId)
      requires Valid() && w in cells
      modifies this
      ensures Valid() && Snapshot() == Wrap.Remove(old(Snapshot()), w)
    {
      var c := cells[w];
      if Lookup(Snapshot(), c.name) == Some(w) {
        if c.hadOwn {
          own := own[c.name := c.original.value];
        } else {
          own := own - {c.name};
        }
      }
      if c.current == c.original {
        assert Snapshot() == Detach(old(Snapshot()), w);
        return;
      }
      cells := cells[w := c.(current := c.original)];
      fns := fns[w := fns[w].(link := Relink(c))];
      assert fns == old(fns)[w := old(fns)[w].(link := Relink(c))];
      ghost var d := Detach(old(Snapshot()), w);
      assert Snapshot() == SetLink(SetCurrent(d, w, c.original), w, Relink(c));
    }

    /** Calls function `f`; an installed `wrapper` may remove itself first. */
    method Call(f: FnId) returns (o: Outcome)
      requires Valid() && f < |fns|
      modifies this
      ensures Valid() && (Snapshot(), o) == Wrap.Call(old(Snapshot()), f)
      decreases f
    {
      assert FnOk(Snapshot(), f);
      match fns[f].kind {
        case Native =>
          o := Outcome([f], false);
        case Relay(next) =>
          if next.None? {
            o := Outcome([f], true);
          } else {
            var inner := Call(next.value);
            o := Outcome([f] + inner.trace, inner.threw);
          }
        case Shim(m) =>
          if m in proto {
            o := Outcome([f, proto[m]], false);
          } else {
            o := Outcome([f], true);
          }
        case Check(key, a, b) =>
          var inner := Call(Guard.Choose(fns, key, a, b));
          o := Outcome([f] + inner.trace, inner.threw);
        case Wrapper =>
          var c := cells[f];
          if c.current == c.original && Lookup(Snapshot(), c.name) == Some(f) {
            Remove(f);
          }
          if c.current.None? {
            o := Outcome([f], true);
          } else {
            var inner := Call(c.current.value);
            o := Outcome([f] + inner.trace, inner.threw);
          }
      }
    }

    /** `obj[m]()`. */
    method CallMethod(m: Key) returns (o: Outcome)
      requires Valid()
      modifies this
      ensures Valid() && (Snapshot(), o) == Wrap.CallMethod(old(Snapshot()), m)
    {
      match Lookup(Snapshot(), m) {
        case None =>
          o := Outcome([], true);
        case Some(f) =>
          o := Call(f);
      }
    }

    /**
     * `Object.keys(factories).map(key => around1(obj, key, factories[key]))`:
     * one install per key in order; the first TypeError propagates and the
     * installs before it stay.
     */
    method InstallAll(pairs: seq<(Key, Factory)>, dynamic: bool) returns (r: Result<seq<FnId>>)
      requires Valid()
      modifies this
      ensures Valid() && (Snapshot(), r) == Wrap.InstallAll(old(Snapshot()), pairs, dynamic)
    {
      ghost var s := Snapshot();
      var removers: seq<FnId> := [];
      var i := 0;
      assert pairs[..0] == [];
      while i < |pairs|
        invariant 0 <= i <= |pairs| && Valid()
        invariant (Snapshot(), Ok(removers)) == Wrap.InstallAll(s, pairs[..i], dynamic)
      {
        var h := InstallNext(s, pairs, i, removers, dynamic);
        if h.TypeError? {
          return TypeError;
        }
        removers := removers + [h.value];
        i := i + 1;
      }
      assert pairs[..|pairs|] == pairs;
      r := Ok(removers);
    }

    /** One step of the `map`: `around1` for the key at `i`, after the installs for the keys before it. */
    method InstallNext(ghost s: State, pairs: seq<(Key, Factory)>, i: nat, removers: seq<FnId>, dynamic: bool)
      returns (h: Result<FnId>)
      requires Valid() && WellFormed(s) && i < |pairs|
      requires (Snapshot(), Ok(removers)) == Wrap.InstallAll(s, pairs[..i], dynamic)
      modifies this
      ensures Valid()
      ensures h.Ok? ==> (Snapshot(), Ok(removers + [h.value])) == Wrap.InstallAll(s, pairs[..i + 1], dynamic)
      ensures h.TypeError? ==> (Snapshot(), TypeError) == Wrap.InstallAll(s, pairs, dynamic)
    {
      InstallAllStep(s, pairs, i, dynamic);
      h := Around1(pairs[i].0, pairs[i].1, dynamic);
      if h.TypeError? {
        InstallAllStops(s, pairs, i + 1, dynamic);
      }
    }

    /** `around(obj, factories)`: the installs, then one key's own remover or a fused one. */
    method Around(pairs: seq<(Key, Factory)>, dynamic: bool) returns (r: Result<Remover>)
      requires Valid()
      modifies this
      ensures Valid() && (Snapshot(), r) == Wrap.Around(old(Snapshot()), pairs, dynamic)
    {
      var hs := InstallAll(pairs, dynamic);
      if hs.TypeError? {
        return TypeError;
      }
      var removers := hs.value;
      if |removers| == 1 {
        r := Ok(Handle(removers[0]));
      } else {
        r := Ok(Fused(removers));
      }
    }

    /** Invokes a remover returned by `around`: the fused one runs each handle in turn. */
    method RunRemover(rm: Remover)
      requires Valid() && Holds(Snapshot(), rm)
      modifies this
      ensures Valid() && Snapshot() == Wrap.RunRemover(old(Snapshot()), rm)
    {
      match rm {
        case Handle(w) =>
          Remove(w);
        case Fused(ws) =>
          ghost var s := Snapshot();
          for i := 0 to |ws|
            invariant Valid() && cells.Keys == s.cells.Keys
            invariant Snapshot() == RemoveAll(s, ws[..i])
          {
            RemoveAllStep(s, ws, i);
            Remove(ws[i]);
          }
          assert ws[..|ws|] == ws;
      }
    }

    /** `dedupe(key, oldFn, newFn)`: returns the fresh `check`. */
    method Dedupe(key: Key, oldFn: FnId, newFn: FnId) returns (check: FnId)
      requires Valid() && oldFn < |fns| && newFn < |fns|
      modifies this
      ensures Valid() && (Snapshot(), check) == Guard.Dedupe(old(Snapshot()), key, oldFn, newFn)
    {
      check := |fns|;
      fns := fns + [Fn(Check(key, oldFn, newFn), FunctionProto, map[])];
      fns := fns[check := fns[check].(props := fns[check].props[key := Str(key)])];
      assert fns == old(fns) + [Fn(Check(key, oldFn, newFn), FunctionProto, map[key := Str(key)])];
      assert Snapshot() == Guard.Dedupe(old(Snapshot()), key, oldFn, newFn).0;
    }
  }

  /** Once an install fails, `around` stops: the outcome of the longer list is that failure. */
  lemma InstallAllStops(s: State, pairs: seq<(Key, Factory)>, i: nat, dynamic: bool)
    requires WellFormed(s) && 0 < i <= |pairs|
    requires InstallAll(s, pairs[..i], dynamic).1.TypeError?
    ensures InstallAll(s, pairs, dynamic) == (InstallAll(s, pairs[..i], dynamic).0, TypeError)
    decreases |pairs| - i
  {
    if i < |pairs| {
      assert pairs[..i + 1][..i] == pairs[..i];
      InstallAllStops(s, pairs, i + 1, dynamic);
    } else {
      assert pairs[..i] == pairs;
    }
  }
}
