/**
 * What the wrapping protocol guarantees: removal restores the slot and is
 * safe to repeat, wrappers inherit the properties of what they wrap, stacked
 * wrappers run outermost first and a removed one drops out of the chain while
 * the chain still reaches the original, and a pass-through wrapper left in a
 * slot removes itself at its next call.
 */
module Laws {
  import opened Heap
  import opened Wrap

  /** Calling `remove()` again changes nothing. */
  lemma RemoveIdempotent(s: State, w: FnId)
    requires WellFormed(s) && w in s.cells
    ensures w in Remove(s, w).cells && Remove(Remove(s, w), w) == Remove(s, w)
  {
    var r := Remove(s, w);
    assert Detach(r, w) == r;
  }

  /**
   * Installing then removing puts back exactly what the slot held: the same
   * function when it was own, no own slot when it was inherited or missing.
   */
  lemma InstallRemoveRestores(s: State, m: Key, factory: Factory, dynamic: bool)
    requires WellFormed(s) && Around1(s, m, factory, dynamic).Ok?
    ensures var (t, w) := Around1(s, m, factory, dynamic).value;
            Remove(t, w).own == s.own && Lookup(Remove(t, w), m) == Lookup(s, m)
  {
    var (t, w) := Around1(s, m, factory, dynamic).value;
    assert Holding(s, t, m, w) && t.own == s.own[m := w] && t.proto == s.proto;
    RemoveRestoresHolding(s, t, m, w);
  }

  /** Removing the wrapper that holds slot `m`, and took it last, gives `m` back as it was in `s`. */
  lemma RemoveRestoresHolding(s: State, t: State, m: Key, w: FnId)
    requires WellFormed(t) && Holding(s, t, m, w) && t.own == s.own[m := w] && t.proto == s.proto
    ensures Remove(t, w).own == s.own && Lookup(Remove(t, w), m) == Lookup(s, m)
  {
    assert Lookup(t, m) == Some(w);
    if m in s.own {
      assert s.own[m := w][m := s.own[m]] == s.own;
    } else {
      assert s.own[m := w] - {m} == s.own;
    }
  }

  /**
   * The installed wrapper shows the factory's properties first, then those of
   * the value the slot held before (not of the shim the dynamic variant hands
   * to the factory), as `wrapper → current → inherited` prototype links give.
   */
  lemma PropsThroughWrapper(s: State, m: Key, factory: Factory, dynamic: bool, p: Key)
    requires WellFormed(s) && Around1(s, m, factory, dynamic).Ok?
    ensures var (t, w) := Around1(s, m, factory, dynamic).value;
            Get(t.fns, w, p) ==
              if p in Statics(factory) then Some(Statics(factory)[p])
              else if Lookup(s, m).Some? then Get(s.fns, Lookup(s, m).value, p)
              else None
  {
    var (t, w) := Around1(s, m, factory, dynamic).value;
    InstalledChain(s, t, w, m, factory, dynamic);
    ChainGet(t.fns, w, t.cells[w].current.value, Statics(factory), Lookup(s, m), p);
    if Lookup(s, m).Some? {
      PrefixGet(s.fns, t.fns, Lookup(s, m).value, p);
    }
  }

  /** The prototype chain an install builds: wrapper `w`, then `current` at `k` carrying `props`, then `inherited`. */
  ghost predicate Chain(fns: seq<Fn>, w: FnId, k: FnId, props: map<Key, Value>, inherited: Option<FnId>) {
    && k < w < |fns| && fns[w] == Fn(Wrapper, ToFn(k), map[])
    && fns[k].props == props
    && fns[k].link == (if inherited.Some? then ToFn(inherited.value) else FunctionProto)
  }

  /** A property read through such a chain: the wrapper has none of its own, so `current`'s come first, then `inherited`'s. */
  lemma ChainGet(fns: seq<Fn>, w: FnId, k: FnId, props: map<Key, Value>, inherited: Option<FnId>, p: Key)
    requires LinksDescend(fns) && Chain(fns, w, k, props, inherited)
    ensures Below(inherited, k)
    ensures Get(fns, w, p) ==
              if p in props then Some(props[p])
              else if inherited.Some? then Get(fns, inherited.value, p)
              else None
  {
    assert LinkBelow(fns[k].link, k);
  }

  /** Every install builds that chain, on top of the unchanged older functions. */
  lemma InstalledChain(s: State, t: State, w: FnId, m: Key, factory: Factory, dynamic: bool)
    requires WellFormed(s) && WellFormed(t) && Installed(s, t, w, m, factory, dynamic)
    ensures t.cells[w].current.Some? && |s.fns| <= t.cells[w].current.value
    ensures Chain(t.fns, w, t.cells[w].current.value, Statics(factory), Lookup(s, m))
    ensures |s.fns| <= |t.fns| && t.fns[..|s.fns|] == s.fns
  {
  }

  /**
   * A wrapper removed while covered by another becomes pass-through and its
   * prototype link skips its replacement: its properties are again those of
   * the value it captured, or none when that was missing (link to `Function`).
   */
  lemma RemovedWrapperSkipsReplacement(s: State, w: FnId, p: Key)
    requires WellFormed(s) && w in s.cells && s.cells[w].current != s.cells[w].original
    ensures var c := s.cells[w];
            Get(Remove(s, w).fns, w, p) ==
              if p in s.fns[w].props then Some(s.fns[w].props[p])
              else if c.inherited.Some? then Get(s.fns, c.inherited.value, p)
              else None
  {
    var r := Remove(s, w);
    var c := s.cells[w];
    if c.inherited.Some? {
      GetAgrees(r.fns, s.fns, c.inherited.value, p);
    }
  }

  /**
   * The wrapper inherits from the method it wrapped, live: a property set on
   * that method after the install (and after a call) is seen through the
   * wrapper, unless the factory's result carries the same property.
   */
  lemma InheritsLaterProps(s: State, m: Key, props: map<Key, Value>, dynamic: bool, p: Key, v: Value)
    requires WellFormed(s) && m in s.own && p !in props
    ensures var (t, w) := Around1(s, m, Forwarding(props), dynamic).value;
            var u := SetProp(CallMethod(t, m).0, s.own[m], p, v);
            Get(u.fns, w, p) == Some(v)
  {
    var (t, w) := Around1(s, m, Forwarding(props), dynamic).value;
    var n := s.own[m];
    InstalledChain(s, t, w, m, Forwarding(props), dynamic);
    var k := t.cells[w].current.value;
    var u := SetProp(CallMethod(t, m).0, n, p, v);
    assert u.fns[w] == t.fns[w] && u.fns[k] == t.fns[k];
    ChainGet(u.fns, w, k, props, Some(n), p);
  }

  /** `around` with a single key returns that key's own `remove`. */
  lemma AroundOneKey(s: State, m: Key, factory: Factory, dynamic: bool)
    requires WellFormed(s)
    ensures Wrap.Around(s, [(m, factory)], dynamic) ==
              match Around1(s, m, factory, dynamic)
              case TypeError => (s, TypeError)
              case Ok((t, w)) => (t, Ok(Handle(w)))
  {
    InstallOne(s, m, factory, dynamic);
  }

  /** `InstallAll` over one pair is that pair's `around1`. */
  lemma InstallOne(s: State, m: Key, factory: Factory, dynamic: bool)
    requires WellFormed(s)
    ensures InstallAll(s, [(m, factory)], dynamic) ==
              match Around1(s, m, factory, dynamic)
              case TypeError => (s, TypeError)
              case Ok((t, w)) => (t, Ok([w]))
  {
    var pairs := [(m, factory)];
    assert pairs[..|pairs| - 1] == [];
    assert InstallAll(s, pairs, dynamic) == Extend(s, Ok([]), m, factory, dynamic);
    match Around1(s, m, factory, dynamic)
    case TypeError =>
    case Ok((t, w)) =>
      assert [] + [w] == [w];
  }

  /**
   * Two forwarding wrappers installed in turn on method `m`: the heap they
   * leave, the inner wrapper and the outer one.
   */
  function Stack(s: State, m: Key, p1: map<Key, Value>, p2: map<Key, Value>, dynamic: bool): (r: (State, FnId, FnId))
    requires WellFormed(s)
    ensures WellFormed(r.0) && |s.fns| < r.1 < r.2 && r.1 in r.0.cells && r.2 in r.0.cells
    ensures Lookup(r.0, m) == Some(r.2)
    ensures m in s.own ==> StackShape(s, r.0, r.1, r.2, m, p1, p2)
  {
    var (t1, w1) := Around1(s, m, Forwarding(p1), dynamic).value;
    var (t2, w2) := Around1(t1, m, Forwarding(p2), dynamic).value;
    assert m in s.own ==> StackShape(s, t2, w1, w2, m, p1, p2) by {
      if m in s.own {
        ForwardOverOwn(s, m, p1, dynamic);
        ForwardOverOwn(t1, m, p2, dynamic);
        ComposeShapes(s, t1, w1, t2, w2, m, p1, p2);
      }
    }
    (t2, w1, w2)
  }

  /**
   * The heap `Stack` leaves over an own method `n`: the outer wrapper holds the
   * slot; each wrapper links to its relay, each relay calls and links to what
   * its install captured (the original for the inner one, the inner wrapper for
   * the outer one); nothing older changed.
   */
  ghost predicate StackShape(s: State, t: State, w1: FnId, w2: FnId, m: Key, p1: map<Key, Value>, p2: map<Key, Value>) {
    && m in s.own && |s.fns| < w1 && w2 == w1 + 2 && |t.fns| == w2 + 1
    && var n := s.own[m];
    && t.own == s.own[m := w2] && t.proto == s.proto
    && (forall i :: 0 <= i < |s.fns| ==> t.fns[i] == s.fns[i])
    && t.fns[w1 - 1] == Fn(Relay(Some(n)), ToFn(n), p1)
    && t.fns[w1] == Fn(Wrapper, ToFn(w1 - 1), map[])
    && t.fns[w2 - 1] == Fn(Relay(Some(w1)), ToFn(w1), p2)
    && t.fns[w2] == Fn(Wrapper, ToFn(w2 - 1), map[])
    && t.cells == s.cells[w1 := Cell(m, Some(n), Some(n), true, Some(w1 - 1))]
                         [w2 := Cell(m, Some(w1), Some(w1), true, Some(w2 - 1))]
  }

  /**
   * One forwarding install over an own method: the relay is allocated right
   * after the old heap and the wrapper right after the relay.
   */
  ghost predicate OneShape(s: State, t: State, w: FnId, m: Key, p: map<Key, Value>) {
    && m in s.own && w == |s.fns| + 1 && |t.fns| == w + 1
    && var n := s.own[m];
    && t.own == s.own[m := w] && t.proto == s.proto
    && t.fns[..|s.fns|] == s.fns
    && t.fns[w - 1] == Fn(Relay(Some(n)), ToFn(n), p)
    && t.fns[w] == Fn(Wrapper, ToFn(w - 1), map[])
    && t.cells == s.cells[w := Cell(m, Some(n), Some(n), true, Some(w - 1))]
  }

  /** A forwarding install over an own method leaves `OneShape`. */
  lemma ForwardOverOwn(s: State, m: Key, p: map<Key, Value>, dynamic: bool)
    requires WellFormed(s) && m in s.own
    ensures var (t, w) := Around1(s, m, Forwarding(p), dynamic).value;
            OneShape(s, t, w, m, p)
  {
    var (t, w) := Around1(s, m, Forwarding(p), dynamic).value;
    assert Installed(s, t, w, m, Forwarding(p), dynamic);
  }

  /** Two such installs in turn leave `StackShape`. */
  lemma ComposeShapes(s: State, t1: State, w1: FnId, t2: State, w2: FnId, m: Key, p1: map<Key, Value>, p2: map<Key, Value>)
    requires OneShape(s, t1, w1, m, p1) && OneShape(t1, t2, w2, m, p2)
    ensures StackShape(s, t2, w1, w2, m, p1, p2)
  {
    assert t1.own[m := w2] == s.own[m := w2];
    forall i | 0 <= i < |t1.fns| ensures t2.fns[i] == t1.fns[i] {
      assert t2.fns[..|t1.fns|][i] == t1.fns[i];
    }
    forall i | 0 <= i < |s.fns| ensures t1.fns[i] == s.fns[i] {
      assert t1.fns[..|s.fns|][i] == s.fns[i];
    }
  }

  /**
   * A call through two stacked forwarding wrappers runs the outer wrapper and
   * its replacement, then the inner wrapper and its replacement, then the
   * original; nothing changes.
   */
  lemma StackedCalls(s: State, t: State, w1: FnId, w2: FnId, m: Key, p1: map<Key, Value>, p2: map<Key, Value>)
    requires WellFormed(s) && WellFormed(t) && StackShape(s, t, w1, w2, m, p1, p2) && s.fns[s.own[m]].kind.Native?
    ensures CallMethod(t, m) == (t, Outcome([w2, w2 - 1, w1, w1 - 1, s.own[m]], false))
  {
    var n := s.own[m];
    assert t.fns[n] == s.fns[n];
    var o0 := Outcome([n], false);
    assert Call(t, n) == (t, o0);
    var o1 := Outcome([w1 - 1] + o0.trace, false);
    assert Call(t, w1 - 1) == (t, o1);
    var o2 := Outcome([w1] + o1.trace, false);
    assert Call(t, w1) == (t, o2);
    var o3 := Outcome([w2 - 1] + o2.trace, false);
    assert Call(t, w2 - 1) == (t, o3);
    var o4 := Outcome([w2] + o3.trace, false);
    assert Call(t, w2) == (t, o4);
    assert o4.trace == [w2, w2 - 1, w1, w1 - 1, n];
  }

  /**
   * The stacked heap after `remove()` of the inner wrapper: the slot still
   * holds the outer wrapper, and the inner one is pass-through and linked
   * straight to the original.
   */
  ghost predicate InnerGone(s: State, u: State, w1: FnId, w2: FnId, m: Key, p2: map<Key, Value>) {
    && m in s.own && |s.fns| < w1 && w2 == w1 + 2 && |u.fns| == w2 + 1
    && var n := s.own[m];
    && u.own == s.own[m := w2] && u.proto == s.proto
    && (forall i :: 0 <= i < |s.fns| ==> u.fns[i] == s.fns[i])
    && u.fns[w1] == Fn(Wrapper, ToFn(n), map[])
    && u.fns[w2 - 1] == Fn(Relay(Some(w1)), ToFn(w1), p2)
    && u.fns[w2] == Fn(Wrapper, ToFn(w2 - 1), map[])
    && w1 in u.cells && u.cells[w1] == Cell(m, Some(n), Some(n), true, Some(n))
    && w2 in u.cells && u.cells[w2] == Cell(m, Some(w1), Some(w1), true, Some(w2 - 1))
  }

  /** `remove()` of the inner wrapper while the outer one holds the slot leaves `InnerGone`. */
  lemma RemoveInner(s: State, t: State, w1: FnId, w2: FnId, m: Key, p1: map<Key, Value>, p2: map<Key, Value>)
    requires WellFormed(s) && WellFormed(t) && StackShape(s, t, w1, w2, m, p1, p2)
    ensures InnerGone(s, Remove(t, w1), w1, w2, m, p2)
  {
    assert Lookup(t, m) == Some(w2);
  }

  /**
   * After the inner wrapper is removed beneath the outer one, a call skips the
   * inner replacement but still reaches the original through the inner
   * wrapper, which stays in place as a pass-through.
   */
  lemma InnerRemovedCalls(s: State, u: State, w1: FnId, w2: FnId, m: Key, p2: map<Key, Value>)
    requires WellFormed(s) && WellFormed(u) && InnerGone(s, u, w1, w2, m, p2) && s.fns[s.own[m]].kind.Native?
    ensures CallMethod(u, m) == (u, Outcome([w2, w2 - 1, w1, s.own[m]], false))
  {
    var n := s.own[m];
    var o0 := Outcome([n], false);
    assert Call(u, n) == (u, o0);
    var o1 := Outcome([w1] + o0.trace, false);
    assert Call(u, w1) == (u, o1);
    var o2 := Outcome([w2 - 1] + o1.trace, false);
    assert Call(u, w2 - 1) == (u, o2);
    var o3 := Outcome([w2] + o2.trace, false);
    assert Call(u, w2) == (u, o3);
    assert o3.trace == [w2, w2 - 1, w1, n];
  }

  /**
   * Removing the inner wrapper and then the outer one leaves the inner,
   * pass-through wrapper in the slot; its next call removes it, so the slot
   * holds the original again, and still reaches the original.
   */
  lemma SelfHealing(s: State, u: State, w1: FnId, w2: FnId, m: Key, p2: map<Key, Value>)
    requires WellFormed(s) && WellFormed(u) && InnerGone(s, u, w1, w2, m, p2) && s.fns[s.own[m]].kind.Native?
    ensures var v := Remove(u, w2);
            && Lookup(v, m) == Some(w1)
            && CallMethod(v, m).1 == Outcome([w1, s.own[m]], false)
            && CallMethod(v, m).0.own == s.own
  {
    RemoveOuter(s, u, w1, w2, m, p2);
    HealFrom(s, Remove(u, w2), w1, m);
  }

  /** Wrapper `w` holds slot `m`, is pass-through, and captured `m`'s own method `n`, still unchanged. */
  ghost predicate PassThroughHeld(s: State, v: State, w: FnId, m: Key) {
    && m in s.own && s.own[m] < |s.fns| && s.own[m] < |v.fns| && v.fns[s.own[m]] == s.fns[s.own[m]]
    && w in v.cells && v.own == s.own[m := w]
    && v.cells[w] == Cell(m, Some(s.own[m]), Some(s.own[m]), true, Some(s.own[m]))
  }

  /** Removing the outer wrapper after the inner one leaves the pass-through inner wrapper in the slot. */
  lemma RemoveOuter(s: State, u: State, w1: FnId, w2: FnId, m: Key, p2: map<Key, Value>)
    requires WellFormed(s) && WellFormed(u) && InnerGone(s, u, w1, w2, m, p2)
    ensures PassThroughHeld(s, Remove(u, w2), w1, m)
  {
    var n := s.own[m];
    var v := Remove(u, w2);
    assert Lookup(u, m) == Some(w2);
    assert v.own == s.own[m := w1] by {
      assert u.own[m := w1] == s.own[m := w1];
    }
    assert v.cells[w1] == u.cells[w1] && v.fns[n] == u.fns[n] == s.fns[n];
  }

  /** The next call of a pass-through wrapper left in its slot goes to the captured method and restores the slot. */
  lemma HealFrom(s: State, v: State, w: FnId, m: Key)
    requires WellFormed(s) && WellFormed(v) && PassThroughHeld(s, v, w, m) && s.fns[s.own[m]].kind.Native?
    ensures Lookup(v, m) == Some(w)
    ensures CallMethod(v, m).1 == Outcome([w, s.own[m]], false) && CallMethod(v, m).0.own == s.own
  {
    var n := s.own[m];
    SelfDetach(v, w, n);
    assert Remove(v, w).own == s.own by {
      assert s.own[m := w][m := n] == s.own;
    }
  }

  /**
   * A pass-through wrapper that is still the direct value of its slot removes
   * itself when called, then calls what it captured.
   */
  lemma SelfDetach(v: State, w: FnId, n: FnId)
    requires WellFormed(v) && w in v.cells && n < |v.fns| && v.fns[n].kind.Native?
    requires v.cells[w].current == v.cells[w].original == Some(n) && Lookup(v, v.cells[w].name) == Some(w)
    ensures Call(v, w) == (Remove(v, w), Outcome([w, n], false))
  {
    var x := Remove(v, w);
    assert v.fns[w].kind == Wrapper && x.fns == v.fns;
    assert Call(x, n) == (x, Outcome([n], false));
    assert [w] + [n] == [w, n];
  }

  /** Removing the outer wrapper first, then the inner one, restores the slot. */
  lemma ReverseRemoval(s: State, t: State, w1: FnId, w2: FnId, m: Key, p1: map<Key, Value>, p2: map<Key, Value>)
    requires WellFormed(s) && WellFormed(t) && StackShape(s, t, w1, w2, m, p1, p2)
    ensures Remove(Remove(t, w2), w1).own == s.own
  {
    var n := s.own[m];
    var y := Remove(t, w2);
    assert Lookup(t, m) == Some(w2);
    assert y.own == s.own[m := w1] by {
      assert t.own[m := w1] == s.own[m := w1];
    }
    assert y.cells[w1] == t.cells[w1];
    assert Lookup(y, m) == Some(w1);
    assert s.own[m := w1][m := n] == s.own;
  }

  /** A property the inner replacement carries shows through the outer wrapper. */
  lemma StackedProps(s: State, t: State, w1: FnId, w2: FnId, m: Key, p1: map<Key, Value>, p2: map<Key, Value>, p: Key)
    requires WellFormed(s) && WellFormed(t) && StackShape(s, t, w1, w2, m, p1, p2) && p in p1 && p !in p2
    ensures Get(t.fns, w2, p) == Some(p1[p])
  {
    assert Get(t.fns, w1 - 1, p) == Some(p1[p]);
    assert Get(t.fns, w1, p) == Some(p1[p]);
    assert Get(t.fns, w2 - 1, p) == Some(p1[p]);
  }

  /**
   * Once the inner wrapper is removed, the outer wrapper no longer shows the
   * inner replacement's properties: past its own replacement it shows the
   * original's.
   */
  lemma InnerGoneProps(s: State, u: State, w1: FnId, w2: FnId, m: Key, p2: map<Key, Value>, p: Key)
    requires WellFormed(s) && WellFormed(u) && InnerGone(s, u, w1, w2, m, p2) && p !in p2
    ensures Get(u.fns, w2, p) == Get(s.fns, s.own[m], p)
  {
    var n := s.own[m];
    GetAgrees(u.fns, s.fns, n, p);
    assert Get(u.fns, w1, p) == Get(s.fns, n, p);
    assert Get(u.fns, w2 - 1, p) == Get(s.fns, n, p);
  }

  /** The keys of `pairs` from position `j` on. */
  function KeysFrom(pairs: seq<(Key, Factory)>, j: nat): set<Key> {
    set i | j <= i < |pairs| :: pairs[i].0
  }

  /** The keys of an object are distinct, so those `around` gets from `Object.keys` are. */
  predicate DistinctKeys(pairs: seq<(Key, Factory)>) {
    forall i, j :: 0 <= i < j < |pairs| ==> pairs[i].0 != pairs[j].0
  }

  /** Slot `k` is the same (held or not, and by the same function) in both maps. */
  predicate AgreeOn(a: map<Key, FnId>, b: map<Key, FnId>, k: Key) {
    (k in a <==> k in b) && (k in a ==> a[k] == b[k])
  }

  /** Wrapper `w` holds slot `m` of `t`, and its closure remembers what `m` was in `s`. */
  ghost predicate Holding(s: State, t: State, m: Key, w: FnId) {
    && |s.fns| <= w && w in t.cells && m in t.own && t.own[m] == w
    && t.cells[w].name == m && t.cells[w].hadOwn == (m in s.own)
    && (m in s.own ==> t.cells[w].original == Some(s.own[m]))
  }

  /** After installing `pairs` on `s` with handles `hs`: each key held by its wrapper, every other slot as in `s`. */
  ghost predicate Took(s: State, t: State, pairs: seq<(Key, Factory)>, hs: seq<FnId>) {
    && |hs| == |pairs| && t.proto == s.proto && |s.fns| <= |t.fns|
    && (forall i :: 0 <= i < |hs| ==> Holding(s, t, pairs[i].0, hs[i]))
    && (forall k :: k !in KeysFrom(pairs, 0) ==> AgreeOn(t.own, s.own, k))
  }

  /** One more install, on a key not installed yet, extends `Took` by its wrapper. */
  lemma TookStep(s: State, t1: State, front: seq<(Key, Factory)>, hs: seq<FnId>,
                  t2: State, w: FnId, m: Key, factory: Factory, dynamic: bool)
    requires WellFormed(t1) && Took(s, t1, front, hs) && m !in KeysFrom(front, 0)
    requires Installed(t1, t2, w, m, factory, dynamic)
    ensures Took(s, t2, front + [(m, factory)], hs + [w])
  {
    var pairs := front + [(m, factory)];
    var n := |front|;
    assert AgreeOn(t1.own, s.own, m);
    forall k | k !in KeysFrom(pairs, 0) ensures AgreeOn(t2.own, s.own, k) {
      assert k != m && k !in KeysFrom(front, 0) by {
        assert pairs[n].0 == m;
        assert forall i :: 0 <= i < n ==> pairs[i] == front[i];
      }
    }
    forall i | 0 <= i < n + 1 ensures Holding(s, t2, pairs[i].0, (hs + [w])[i]) {
      if i < n {
        assert pairs[i] == front[i] && (hs + [w])[i] == hs[i] && Holding(s, t1, front[i].0, hs[i]);
        assert front[i].0 in KeysFrom(front, 0);
      }
    }
  }

  /** The last key of distinct keys is not among the others, which are distinct too. */
  lemma LastKeyFresh(pairs: seq<(Key, Factory)>)
    requires DistinctKeys(pairs) && pairs != []
    ensures var n := |pairs| - 1;
            pairs[n].0 !in KeysFrom(pairs[..n], 0) && DistinctKeys(pairs[..n]) && pairs == pairs[..n] + [pairs[n]]
  {
    var n := |pairs| - 1;
    assert forall i :: 0 <= i < n ==> pairs[..n][i] == pairs[i];
  }

  /** Installing distinct keys leaves each key held by its own wrapper and every other slot as it was. */
  lemma {:induction false} InstallAllTakes(s: State, pairs: seq<(Key, Factory)>, dynamic: bool)
    requires WellFormed(s) && DistinctKeys(pairs) && InstallAll(s, pairs, dynamic).1.Ok?
    ensures Took(s, InstallAll(s, pairs, dynamic).0, pairs, InstallAll(s, pairs, dynamic).1.value)
    decreases |pairs|
  {
    if pairs != [] {
      var n := |pairs| - 1;
      LastKeyFresh(pairs);
      InstallAllLast(s, pairs, dynamic);
      InstallAllTakes(s, pairs[..n], dynamic);
      var (t1, hs1) := InstallAll(s, pairs[..n], dynamic);
      var (t, hs) := InstallAll(s, pairs, dynamic);
      var w := hs.value[|hs.value| - 1];
      TookStep(s, t1, pairs[..n], hs1.value, t, w, pairs[n].0, pairs[n].1, dynamic);
    }
  }

  /**
   * After the first `j` handles of `hs` ran: the later keys are still held by
   * their wrappers, and every other slot (the earlier keys included) is as in `s`.
   */
  ghost predicate Restoring(s: State, r: State, pairs: seq<(Key, Factory)>, hs: seq<FnId>, j: nat) {
    && |hs| == |pairs| && j <= |hs| && r.proto == s.proto
    && (forall i :: 0 <= i < j ==> Spent(s, r, hs[i]))
    && (forall i :: j <= i < |hs| ==> Holding(s, r, pairs[i].0, hs[i]))
    && (forall k :: k !in KeysFrom(pairs, j) ==> AgreeOn(r.own, s.own, k))
  }

  /** Wrapper `w`, newer than `s`, has run its `remove`: it is pass-through. */
  ghost predicate Spent(s: State, r: State, w: FnId) {
    |s.fns| <= w && w in r.cells && r.cells[w].current == r.cells[w].original
  }

  /** Running the handle at `j` moves the restoring invariant from `j` to `j + 1`. */
  lemma RestoringStep(s: State, r: State, pairs: seq<(Key, Factory)>, hs: seq<FnId>, j: nat)
    requires WellFormed(r) && DistinctKeys(pairs) && Restoring(s, r, pairs, hs, j) && j < |hs|
    ensures hs[j] in r.cells && Restoring(s, Remove(r, hs[j]), pairs, hs, j + 1)
  {
    assert Holding(s, r, pairs[j].0, hs[j]);
    HeldStep(s, r, pairs, hs, j);
    SpentStep(s, r, hs, j);
  }

  /** The slots side of a step: the key at `j` is restored, the later keys still held. */
  lemma HeldStep(s: State, r: State, pairs: seq<(Key, Factory)>, hs: seq<FnId>, j: nat)
    requires WellFormed(r) && DistinctKeys(pairs) && Restoring(s, r, pairs, hs, j) && j < |hs|
    requires hs[j] in r.cells
    ensures forall i :: j + 1 <= i < |hs| ==> Holding(s, Remove(r, hs[j]), pairs[i].0, hs[i])
    ensures forall k :: k !in KeysFrom(pairs, j + 1) ==> AgreeOn(Remove(r, hs[j]).own, s.own, k)
  {
    var m, w := pairs[j].0, hs[j];
    assert Holding(s, r, m, w);
    assert Lookup(r, m) == Some(w);
    var r2 := Remove(r, w);
    assert r2.own == Restored(r.own, r.cells[w]);
    LaterStillHeld(s, r, r2, pairs, hs, j);
    assert KeysFrom(pairs, j) == {m} + KeysFrom(pairs, j + 1);
    forall k | k !in KeysFrom(pairs, j + 1) ensures AgreeOn(r2.own, s.own, k) {
      if k != m {
        assert AgreeOn(r.own, s.own, k);
      }
    }
  }

  /** Restoring the key at `j` leaves every later key held by its own wrapper. */
  lemma LaterStillHeld(s: State, r: State, r2: State, pairs: seq<(Key, Factory)>, hs: seq<FnId>, j: nat)
    requires DistinctKeys(pairs) && Restoring(s, r, pairs, hs, j) && j < |hs|
    requires hs[j] in r.cells && r.cells[hs[j]].name == pairs[j].0
    requires r.cells[hs[j]].hadOwn ==> r.cells[hs[j]].original.Some?
    requires r2.own == Restored(r.own, r.cells[hs[j]])
    requires forall v :: v in r.cells && v != hs[j] ==> v in r2.cells && r2.cells[v] == r.cells[v]
    requires hs[j] in r2.cells
    ensures forall i :: j + 1 <= i < |hs| ==> Holding(s, r2, pairs[i].0, hs[i])
  {
    forall i | j + 1 <= i < |hs| ensures Holding(s, r2, pairs[i].0, hs[i]) {
      assert Holding(s, r, pairs[i].0, hs[i]) && pairs[i].0 != pairs[j].0;
    }
  }

  /** The wrappers side of a step: the handle at `j` joins the spent ones. */
  lemma SpentStep(s: State, r: State, hs: seq<FnId>, j: nat)
    requires WellFormed(r) && j < |hs| && hs[j] in r.cells && |s.fns| <= hs[j]
    requires forall i :: 0 <= i < j ==> Spent(s, r, hs[i])
    ensures forall i :: 0 <= i < j + 1 ==> Spent(s, Remove(r, hs[j]), hs[i])
  {
    forall i | 0 <= i < j + 1 ensures Spent(s, Remove(r, hs[j]), hs[i]) {
      if i < j {
        StaysSpent(s, r, hs[j], hs[i]);
      }
    }
  }

  /** Running any handle keeps a spent wrapper spent. */
  lemma StaysSpent(s: State, r: State, w: FnId, v: FnId)
    requires WellFormed(r) && w in r.cells && Spent(s, r, v)
    ensures Spent(s, Remove(r, w), v)
  {
  }

  /** Before any handle ran, restoring is taking. */
  lemma TookRestoring(s: State, t: State, pairs: seq<(Key, Factory)>, hs: seq<FnId>)
    requires Took(s, t, pairs, hs)
    ensures forall i :: 0 <= i < |hs| ==> hs[i] in t.cells
    ensures Restoring(s, t, pairs, hs, 0)
  {
    assert forall i :: 0 <= i < |hs| ==> Holding(s, t, pairs[i].0, hs[i]);
  }

  /** Running the handles `ws`, a prefix of `hs`, keeps the restoring invariant at `|ws|`. */
  lemma {:induction false} RemoveAllRestoring(s: State, t: State, pairs: seq<(Key, Factory)>, hs: seq<FnId>, ws: seq<FnId>)
    requires WellFormed(t) && DistinctKeys(pairs) && |ws| <= |hs| && ws == hs[..|ws|]
    requires forall i :: 0 <= i < |ws| ==> ws[i] in t.cells
    requires Restoring(s, t, pairs, hs, 0)
    ensures Restoring(s, RemoveAll(t, ws), pairs, hs, |ws|)
    decreases |ws|
  {
    if ws != [] {
      var n := |ws| - 1;
      assert ws[..n] == hs[..n];
      RemoveAllRestoring(s, t, pairs, hs, ws[..n]);
      RestoringStep(s, RemoveAll(t, ws[..n]), pairs, hs, n);
    }
  }

  /** Two maps that agree on every slot are equal. */
  lemma AgreeEverywhere(a: map<Key, FnId>, b: map<Key, FnId>)
    requires forall k :: AgreeOn(a, b, k)
    ensures a == b
  {
    forall k ensures (k in a <==> k in b) && (k in a ==> a[k] == b[k]) {
      assert AgreeOn(a, b, k);
    }
  }

  /** Running every handle of a distinct-key install, first to last, restores every slot. */
  lemma RemoveAllRestores(s: State, t: State, pairs: seq<(Key, Factory)>, hs: seq<FnId>)
    requires WellFormed(t) && DistinctKeys(pairs) && Took(s, t, pairs, hs)
    ensures forall i :: 0 <= i < |hs| ==> hs[i] in t.cells
    ensures RemoveAll(t, hs).own == s.own && RemoveAll(t, hs).proto == s.proto
    ensures forall i :: 0 <= i < |hs| ==> Spent(s, RemoveAll(t, hs), hs[i])
  {
    TookRestoring(s, t, pairs, hs);
    assert hs[..|hs|] == hs;
    RemoveAllRestoring(s, t, pairs, hs, hs);
    var r := RemoveAll(t, hs);
    assert KeysFrom(pairs, |pairs|) == {};
    AgreeEverywhere(r.own, s.own);
  }

  /**
   * Running the remover `around` returned puts every slot of the object back
   * as it was before: own methods restored, slots that were not own removed.
   */
  lemma AroundRestores(s: State, pairs: seq<(Key, Factory)>, dynamic: bool)
    requires WellFormed(s) && DistinctKeys(pairs) && Wrap.Around(s, pairs, dynamic).1.Ok?
    ensures var (t, rm) := Wrap.Around(s, pairs, dynamic);
            RunRemover(t, rm.value).own == s.own
  {
    var (t, hs) := InstallAll(s, pairs, dynamic);
    InstallAllTakes(s, pairs, dynamic);
    var ws := hs.value;
    RemoveAllRestores(s, t, pairs, ws);
    if |ws| == 1 {
      assert ws[..0] == [];
      assert RemoveAll(t, ws) == Remove(t, ws[0]);
    }
  }

  /** A handle whose wrapper is pass-through and no longer in its slot: running it changes nothing. */
  lemma RemoveSpentNoop(x: State, w: FnId)
    requires WellFormed(x) && w in x.cells && x.cells[w].current == x.cells[w].original
    requires Lookup(x, x.cells[w].name) != Some(w)
    ensures Remove(x, w) == x
  {
    var r := Remove(x, w);
    assert r.own == x.own && r.fns == x.fns && r.cells == x.cells && r.proto == x.proto;
  }

  /** A wrapper newer than `s` is in no slot while the slots are those of `s`. */
  lemma SpentNotInSlot(s: State, x: State, w: FnId)
    requires WellFormed(s) && x.own == s.own && x.proto == s.proto && Spent(s, x, w)
    ensures Lookup(x, x.cells[w].name) != Some(w)
  {
    LookupShadows(s, x.cells[w].name);
  }

  /** Once every slot is back as in `s`, running handles that already ran changes nothing. */
  lemma {:induction false} RemoveAllSpentNoop(s: State, x: State, ws: seq<FnId>)
    requires WellFormed(s) && WellFormed(x) && x.own == s.own && x.proto == s.proto
    requires forall i :: 0 <= i < |ws| ==> Spent(s, x, ws[i])
    ensures forall i :: 0 <= i < |ws| ==> ws[i] in x.cells
    ensures RemoveAll(x, ws) == x
    decreases |ws|
  {
    assert forall i :: 0 <= i < |ws| ==> Spent(s, x, ws[i]);
    if ws != [] {
      var n := |ws| - 1;
      assert forall i :: 0 <= i < n ==> ws[..n][i] == ws[i];
      RemoveAllSpentNoop(s, x, ws[..n]);
      var w := ws[n];
      assert RemoveAll(x, ws) == Remove(RemoveAll(x, ws[..n]), w);
      assert Spent(s, x, w);
      SpentNotInSlot(s, x, w);
      RemoveSpentNoop(x, w);
    }
  }

  /** The remover built from the handles of a distinct-key install does nothing when run a second time. */
  lemma RerunNoop(s: State, t: State, pairs: seq<(Key, Factory)>, hs: seq<FnId>, rm: Remover)
    requires WellFormed(s) && WellFormed(t) && DistinctKeys(pairs) && Took(s, t, pairs, hs)
    requires rm == (if |hs| == 1 then Handle(hs[0]) else Fused(hs))
    ensures Holds(t, rm) && Holds(RunRemover(t, rm), rm)
    ensures RunRemover(RunRemover(t, rm), rm) == RunRemover(t, rm)
  {
    RemoveAllRestores(s, t, pairs, hs);
    var r := RemoveAll(t, hs);
    RemoveAllSpentNoop(s, r, hs);
    if |hs| == 1 {
      assert hs[..0] == [];
      assert r == Remove(t, hs[0]);
      assert RemoveAll(r, hs) == Remove(r, hs[0]);
    }
  }

  /**
   * Running the remover `around` returned a second time changes nothing: each
   * handle finds its wrapper pass-through and out of its slot.
   */
  lemma RemoverIdempotent(s: State, pairs: seq<(Key, Factory)>, dynamic: bool)
    requires WellFormed(s) && DistinctKeys(pairs) && Wrap.Around(s, pairs, dynamic).1.Ok?
    ensures var (t, rm) := Wrap.Around(s, pairs, dynamic);
            Holds(RunRemover(t, rm.value), rm.value) &&
            RunRemover(RunRemover(t, rm.value), rm.value) == RunRemover(t, rm.value)
  {
    var (t, hs) := InstallAll(s, pairs, dynamic);
    InstallAllTakes(s, pairs, dynamic);
    RerunNoop(s, t, pairs, hs.value, Wrap.Around(s, pairs, dynamic).1.value);
  }
}
