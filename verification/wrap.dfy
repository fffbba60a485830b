/**
 * The wrapping protocol as state transitions of the heap: `around1` (install),
 * its `remove` handle, calling any function (the installed `wrapper` included),
 * and `around`, which installs one wrapper per key and fuses the handles.
 *
 * `dynamic` selects the variant: false is the build that captures `obj[method]`
 * as `original`; true is the build that, for a method that is not own, gives the
 * factory a shim that looks the method up on the prototype at every call.
 */
module Wrap {
  import opened Heap
  import Guard

  /**
   * The factories the model covers: `f => f`, and one that returns a fresh
   * function calling `f` and carrying the given properties
   * (`f => { g.thingy = 42; return g; function g() { return f(); } }`).
   */
  datatype Factory = Identity | Forwarding(props: map<Key, Value>)

  /** The properties a factory puts on its result. */
  function Statics(factory: Factory): map<Key, Value> {
    match factory
    case Identity => map[]
    case Forwarding(props) => props
  }

  /** Normal completion, or the TypeError the JavaScript runtime throws. */
  datatype Result<T> = Ok(value: T) | TypeError

  /** The functions a call entered, in order, and whether it ended in a TypeError. */
  datatype Outcome = Outcome(trace: seq<FnId>, threw: bool)

  /** What `around` returns: one install's own `remove`, or the function that runs several. */
  datatype Remover = Handle(w: FnId) | Fused(handles: seq<FnId>)

  /** The link a removed wrapper takes: the captured value, or `Function` when there was none. */
  function Relink(c: Cell): (r: Link)
    ensures r != FunctionProto
    ensures r.ToFn? <==> c.inherited.Some?
    ensures r.ToFn? ==> c.inherited == Some(r.target)
  {
    if c.inherited.Some? then ToFn(c.inherited.value) else FunctionCtor
  }

  /** The slots `remove` leaves when its wrapper is the direct value: the own value put back, or none. */
  function Restored(own: map<Key, FnId>, c: Cell): (r: map<Key, FnId>)
    requires c.hadOwn ==> c.original.Some?
    ensures c.name in r <==> c.hadOwn
    ensures c.hadOwn ==> r[c.name] == c.original.value
    ensures forall k :: k != c.name ==> (k in r <==> k in own) && (k in r ==> r[k] == own[k])
  {
    if c.hadOwn then own[c.name := c.original.value] else own - {c.name}
  }

  /**
   * `around1(obj, m, factory)`. Fails with a TypeError exactly where
   * `Object.setPrototypeOf` throws: on `f => f` the factory's result is the
   * captured method itself (a cyclic prototype) or `undefined`; this happens
   * unless the dynamic variant gave it a fresh shim. A failed install changes
   * nothing.
   */
  function Around1(s: State, m: Key, factory: Factory, dynamic: bool): (r: Result<(State, FnId)>)
    requires WellFormed(s)
    ensures r.TypeError? <==> factory.Identity? && (!dynamic || m in s.own)
    ensures r.Ok? ==> WellFormed(r.value.0) && Installed(s, r.value.0, r.value.1, m, factory, dynamic)
  {
    var inherited := Lookup(s, m);
    var (s1, original) := Capture(s, m, dynamic);
    var (s2, current) := Produce(s1, factory, original);
    assert Below(inherited, |s.fns|) && |s.fns| <= |s1.fns| <= |s2.fns|;
    assert current.Some? && |s.fns| <= current.value < |s2.fns| <==> !(factory.Identity? && (!dynamic || m in s.own));
    if current.None? || current == inherited then TypeError
    else
      var c := Cell(m, inherited, original, m in s.own, current);
      var r := Commit(s2, c);
      assert Installed(s, r.0, r.1, m, factory, dynamic) by {
        StagedByCapture(s, s1, s2, c, factory, dynamic);
        CommitInstalls(s, s2, c, factory, dynamic);
      }
      Ok(r)
  }

  /**
   * `original`: the captured `obj[m]`, or, in the dynamic variant when `m` is
   * not own, a fresh shim that calls the prototype's `m`. Capturing only ever
   * allocates, and allocates exactly in that case.
   */
  function Capture(s: State, m: Key, dynamic: bool): (r: (State, Option<FnId>))
    requires WellFormed(s)
    ensures WellFormed(r.0) && r.0.own == s.own && r.0.proto == s.proto && r.0.cells == s.cells
    ensures |s.fns| <= |r.0.fns| <= |s.fns| + 1 && r.0.fns[..|s.fns|] == s.fns && Below(r.1, |r.0.fns|)
    ensures m in s.own ==> r.1 == Some(s.own[m]) && r.0 == s
    ensures r.1.None? ==> !dynamic && m !in s.own && m !in s.proto
    ensures r.1.Some? && |s.fns| <= r.1.value ==> dynamic && r.0.fns[r.1.value] == Fn(Shim(m), FunctionProto, map[])
    ensures dynamic && m !in s.own ==> r.1 == Some(|s.fns|) && |r.0.fns| == |s.fns| + 1
    ensures !(dynamic && m !in s.own) ==> r == (s, Lookup(s, m))
  {
    if dynamic && m !in s.own then (Alloc(s, Fn(Shim(m), FunctionProto, map[])), Some(|s.fns| as FnId))
    else (s, Lookup(s, m))
  }

  /**
   * `createWrapper(original)`: the factory's result. Only `f => f` hands back
   * its argument; the other factory allocates a relay to `original` that
   * carries the factory's properties.
   */
  function Produce(s: State, factory: Factory, original: Option<FnId>): (r: (State, Option<FnId>))
    requires WellFormed(s) && Below(original, |s.fns|)
    ensures WellFormed(r.0) && r.0.own == s.own && r.0.proto == s.proto && r.0.cells == s.cells
    ensures |s.fns| <= |r.0.fns| <= |s.fns| + 1 && r.0.fns[..|s.fns|] == s.fns && Below(r.1, |r.0.fns|)
    ensures r.1 == original <==> factory.Identity?
    ensures r.1.Some? && |s.fns| <= r.1.value ==> r.0.fns[r.1.value] == Fn(Relay(original), FunctionProto, Statics(factory))
    ensures factory.Forwarding? ==> |r.0.fns| == |s.fns| + 1 && r.1 == Some(|s.fns|)
  {
    match factory
    case Identity => (s, original)
    case Forwarding(props) => (Alloc(s, Fn(Relay(original), FunctionProto, props)), Some(|s.fns| as FnId))
  }

  /**
   * `if (inherited) Object.setPrototypeOf(current, inherited)`,
   * `Object.setPrototypeOf(wrapper, current)`, `obj[m] = wrapper`.
   */
  function Commit(s: State, c: Cell): (r: (State, FnId))
    requires WellFormed(s) && c.current.Some? && c.current.value < |s.fns|
    requires Below(c.inherited, c.current.value) && CellBelow(c, |s.fns|)
    ensures WellFormed(r.0) && r.1 == |s.fns| && |r.0.fns| == r.1 + 1
    ensures forall i :: 0 <= i < |s.fns| && i != c.current.value ==> r.0.fns[i] == s.fns[i]
    ensures r.0.fns[c.current.value].kind == s.fns[c.current.value].kind
    ensures r.0.fns[c.current.value].props == s.fns[c.current.value].props
    ensures c.inherited.Some? ==> r.0.fns[c.current.value].link == ToFn(c.inherited.value)
    ensures c.inherited.None? ==> r.0.fns[c.current.value].link == s.fns[c.current.value].link
    ensures r.0.fns[r.1] == Fn(Wrapper, ToFn(c.current.value), map[])
    ensures r.0.fns == (if c.inherited.Some? then s.fns[c.current.value := s.fns[c.current.value].(link := ToFn(c.inherited.value))]
                        else s.fns) + [Fn(Wrapper, ToFn(c.current.value), map[])]
    ensures r.0.own == s.own[c.name := r.1] && r.0.proto == s.proto && r.0.cells == s.cells[r.1 := c]
  {
    var k := c.current.value;
    var s3 := if c.inherited.Some? then SetLink(s, k, ToFn(c.inherited.value)) else s;
    var w := |s3.fns|;
    var s4 := AddWrapper(s3, k, c);
    assert forall i :: 0 <= i < w ==> s4.fns[i] == s3.fns[i];
    (SetOwn(s4, c.name, w), w)
  }

  /** What `Capture` and `Produce` hand to `Commit`, stated against the heap before the install. */
  ghost predicate Staged(s: State, s2: State, c: Cell, factory: Factory, dynamic: bool) {
    && c.current.Some? && |s.fns| <= c.current.value < |s2.fns|
    && (forall i :: 0 <= i < |s.fns| ==> s2.fns[i] == s.fns[i])
    && s2.own == s.own && s2.proto == s.proto && s2.cells == s.cells
    && ClosureOf(s, c, dynamic)
    && (dynamic && !c.hadOwn ==> s2.fns[|s.fns|].kind == Shim(c.name) && s2.fns[|s.fns|].props == map[])
    && Produced(s2, c, factory)
    && (factory.Forwarding? ==> c.current == Some(|s2.fns| - 1))
    && s2.fns[c.current.value].link == FunctionProto
    && CellBelow(c, |s2.fns|)
  }

  /** `Capture` then `Produce` give `Commit` what `Staged` describes. */
  lemma StagedByCapture(s: State, s1: State, s2: State, c: Cell, factory: Factory, dynamic: bool)
    requires WellFormed(s)
    requires Capture(s, c.name, dynamic) == (s1, c.original)
    requires Produce(s1, factory, c.original) == (s2, c.current)
    requires c.inherited == Lookup(s, c.name) && c.hadOwn == (c.name in s.own)
    requires c.current.Some? && c.current != c.inherited
    ensures Staged(s, s2, c, factory, dynamic)
  {
    var n := |s.fns|;
    if dynamic && c.name !in s.own {
      assert s1.fns[..n] == s.fns && |s1.fns| == n + 1 && s1.fns[n] == Fn(Shim(c.name), FunctionProto, map[]);
    } else {
      assert s1 == s;
    }
    assert forall i :: 0 <= i < n ==> s1.fns[i] == s.fns[i];
    match factory {
      case Identity =>
        assert s2 == s1;
      case Forwarding(props) =>
        assert s2.fns[..|s1.fns|] == s1.fns && c.current == Some(|s1.fns|);
        assert forall i :: 0 <= i < |s1.fns| ==> s2.fns[i] == s1.fns[i];
    }
  }

  /** Committing a staged closure leaves what `Installed` describes. */
  lemma CommitInstalls(s: State, s2: State, c: Cell, factory: Factory, dynamic: bool)
    requires WellFormed(s) && WellFormed(s2)
    requires Staged(s, s2, c, factory, dynamic)
    ensures Below(c.inherited, c.current.value)
    ensures Installed(s, Commit(s2, c).0, Commit(s2, c).1, c.name, factory, dynamic)
  {
    var n := |s.fns|;
    var (t, w) := Commit(s2, c);
    assert SlotTaken(s, t, w, c.name) by {
      assert forall i :: 0 <= i < n ==> t.fns[i] == s.fns[i];
    }
  }

  /**
   * What a successful install leaves: the fresh wrapper `w` is the slot's
   * direct value and no other slot changed, and the older functions are
   * unchanged except that the factory's result (a fresh relay that calls
   * `original`, or `original` itself) links to the captured value; `w`'s
   * closure records what `obj[m]` was, whether it was own, and which
   * `original` the factory got; the wrapper links to `current`.
   */
  ghost predicate Installed(s: State, t: State, w: FnId, m: Key, factory: Factory, dynamic: bool) {
    && SlotTaken(s, t, w, m)
    && var c := t.cells[w];
    && c.name == m && ClosureOf(s, c, dynamic)
    && (dynamic && m !in s.own ==> t.fns[|s.fns|].kind == Shim(m) && t.fns[|s.fns|].props == map[])
    && (factory.Forwarding? ==> c.current == Some(w - 1))
    && c.current.Some? && |s.fns| <= c.current.value < w
    && t.fns[w] == Fn(Wrapper, ToFn(c.current.value), map[])
    && t.fns[c.current.value].link == (if c.inherited.Some? then ToFn(c.inherited.value) else FunctionProto)
    && Produced(t, c, factory)
  }

  /** The wrapper `w` took slot `m`; nothing else existing changed but links. */
  ghost predicate SlotTaken(s: State, t: State, w: FnId, m: Key) {
    && |s.fns| <= w && |t.fns| == w + 1 && w in t.cells
    && t.own == s.own[m := w] && t.proto == s.proto
    && t.cells == s.cells[w := t.cells[w]]
    && t.fns[..|s.fns|] == s.fns
  }

  /** The closure captured `obj[m]`, its ownness, and the `original` the variant gives the factory. */
  ghost predicate ClosureOf(s: State, c: Cell, dynamic: bool) {
    && c.inherited == Lookup(s, c.name) && c.hadOwn == (c.name in s.own)
    && (if dynamic && !c.hadOwn then c.original == Some(|s.fns|) else c.original == c.inherited)
  }

  /** `current` is `original` itself, or a fresh relay calling `original` and carrying the factory's props. */
  ghost predicate Produced(t: State, c: Cell, factory: Factory) {
    match factory
    case Identity => c.current == c.original
    case Forwarding(props) =>
      c.current.Some? && c.current.value < |t.fns| &&
      t.fns[c.current.value].kind == Relay(c.original) && t.fns[c.current.value].props == props
  }

  /**
   * `remove()`: first puts the slot back if the wrapper is its direct value;
   * then, unless the wrapper is already a pass-through, makes it one
   * (`current := original`) and relinks it to the captured value or
   * `Function`, past its replacement.
   */
  function Remove(s: State, w: FnId): (r: State)
    requires WellFormed(s) && w in s.cells
    ensures WellFormed(r) && |r.fns| == |s.fns| && r.proto == s.proto && r.cells.Keys == s.cells.Keys
    ensures r.cells[w] == s.cells[w].(current := s.cells[w].original)
    ensures Lookup(r, s.cells[w].name) != Some(w)
    ensures Lookup(s, s.cells[w].name) == Some(w) ==> r.own == Restored(s.own, s.cells[w])
    ensures Lookup(s, s.cells[w].name) != Some(w) ==> r.own == s.own
    ensures forall i :: 0 <= i < |s.fns| && i != w ==> r.fns[i] == s.fns[i]
    ensures forall v :: v in s.cells && v != w ==> r.cells[v] == s.cells[v]
    ensures s.cells[w].current == s.cells[w].original ==> r.fns == s.fns && r.cells == s.cells
    ensures s.cells[w].current != s.cells[w].original ==> r.fns[w] == s.fns[w].(link := Relink(s.cells[w]))
  {
    var c := s.cells[w];
    var s1 := Detach(s, w);
    if c.current == c.original then s1
    else SetLink(SetCurrent(s1, w, c.original), w, Relink(c))
  }

  /** The first step of `remove()`: the slot is put back only if `w` is its direct value. */
  function Detach(s: State, w: FnId): (r: State)
    requires WellFormed(s) && w in s.cells
    ensures WellFormed(r) && r.fns == s.fns && r.proto == s.proto && r.cells == s.cells
    ensures Lookup(r, s.cells[w].name) != Some(w)
    ensures Lookup(s, s.cells[w].name) == Some(w) ==> r.own == Restored(s.own, s.cells[w])
    ensures Lookup(s, s.cells[w].name) != Some(w) ==> r.own == s.own
  {
    var c := s.cells[w];
    if Lookup(s, c.name) != Some(w) then s
    else if c.hadOwn then SetOwn(s, c.name, c.original.value)
    else DeleteOwn(s, c.name)
  }

  /**
   * Calls function `f`. A wrapper that is pass-through and still the direct
   * slot value first removes itself; then it forwards to `current`. A call
   * changes nothing but own slots, and never adds one.
   */
  function Call(s: State, f: FnId): (r: (State, Outcome))
    requires WellFormed(s) && f < |s.fns|
    ensures WellFormed(r.0) && r.0.fns == s.fns && r.0.cells == s.cells && r.0.proto == s.proto
    ensures r.0.own.Keys <= s.own.Keys
    ensures |r.1.trace| > 0 && r.1.trace[0] == f
    decreases f
  {
    assert FnOk(s, f);
    match s.fns[f].kind
    case Native => (s, Outcome([f], false))
    case Relay(next) =>
      if next.None? then (s, Outcome([f], true))
      else
        var (t, o) := Call(s, next.value);
        (t, Outcome([f] + o.trace, o.threw))
    case Shim(m) =>
      if m in s.proto then (s, Outcome([f, s.proto[m]], false)) else (s, Outcome([f], true))
    case Check(key, a, b) =>
      var (t, o) := Call(s, Guard.Choose(s.fns, key, a, b));
      (t, Outcome([f] + o.trace, o.threw))
    case Wrapper =>
      var c := s.cells[f];
      var s1 := if c.current == c.original && Lookup(s, c.name) == Some(f) then Remove(s, f) else s;
      if c.current.None? then (s1, Outcome([f], true))
      else
        var (t, o) := Call(s1, c.current.value);
        (t, Outcome([f] + o.trace, o.threw))
  }

  /** `obj[m]()`: a TypeError when the slot holds nothing. */
  function CallMethod(s: State, m: Key): (r: (State, Outcome))
    requires WellFormed(s)
    ensures WellFormed(r.0) && r.0.fns == s.fns && r.0.cells == s.cells && r.0.proto == s.proto
    ensures r.1.threw || Lookup(s, m).Some?
  {
    match Lookup(s, m)
    case None => (s, Outcome([], true))
    case Some(f) => Call(s, f)
  }

  /**
   * Installs one wrapper per pair, in order, stopping at the first TypeError
   * (the installs before it stay). Wrappers are only ever added.
   */
  function InstallAll(s: State, pairs: seq<(Key, Factory)>, dynamic: bool): (r: (State, Result<seq<FnId>>))
    requires WellFormed(s)
    ensures WellFormed(r.0) && s.cells.Keys <= r.0.cells.Keys && |s.fns| <= |r.0.fns|
    decreases |pairs|
  {
    if pairs == [] then (s, Ok([]))
    else
      var (s1, r1) := InstallAll(s, pairs[..|pairs| - 1], dynamic);
      Extend(s1, r1, pairs[|pairs| - 1].0, pairs[|pairs| - 1].1, dynamic)
  }

  /** One more `around1` after the installs that gave `r1`, unless one of them already failed. */
  function Extend(s1: State, r1: Result<seq<FnId>>, m: Key, factory: Factory, dynamic: bool): (r: (State, Result<seq<FnId>>))
    requires WellFormed(s1)
    ensures WellFormed(r.0) && s1.cells.Keys <= r.0.cells.Keys && |s1.fns| <= |r.0.fns|
    ensures r.1.Ok? ==> r1.Ok? && r.1.value != [] && r.1.value == r1.value + [r.1.value[|r.1.value| - 1]]
    ensures r.1.Ok? ==> Installed(s1, r.0, r.1.value[|r.1.value| - 1], m, factory, dynamic)
  {
    if r1.TypeError? then (s1, TypeError)
    else match Around1(s1, m, factory, dynamic)
      case TypeError => (s1, TypeError)
      case Ok((s2, w)) => (s2, Ok(r1.value + [w]))
  }

  /** The handles come back one per key, in key order, each the wrapper installed for its key. */
  lemma {:induction false} InstallAllInOrder(s: State, pairs: seq<(Key, Factory)>, dynamic: bool)
    requires WellFormed(s) && InstallAll(s, pairs, dynamic).1.Ok?
    ensures InOrder(s, InstallAll(s, pairs, dynamic).0, pairs, InstallAll(s, pairs, dynamic).1.value)
    decreases |pairs|
  {
    if pairs != [] {
      var n := |pairs| - 1;
      InstallAllLast(s, pairs, dynamic);
      InstallAllInOrder(s, pairs[..n], dynamic);
      var (s1, r1) := InstallAll(s, pairs[..n], dynamic);
      var (s2, hs) := InstallAll(s, pairs, dynamic);
      InOrderStep(s, s1, s2, hs.value[|hs.value| - 1], pairs, r1.value, dynamic);
    }
  }

  /**
   * The handles `hs` that installing `pairs` on `s` gave, as found in `t`: one
   * per key, in key order, each a wrapper for its key that did not exist in
   * `s`, allocated one after the other.
   */
  ghost predicate InOrder(s: State, t: State, pairs: seq<(Key, Factory)>, hs: seq<FnId>) {
    && |hs| == |pairs|
    && (forall i :: 0 <= i < |hs| ==> hs[i] in t.cells && t.cells[hs[i]].name == pairs[i].0 && |s.fns| <= hs[i])
    && (forall i, j :: 0 <= i < j < |hs| ==> hs[i] < hs[j])
  }

  /** Key order, freshness and allocation order are kept when one more install appends its wrapper. */
  lemma InOrderStep(s: State, s1: State, s2: State, w: FnId, pairs: seq<(Key, Factory)>, hs: seq<FnId>, dynamic: bool)
    requires |pairs| > 0 && WellFormed(s1) && |s.fns| <= |s1.fns| && InOrder(s, s1, pairs[..|pairs| - 1], hs)
    requires Installed(s1, s2, w, pairs[|pairs| - 1].0, pairs[|pairs| - 1].1, dynamic)
    ensures InOrder(s, s2, pairs, hs + [w])
  {
    var n := |pairs| - 1;
    assert forall i :: 0 <= i < n ==> hs[i] in s1.cells && hs[i] < w && pairs[..n][i] == pairs[i];
  }

  /** One more key: `InstallAll` over `pairs[..i + 1]` extends what it did over `pairs[..i]`. */
  lemma InstallAllStep(s: State, pairs: seq<(Key, Factory)>, i: nat, dynamic: bool)
    requires WellFormed(s) && i < |pairs|
    ensures var (t, hs) := InstallAll(s, pairs[..i], dynamic);
            InstallAll(s, pairs[..i + 1], dynamic) == Extend(t, hs, pairs[i].0, pairs[i].1, dynamic)
  {
    assert pairs[..i + 1][..i] == pairs[..i];
  }

  /** A non-empty `InstallAll` is its last pair's `Extend` of the installs before it. */
  lemma InstallAllLast(s: State, pairs: seq<(Key, Factory)>, dynamic: bool)
    requires WellFormed(s) && pairs != []
    ensures var n := |pairs| - 1;
            var (t1, hs1) := InstallAll(s, pairs[..n], dynamic);
            InstallAll(s, pairs, dynamic) == Extend(t1, hs1, pairs[n].0, pairs[n].1, dynamic)
  {
  }

  /**
   * `around(obj, factories)`: one key gives that key's handle, any other count
   * a fused one; either way the handles are the installed wrappers in key order.
   */
  function Around(s: State, pairs: seq<(Key, Factory)>, dynamic: bool): (r: (State, Result<Remover>))
    requires WellFormed(s)
    ensures WellFormed(r.0)
    ensures r.1.Ok? ==> Holds(r.0, r.1.value)
    ensures r.1.Ok? ==> match r.1.value
                        case Handle(w) => |pairs| == 1 && InOrder(s, r.0, pairs, [w])
                        case Fused(ws) => |pairs| != 1 && InOrder(s, r.0, pairs, ws)
  {
    var (t, hs) := InstallAll(s, pairs, dynamic);
    if hs.TypeError? then (t, TypeError)
    else
      var ws := hs.value;
      assert InOrder(s, t, pairs, ws) by {
        InstallAllInOrder(s, pairs, dynamic);
      }
      if |ws| == 1 then
        assert ws == [ws[0]];
        (t, Ok(Handle(ws[0])))
      else (t, Ok(Fused(ws)))
  }

  /** Every handle of `rm` refers to a wrapper's closure. */
  predicate Holds(s: State, rm: Remover) {
    match rm
    case Handle(w) => w in s.cells
    case Fused(ws) => forall i :: 0 <= i < |ws| ==> ws[i] in s.cells
  }

  /** Runs the handles one after the other, first to last. */
  function RemoveAll(s: State, ws: seq<FnId>): (r: State)
    requires WellFormed(s) && forall i :: 0 <= i < |ws| ==> ws[i] in s.cells
    ensures WellFormed(r) && r.cells.Keys == s.cells.Keys && |r.fns| == |s.fns| && r.proto == s.proto
    decreases |ws|
  {
    if ws == [] then s
    else Remove(RemoveAll(s, ws[..|ws| - 1]), ws[|ws| - 1])
  }

  /** One more handle: `RemoveAll` over `ws[..i + 1]` is `remove` on the state `ws[..i]` left. */
  lemma RemoveAllStep(s: State, ws: seq<FnId>, i: nat)
    requires WellFormed(s) && i < |ws| && forall j :: 0 <= j < |ws| ==> ws[j] in s.cells
    ensures ws[i] in RemoveAll(s, ws[..i]).cells
    ensures RemoveAll(s, ws[..i + 1]) == Remove(RemoveAll(s, ws[..i]), ws[i])
  {
    var p := ws[..i + 1];
    assert |p| - 1 == i && p[..i] == ws[..i] && p[i] == ws[i];
  }

  /** Invokes a remover returned by `around`. */
  function RunRemover(s: State, rm: Remover): (r: State)
    requires WellFormed(s) && Holds(s, rm)
    ensures WellFormed(r) && r.cells.Keys == s.cells.Keys
  {
    match rm
    case Handle(w) => Remove(s, w)
    case Fused(ws) => RemoveAll(s, ws)
  }
}
