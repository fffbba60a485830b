/**
 * The part of a JavaScript heap that method wrapping works on: function objects
 * (each with a behaviour, a mutable prototype link and its own properties), the
 * method slots of one target object, the method slots of that object's
 * prototype, and the variables each installed wrapper closes over.
 */
module Heap {

  /** A function object's identity: its position in allocation order. */
  type FnId = nat

  /** A method or property name. */
  type Key = string

  datatype Option<T> = None | Some(value: T)

  /** A value stored in a property of a function object. */
  datatype Value = Num(n: int) | Str(s: string)

  /** Where a function object's prototype link (`Object.setPrototypeOf`) points. */
  datatype Link =
    | FunctionProto        // `Function.prototype`, the link of every fresh function
    | FunctionCtor         // the `Function` constructor itself
    | ToFn(target: FnId)   // another function object of the heap

  /** What a function object does when it is called. */
  datatype Kind =
    | Native                                   // a method body of the host program
    | Relay(next: Option<FnId>)                // a factory's replacement: calls `next`
    | Wrapper                                  // the `wrapper` closure of one install
    | Shim(name: Key)                          // calls the prototype's current `name`
    | Check(key: Key, oldFn: FnId, newFn: FnId) // the dispatch closure built by `dedupe`

  datatype Fn = Fn(kind: Kind, link: Link, props: map<Key, Value>)

  /**
   * The variables one install closes over. `inherited` is the value `obj[method]`
   * had at install time; `original` is what the factory was given (the same value,
   * or a fresh shim when the dynamic variant wraps a method that was not own);
   * `current` is the only one that changes afterwards.
   */
  datatype Cell = Cell(name: Key, inherited: Option<FnId>, original: Option<FnId>,
                       hadOwn: bool, current: Option<FnId>)

  /**
   * The whole heap: `own` is the target object's own method slots, `proto` the
   * method slots of its prototype, `cells` the closure of each wrapper by the
   * wrapper's id.
   */
  datatype State = State(fns: seq<Fn>, own: map<Key, FnId>, proto: map<Key, FnId>,
                         cells: map<FnId, Cell>)

  // Every reference a function or closure holds points below a bound (in practice: to an older function).

  predicate Below(o: Option<FnId>, bound: nat) {
    o.Some? ==> o.value < bound
  }

  predicate LinkBelow(l: Link, bound: nat) {
    l.ToFn? ==> l.target < bound
  }

  predicate KindBelow(k: Kind, bound: nat) {
    match k
    case Relay(next) => Below(next, bound)
    case Check(_, a, b) => a < bound && b < bound
    case _ => true
  }

  predicate CellBelow(c: Cell, w: FnId) {
    Below(c.inherited, w) && Below(c.original, w) && Below(c.current, w) &&
    (c.hadOwn ==> c.original.Some?)
  }

  /** Every prototype link points to an older function, so prototype chains end. */
  predicate LinksDescend(fns: seq<Fn>) {
    forall i :: 0 <= i < |fns| ==> LinkBelow(fns[i].link, i)
  }

  /** What one function of the heap may refer to: only older functions, and its own closure. */
  predicate FnOk(s: State, i: nat)
    requires i < |s.fns|
  {
    KindBelow(s.fns[i].kind, i) && (s.fns[i].kind.Wrapper? ==> i in s.cells)
  }

  /**
   * The heap invariant: every reference a function or a closure holds is to an
   * older function, every wrapper has its closure, every slot holds a function of
   * the heap, and the prototype's methods are host methods.
   */
  predicate WellFormed(s: State) {
    && LinksDescend(s.fns)
    && (forall i :: 0 <= i < |s.fns| ==> FnOk(s, i))
    && (forall w :: w in s.cells ==> w < |s.fns| && s.fns[w].kind.Wrapper? && CellBelow(s.cells[w], w))
    && (forall m :: m in s.own ==> s.own[m] < |s.fns|)
    && (forall m :: m in s.proto ==> s.proto[m] < |s.fns| && s.fns[s.proto[m]].kind.Native?)
  }

  /** Functions that keep their kind and their closure keep their invariant. */
  lemma FnsStayOk(s: State, r: State)
    requires forall i :: 0 <= i < |s.fns| ==> FnOk(s, i)
    requires |s.fns| <= |r.fns| && s.cells.Keys <= r.cells.Keys
    requires forall i :: 0 <= i < |s.fns| ==> r.fns[i].kind == s.fns[i].kind
    ensures forall i :: 0 <= i < |s.fns| ==> FnOk(r, i)
  {
    forall i | 0 <= i < |s.fns| ensures FnOk(r, i) {
      assert FnOk(s, i);
    }
  }

  /** `obj[method]`: the own slot if there is one, otherwise the prototype's. */
  function Lookup(s: State, m: Key): Option<FnId> {
    if m in s.own then Some(s.own[m])
    else if m in s.proto then Some(s.proto[m])
    else None
  }

  /** `obj[m]` finds a function exactly when the object or its prototype has `m`, the own one first. */
  lemma LookupShadows(s: State, m: Key)
    ensures Lookup(s, m).Some? <==> m in s.own || m in s.proto
    ensures m in s.own ==> Lookup(s, m) == Some(s.own[m])
    ensures m !in s.own && m in s.proto ==> Lookup(s, m) == Some(s.proto[m])
  {
  }

  /** `f[p]`: the function's own property, otherwise the one found along its prototype chain. */
  function Get(fns: seq<Fn>, f: FnId, p: Key): (r: Option<Value>)
    requires LinksDescend(fns) && f < |fns|
    ensures p in fns[f].props ==> r == Some(fns[f].props[p])
    decreases f
  {
    if p in fns[f].props then Some(fns[f].props[p])
    else match fns[f].link
      case ToFn(g) => Get(fns, g, p)
      case _ => None
  }

  /** `g` is `f` or one of its ancestors: reached from `f` by following prototype links. */
  ghost predicate OnChain(fns: seq<Fn>, f: FnId, g: FnId)
    requires LinksDescend(fns) && f < |fns|
    decreases f
  {
    g == f || (fns[f].link.ToFn? && OnChain(fns, fns[f].link.target, g))
  }

  /** A property read finds an own property of `f` or of one of its ancestors, never anything else. */
  lemma {:induction false} GetFromChain(fns: seq<Fn>, f: FnId, p: Key)
    requires LinksDescend(fns) && f < |fns|
    ensures Get(fns, f, p).Some? ==>
              exists g: FnId :: g <= f && OnChain(fns, f, g) && p in fns[g].props && Get(fns, f, p) == Some(fns[g].props[p])
    decreases f
  {
    if p in fns[f].props {
      assert OnChain(fns, f, f);
    } else if fns[f].link.ToFn? && Get(fns, f, p).Some? {
      var h := fns[f].link.target;
      GetFromChain(fns, h, p);
      var g: FnId :| g <= h && OnChain(fns, h, g) && p in fns[g].props && Get(fns, h, p) == Some(fns[g].props[p]);
      assert OnChain(fns, f, g);
    }
  }

  /** A property read depends only on the functions at and below the one read. */
  lemma {:induction false} GetAgrees(a: seq<Fn>, b: seq<Fn>, f: FnId, p: Key)
    requires LinksDescend(a) && LinksDescend(b) && f < |a| && f < |b|
    requires forall i :: 0 <= i <= f ==> a[i].link == b[i].link && a[i].props == b[i].props
    ensures Get(a, f, p) == Get(b, f, p)
    decreases f
  {
    if p !in a[f].props && a[f].link.ToFn? {
      GetAgrees(a, b, a[f].link.target, p);
    }
  }

  /** Allocating more functions changes no property read of an older one. */
  lemma PrefixGet(a: seq<Fn>, b: seq<Fn>, f: FnId, p: Key)
    requires LinksDescend(a) && LinksDescend(b) && f < |a| <= |b| && b[..|a|] == a
    ensures Get(b, f, p) == Get(a, f, p)
  {
    forall i | 0 <= i <= f ensures b[i].link == a[i].link && b[i].props == a[i].props {
      assert b[..|a|][i] == a[i];
    }
    GetAgrees(b, a, f, p);
  }

  /** Allocates a new function object; its id is the old heap size. */
  function Alloc(s: State, fn: Fn): (r: State)
    requires WellFormed(s) && LinkBelow(fn.link, |s.fns|) && KindBelow(fn.kind, |s.fns|) && !fn.kind.Wrapper?
    ensures WellFormed(r) && |r.fns| == |s.fns| + 1 && r.fns[..|s.fns|] == s.fns && r.fns[|s.fns|] == fn
    ensures r.own == s.own && r.proto == s.proto && r.cells == s.cells
  {
    var r := s.(fns := s.fns + [fn]);
    assert WellFormed(r) by {
      FnsStayOk(s, r);
      assert FnOk(r, |s.fns|);
    }
    r
  }

  /** `Object.setPrototypeOf(f, l)`, for a link that keeps chains finite. */
  function SetLink(s: State, f: FnId, l: Link): (r: State)
    requires WellFormed(s) && f < |s.fns| && LinkBelow(l, f)
    ensures WellFormed(r) && |r.fns| == |s.fns| && r.fns[f] == s.fns[f].(link := l)
    ensures forall i :: 0 <= i < |s.fns| && i != f ==> r.fns[i] == s.fns[i]
    ensures r.own == s.own && r.proto == s.proto && r.cells == s.cells
  {
    var r := s.(fns := s.fns[f := s.fns[f].(link := l)]);
    assert WellFormed(r) by {
      FnsStayOk(s, r);
    }
    r
  }

  /** `obj[m] = f`. */
  function SetOwn(s: State, m: Key, f: FnId): (r: State)
    requires WellFormed(s) && f < |s.fns|
    ensures WellFormed(r) && Lookup(r, m) == Some(f)
    ensures forall k :: k != m ==> Lookup(r, k) == Lookup(s, k)
    ensures r.own == s.own[m := f] && r.fns == s.fns && r.proto == s.proto && r.cells == s.cells
  {
    var r := s.(own := s.own[m := f]);
    assert WellFormed(r) by {
      FnsStayOk(s, r);
    }
    r
  }

  /** `delete obj[m]`: the prototype's method, if any, shows through again. */
  function DeleteOwn(s: State, m: Key): (r: State)
    requires WellFormed(s)
    ensures WellFormed(r) && Lookup(r, m) == (if m in s.proto then Some(s.proto[m]) else None)
    ensures forall k :: k != m ==> Lookup(r, k) == Lookup(s, k)
    ensures r.own == s.own - {m} && r.fns == s.fns && r.proto == s.proto && r.cells == s.cells
  {
    var r := s.(own := s.own - {m});
    assert WellFormed(r) by {
      FnsStayOk(s, r);
    }
    r
  }

  /** Allocates the `wrapper` function of an install, linked to `k`, with its closure `c`. */
  function AddWrapper(s: State, k: FnId, c: Cell): (r: State)
    requires WellFormed(s) && k < |s.fns| && CellBelow(c, |s.fns|)
    ensures WellFormed(r) && |r.fns| == |s.fns| + 1 && r.fns[..|s.fns|] == s.fns
    ensures r.fns[|s.fns|] == Fn(Wrapper, ToFn(k), map[]) && r.cells == s.cells[|s.fns| := c]
    ensures r.own == s.own && r.proto == s.proto
  {
    var w := |s.fns|;
    var r := s.(fns := s.fns + [Fn(Wrapper, ToFn(k), map[])], cells := s.cells[w := c]);
    assert forall i :: 0 <= i < w ==> r.fns[i] == s.fns[i];
    assert WellFormed(r) by {
      FnsStayOk(s, r);
      assert FnOk(r, w);
    }
    r
  }

  /** `current = cur` in the closure of wrapper `w`. */
  function SetCurrent(s: State, w: FnId, cur: Option<FnId>): (r: State)
    requires WellFormed(s) && w in s.cells && Below(cur, w)
    ensures WellFormed(r) && r.cells.Keys == s.cells.Keys && r.cells[w] == s.cells[w].(current := cur)
    ensures forall v :: v in s.cells && v != w ==> r.cells[v] == s.cells[v]
    ensures r.fns == s.fns && r.own == s.own && r.proto == s.proto
  {
    var r := s.(cells := s.cells[w := s.cells[w].(current := cur)]);
    assert WellFormed(r) by {
      FnsStayOk(s, r);
    }
    r
  }

  /** `f.p = v` (as in `original.x = "y"`): an own property write. */
  function SetProp(s: State, f: FnId, p: Key, v: Value): (r: State)
    requires WellFormed(s) && f < |s.fns|
    ensures WellFormed(r) && |r.fns| == |s.fns|
    ensures forall q :: Get(r.fns, f, q) == if q == p then Some(v) else Get(s.fns, f, q)
    ensures forall i :: 0 <= i < |s.fns| && i != f ==> r.fns[i] == s.fns[i]
    ensures r.own == s.own && r.proto == s.proto && r.cells == s.cells
  {
    var r := s.(fns := s.fns[f := s.fns[f].(props := s.fns[f].props[p := v])]);
    assert WellFormed(r) by {
      FnsStayOk(s, r);
    }
    forall q ensures Get(r.fns, f, q) == if q == p then Some(v) else Get(s.fns, f, q) {
      if q != p && s.fns[f].link.ToFn? {
        GetAgrees(r.fns, s.fns, s.fns[f].link.target, q);
      }
    }
    r
  }

  /** `Object.getPrototypeOf(obj)[m] = function () {…}`: the ancestor's method changes. */
  function DefineProto(s: State, m: Key): (r: (State, FnId))
    requires WellFormed(s)
    ensures WellFormed(r.0) && r.1 == |s.fns| && |r.0.fns| == r.1 + 1 && r.0.fns[..|s.fns|] == s.fns
    ensures m in r.0.proto && r.0.proto[m] == r.1 && r.0.fns[r.1].kind.Native?
    ensures forall k :: k != m ==> Lookup(r.0, k) == Lookup(s, k)
    ensures r.0.own == s.own && r.0.cells == s.cells
  {
    var n := |s.fns|;
    var s1 := Alloc(s, Fn(Native, FunctionProto, map[]));
    var r := s1.(proto := s1.proto[m := n]);
    assert WellFormed(r) by {
      FnsStayOk(s1, r);
    }
    (r, n)
  }
}
