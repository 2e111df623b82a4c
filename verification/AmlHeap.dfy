/**
 * sys/src/libaml/aml.c: the mark-sweep collector of the AML interpreter.
 *
 * Marking is followed on the heap and specified on the graph of the pointers that `gcmark` follows.
 */
module AmlGraph {
  /** The pointers of each object. */
  type Graph<!O> = map<O, set<O>>

  ghost function Successors<O>(g: Graph<O>, s: set<O>): set<O> { set x, y | x in s && x in g && y in g[x] :: y }

  /** What can be reached in at most `n` steps. */
  ghost function Within<O>(g: Graph<O>, roots: set<O>, n: nat): set<O> {
    if n == 0 then roots else Within(g, roots, n - 1) + Successors(g, Within(g, roots, n - 1))
  }

  ghost predicate Reaches<O>(g: Graph<O>, roots: set<O>, x: O) { exists n: nat :: x in Within(g, roots, n) }

  lemma {:induction false} WithinMonotone<O>(g: Graph<O>, p: set<O>, q: set<O>, n: nat)
    requires p <= q
    ensures Within(g, p, n) <= Within(g, q, n)
  {
    if n > 0 {
      WithinMonotone(g, p, q, n - 1);
    }
  }

  lemma {:induction false} ReachesMore<O>(g: Graph<O>, p: set<O>, q: set<O>, x: O)
    requires p <= q && Reaches(g, p, x)
    ensures Reaches(g, q, x)
  {
    var n: nat :| x in Within(g, p, n);
    WithinMonotone(g, p, q, n);
  }

  lemma {:induction false} WithinStep<O>(g: Graph<O>, p: O, n: nat)
    requires p in g
    ensures Within(g, g[p], n) <= Within(g, {p}, n + 1)
  {
    if n > 0 {
      WithinStep(g, p, n - 1);
    } else {
      assert g[p] <= Successors(g, {p});
    }
  }

  lemma {:induction false} ReachesThrough<O>(g: Graph<O>, p: O, x: O)
    requires p in g && Reaches(g, g[p], x)
    ensures Reaches(g, {p}, x)
  {
    var n: nat :| x in Within(g, g[p], n);
    WithinStep(g, p, n);
  }

  /** Marking from `roots` took the marked set from `m0` to `m1`. */
  ghost predicate Marks<O>(g: Graph<O>, roots: set<O>, m0: set<O>, m1: set<O>) {
    && m0 <= m1 && roots <= m1
    && (forall x {:trigger NewMark(g, roots, m1, x)} :: x in m1 && x !in m0 ==> NewMark(g, roots, m1, x))
  }

  /** A newly marked object is reachable, and what it points to is marked too. */
  ghost predicate NewMark<O>(g: Graph<O>, roots: set<O>, m1: set<O>, x: O) {
    x in g && Reaches(g, roots, x) && g[x] <= m1
  }

  lemma {:induction false} MarksNothing<O>(g: Graph<O>, roots: set<O>, m: set<O>)
    requires roots <= m
    ensures Marks(g, roots, m, m)
  {
  }

  lemma {:induction false} MarksThen<O>(g: Graph<O>, p: set<O>, q: set<O>, m0: set<O>, m1: set<O>, m2: set<O>)
    requires Marks(g, p, m0, m1) && Marks(g, q, m1, m2)
    ensures Marks(g, p + q, m0, m2)
  {
    forall x | x in m2 && x !in m0 ensures NewMark(g, p + q, m2, x) {
      if x in m1 {
        assert NewMark(g, p, m1, x);
        ReachesMore(g, p, p + q, x);
      } else {
        assert NewMark(g, q, m2, x);
        ReachesMore(g, q, p + q, x);
      }
    }
  }

  /** Mark an object, then everything it points to. */
  lemma {:induction false} MarksObject<O>(g: Graph<O>, p: O, m0: set<O>, m1: set<O>)
    requires p in g && p !in m0 && Marks(g, g[p], m0 + {p}, m1)
    ensures Marks(g, {p}, m0, m1)
  {
    forall x | x in m1 && x !in m0 ensures NewMark(g, {p}, m1, x) {
      if x == p {
        assert p in Within(g, {p}, 0);
      } else {
        assert NewMark(g, g[p], m1, x);
        ReachesThrough(g, p, x);
      }
    }
  }

  lemma {:induction false} WithinMarked<O>(g: Graph<O>, roots: set<O>, m: set<O>, n: nat)
    requires Marks(g, roots, {}, m)
    ensures Within(g, roots, n) <= m
  {
    if n > 0 {
      WithinMarked(g, roots, m, n - 1);
      forall y | y in Successors(g, Within(g, roots, n - 1)) ensures y in m {
        var x :| x in Within(g, roots, n - 1) && x in g && y in g[x];
        assert NewMark(g, roots, m, x);
      }
    }
  }

  /** A chain of pointers that starts in `roots` and ends with `x`. */
  ghost predicate Chain<O>(g: Graph<O>, roots: set<O>, c: seq<O>, x: O) {
    && c != [] && c[0] in roots && c[|c| - 1] == x
    && forall k {:trigger c[k]} :: 0 <= k < |c| - 1 ==> c[k] in g && c[k + 1] in g[c[k]]
  }

  lemma {:induction false} ChainTo<O>(g: Graph<O>, roots: set<O>, x: O, n: nat) returns (c: seq<O>)
    requires x in Within(g, roots, n)
    ensures Chain(g, roots, c, x) && forall k :: 0 <= k < |c| ==> Reaches(g, roots, c[k])
  {
    if n == 0 {
      c := [x];
      assert x in Within(g, roots, 0);
    } else if x in Within(g, roots, n - 1) {
      c := ChainTo(g, roots, x, n - 1);
    } else {
      var y :| y in Within(g, roots, n - 1) && y in g && x in g[y];
      c := ChainTo(g, roots, y, n - 1);
      c := c + [x];
    }
  }

  /** Starting with nothing marked, exactly the reachable objects get marked. */
  lemma {:induction false} MarkedIsReachable<O>(g: Graph<O>, roots: set<O>, m: set<O>, x: O)
    requires Marks(g, roots, {}, m)
    ensures x in m <==> Reaches(g, roots, x)
  {
    if x in m {
      assert NewMark(g, roots, m, x);
    }
    if Reaches(g, roots, x) {
      var n: nat :| x in Within(g, roots, n);
      WithinMarked(g, roots, m, n);
    }
  }
}

/** Marking on the heap. */
module AmlHeap {
  import opened AmlGraph

  /** The contents of an object by its tag. */
  datatype Data =
    | Env(loc: seq<Obj?>, arg: seq<Obj?>)                                  // 'E'
    | Ref(ref: Obj?)                                                       // 'R', 'A', 'L'
    | Name(v: Obj?, up: Obj?, next: Obj?, fork: Obj?, down: Obj?)          // 'N'
    | Package(elems: seq<Obj?>)                                            // 'p'
    | Region(name: Obj?, mapped: int)                                      // 'r'
    | Method(name: Obj?)                                                   // 'm'
    | Field(reg: Obj?, bank: Obj?, index: Obj?)                            // 'f', 'u'
    | Plain                                                                // strings, buffers, integers

  /** A heap header and what follows it.  `kids` are the names below a name, in order. */
  class Obj {
    var mark: bool
    var pinned: bool
    var link: Obj?
    var data: Data
    ghost var kids: seq<Obj>

    constructor (data: Data)
      ensures this.data == data && !mark && !pinned && link == null && kids == []
    {
      this.data, mark, pinned, link, kids := data, false, false, null, [];
    }
  }

  ghost function NonNull(s: seq<Obj?>): set<Obj> { set o: Obj | o in s }

  ghost function One(o: Obj?): set<Obj> { if o == null then {} else {o} }

  /** What `gcmark` follows from an object. */
  ghost function Follows(d: Data, kids: seq<Obj>): set<Obj> {
    match d
    case Env(loc, arg) => NonNull(loc) + NonNull(arg)
    case Ref(ref) => One(ref)
    case Name(v, up, next, fork, down) => One(v) + NonNull(kids) + One(fork) + One(up)
    case Package(elems) => NonNull(elems)
    case Region(name, mapped) => One(name)
    case Method(name) => One(name)
    case Field(reg, bank, index) => One(reg) + One(bank) + One(index)
    case Plain => {}
  }

  ghost function At(s: seq<Obj>, k: nat): Obj? { if k < |s| then s[k] else null }

  /** The names below a name hang together by their `next` fields. */
  ghost predicate KidsOk(o: Obj)
    reads o`data, o`kids, o.kids`data
  {
    o.data.Name? ==>
      && o.data.down == At(o.kids, 0)
      && forall i {:trigger KidAt(o.kids, i)} :: 0 <= i < |o.kids| ==> KidAt(o.kids, i)
  }

  ghost predicate KidAt(kids: seq<Obj>, i: int)
    requires 0 <= i < |kids|
    reads kids`data
  {
    kids[i].data.Name? && kids[i].data.next == At(kids, i + 1)
  }

  /** Graph `g` says what `gcmark` follows from `o`. */
  ghost predicate ObjOk(all: set<Obj>, g: Graph<Obj>, o: Obj)
    reads all`data, all`kids, o`data, o`kids, o.kids`data
  {
    && o in g && g[o] == Follows(o.data, o.kids) && g[o] <= all
    && (forall k :: k in o.kids ==> k in all) && KidsOk(o) && (!o.data.Name? ==> o.kids == [])
  }

  /** The pointers among the objects `all` are those of the graph `g`. */
  ghost predicate GraphOk(all: set<Obj>, g: Graph<Obj>)
    reads all`data, all`kids
  {
    forall o {:trigger ObjOk(all, g, o)} :: o in all ==> (forall k :: k in o.kids ==> k in all) && ObjOk(all, g, o)
  }

  ghost function Marked(all: set<Obj>): set<Obj>
    reads all`mark
  {
    set o | o in all && o.mark
  }

  /** `gcmark`: mark what `p` leads to.  What was marked before stays marked, whatever is newly marked can be
      reached from `p`, and everything it points to is marked as well. */
  method GcMark(p: Obj?, ghost all: set<Obj>, ghost g: Graph<Obj>)
    requires GraphOk(all, g) && (p != null ==> p in all)
    modifies all`mark
    ensures Marks(g, One(p), old(Marked(all)), Marked(all))
    decreases all - Marked(all), 0
  {
    ghost var m0 := Marked(all);
    if p == null || p.mark {
      MarksNothing(g, One(p), m0);
      return;
    }
    var o: Obj := p;
    assert ObjOk(all, g, o);
    o.mark := true;
    assert Marked(all) == m0 + {o};
    match o.data {
      case Env(loc, arg) =>
        MarkTwo(loc, arg, all, g);
      case Ref(ref) =>
        GcMark(ref, all, g);
      case Name(v, up, next, fork, down) =>
        MarkName(o, v, up, fork, down, all, g);
      case Package(elems) =>
        MarkAll(elems, all, g);
      case Region(name, mapped) =>
        GcMark(name, all, g);
      case Method(name) =>
        GcMark(name, all, g);
      case Field(reg, bank, index) =>
        MarkThree(reg, bank, index, all, g);
      case Plain =>
        MarksNothing(g, {}, m0 + {o});
    }
    MarksObject(g, o, m0, Marked(all));
  }

  method MarkAll(s: seq<Obj?>, ghost all: set<Obj>, ghost g: Graph<Obj>)
    requires GraphOk(all, g) && NonNull(s) <= all
    modifies all`mark
    ensures Marks(g, NonNull(s), old(Marked(all)), Marked(all))
    decreases all - Marked(all), 1
  {
    ghost var m0 := Marked(all);
    MarksNothing(g, {}, m0);
    for i := 0 to |s|
      invariant Marks(g, NonNull(s[..i]), m0, Marked(all))
    {
      ghost var m1 := Marked(all);
      assert s[i] != null ==> s[i] in NonNull(s);
      GcMark(s[i], all, g);
      MarksThen(g, NonNull(s[..i]), One(s[i]), m0, m1, Marked(all));
      assert NonNull(s[..i + 1]) == NonNull(s[..i]) + One(s[i]);
    }
    assert s[..|s|] == s;
  }

  method MarkTwo(s: seq<Obj?>, t: seq<Obj?>, ghost all: set<Obj>, ghost g: Graph<Obj>)
    requires GraphOk(all, g) && NonNull(s) <= all && NonNull(t) <= all
    modifies all`mark
    ensures Marks(g, NonNull(s) + NonNull(t), old(Marked(all)), Marked(all))
    decreases all - Marked(all), 2
  {
    ghost var m0 := Marked(all);
    MarkAll(s, all, g);
    ghost var m1 := Marked(all);
    MarkAll(t, all, g);
    MarksThen(g, NonNull(s), NonNull(t), m0, m1, Marked(all));
  }

  method MarkThree(x: Obj?, y: Obj?, z: Obj?, ghost all: set<Obj>, ghost g: Graph<Obj>)
    requires GraphOk(all, g) && One(x) <= all && One(y) <= all && One(z) <= all
    modifies all`mark
    ensures Marks(g, One(x) + One(y) + One(z), old(Marked(all)), Marked(all))
    decreases all - Marked(all), 1
  {
    ghost var m0 := Marked(all);
    GcMark(x, all, g);
    ghost var m1 := Marked(all);
    GcMark(y, all, g);
    ghost var m2 := Marked(all);
    MarksThen(g, One(x), One(y), m0, m1, m2);
    GcMark(z, all, g);
    MarksThen(g, One(x) + One(y), One(z), m0, m2, Marked(all));
  }

  method MarkName(n: Obj, v: Obj?, up: Obj?, fork: Obj?, down: Obj?, ghost all: set<Obj>, ghost g: Graph<Obj>)
    requires GraphOk(all, g) && n in all && KidsOk(n) && n.data.Name? && n.data.down == down
    requires One(v) <= all && One(up) <= all && One(fork) <= all && NonNull(n.kids) <= all
    modifies all`mark
    ensures Marks(g, One(v) + NonNull(n.kids) + One(fork) + One(up), old(Marked(all)), Marked(all))
    decreases all - Marked(all), 2
  {
    ghost var m0 := Marked(all);
    GcMark(v, all, g);
    ghost var m1 := Marked(all);
    MarkKids(n, down, all, g);
    ghost var m2 := Marked(all);
    MarksThen(g, One(v), NonNull(n.kids), m0, m1, m2);
    GcMark(fork, all, g);
    ghost var m3 := Marked(all);
    MarksThen(g, One(v) + NonNull(n.kids), One(fork), m0, m2, m3);
    GcMark(up, all, g);
    MarksThen(g, One(v) + NonNull(n.kids) + One(fork), One(up), m0, m3, Marked(all));
  }

  /** The names below: `down`, then `next` after `next`. */
  method MarkKids(n: Obj, down: Obj?, ghost all: set<Obj>, ghost g: Graph<Obj>)
    requires GraphOk(all, g) && n in all && KidsOk(n) && n.data.Name? && n.data.down == down && NonNull(n.kids) <= all
    modifies all`mark
    ensures Marks(g, NonNull(n.kids), old(Marked(all)), Marked(all))
    decreases all - Marked(all), 1
  {
    ghost var m0 := Marked(all);
    ghost var kids := n.kids;
    ghost var i := 0;
    var d := down;
    MarksNothing(g, {}, m0);
    while d != null
      invariant 0 <= i <= |kids| && n.kids == kids && KidsOk(n) && d == At(kids, i)
      invariant Marks(g, NonNull(kids[..i]), m0, Marked(all))
      decreases |kids| - i
    {
      ghost var m1 := Marked(all);
      assert d == kids[i] && d in NonNull(kids) && KidAt(kids, i);
      GcMark(d, all, g);
      MarksThen(g, NonNull(kids[..i]), One(d), m0, m1, Marked(all));
      assert NonNull(kids[..i + 1]) == NonNull(kids[..i]) + One(d);
      d := d.data.next;
      i := i + 1;
    }
    assert kids[..|kids|] == kids;
  }

  // ----- the sweep -----

  /** What the collector does to the world outside the heap. */
  datatype Event = Unmap(o: Obj) | Free(o: Obj)

  ghost predicate Apart(s: seq<Obj>, i: int, j: int)
    requires 0 <= i < j < |s|
  {
    s[i] != s[j]
  }

  ghost predicate Distinct(s: seq<Obj>) { forall i, j {:trigger Apart(s, i, j)} :: 0 <= i < j < |s| ==> Apart(s, i, j) }

  lemma {:induction false} DistinctPrefix(s: seq<Obj>, n: nat)
    requires Distinct(s) && n <= |s|
    ensures Distinct(s[..n]) && (n < |s| ==> forall i {:trigger s[..n][i]} :: 0 <= i < n ==> s[..n][i] != s[n])
  {
    forall i, j | 0 <= i < j < n ensures Apart(s[..n], i, j) {
      assert Apart(s, i, j);
    }
    if n < |s| {
      forall i | 0 <= i < n ensures s[..n][i] != s[n] {
        assert Apart(s, i, n);
      }
    }
  }

  /** The objects `s` hang together by their `link` fields, the last leading to `end`. */
  ghost predicate Chained(first: Obj?, s: seq<Obj>, end: Obj?)
    reads s`link
  {
    && first == (if s == [] then end else s[0])
    && forall i {:trigger LinkAt(s, i, end)} :: 0 <= i < |s| ==> LinkAt(s, i, end)
  }

  ghost predicate LinkAt(s: seq<Obj>, i: int, end: Obj?)
    requires 0 <= i < |s|
    reads s`link
  {
    s[i].link == if i == |s| - 1 then end else s[i + 1]
  }

  lemma NextAt(first: Obj?, s: seq<Obj>, k: nat)
    requires Chained(first, s, null) && k < |s|
    ensures s[k].link == At(s, k + 1)
  {
    assert LinkAt(s, k, null);
  }

  lemma {:induction false} ChainAppend(first: Obj?, s: seq<Obj>, e: Obj)
    requires Chained(first, s, e)
    ensures Chained(first, s + [e], e.link)
  {
    forall i | 0 <= i < |s| + 1 ensures LinkAt(s + [e], i, e.link) {
      if i < |s| {
        assert LinkAt(s, i, e);
      }
    }
  }

  lemma {:induction false} ChainPrepend(e: Obj, s: seq<Obj>)
    requires Chained(e.link, s, null)
    ensures Chained(e, [e] + s, null)
  {
    forall i | 0 <= i < |s| + 1 ensures LinkAt([e] + s, i, null) {
      if i > 0 {
        assert LinkAt(s, i - 1, null);
      }
    }
  }

  /** The survivors, in order. */
  ghost function Keep(s: seq<Obj>, m: set<Obj>): seq<Obj> {
    if s == [] then [] else Keep(s[..|s| - 1], m) + if s[|s| - 1] in m then [s[|s| - 1]] else []
  }

  /** What is done as the sweep passes the objects `s`: dead regions are unmapped, and all dead objects but names are freed. */
  ghost function Swept(s: seq<Obj>, m: set<Obj>, snap: map<Obj, Data>): seq<Event>
    requires forall o :: o in s ==> o in snap
  {
    if s == [] then [] else Swept(s[..|s| - 1], m, snap) + SweptOne(s[|s| - 1], m, snap)
  }

  ghost function SweptOne(o: Obj, m: set<Obj>, snap: map<Obj, Data>): seq<Event>
    requires o in snap
  {
    if o in m || snap[o].Name? then [] else if snap[o].Region? && snap[o].mapped > 0 then [Unmap(o), Free(o)] else [Free(o)]
  }

  /** The dead names, last first. */
  ghost function DeadNames(s: seq<Obj>, m: set<Obj>, snap: map<Obj, Data>): seq<Obj>
    requires forall o :: o in s ==> o in snap
  {
    if s == [] then []
    else
      var o, r := s[|s| - 1], DeadNames(s[..|s| - 1], m, snap);
      if o !in m && snap[o].Name? then [o] + r else r
  }

  ghost function Frees(s: seq<Obj>): seq<Event> { if s == [] then [] else [Free(s[0])] + Frees(s[1..]) }

  /** Everything the sweep does. */
  ghost function SweepLog(s: seq<Obj>, m: set<Obj>, snap: map<Obj, Data>): seq<Event>
    requires forall o :: o in s ==> o in snap
  {
    Swept(s, m, snap) + Frees(DeadNames(s, m, snap))
  }

  // ----- what the log says -----

  ghost function CountFree(log: seq<Event>, o: Obj): nat { multiset(log)[Free(o)] }

  lemma {:induction false} SweptFreesNot(s: seq<Obj>, m: set<Obj>, snap: map<Obj, Data>, o: Obj)
    requires (forall x :: x in s ==> x in snap) && (forall i :: 0 <= i < |s| ==> s[i] != o)
    ensures CountFree(Swept(s, m, snap), o) == 0
  {
    if s != [] {
      var n := |s| - 1;
      SweptFreesNot(s[..n], m, snap, o);
      SweptOneFrees(s[n], m, snap, o);
      CountAdd(Swept(s[..n], m, snap), SweptOne(s[n], m, snap), o);
    }
  }

  lemma {:induction false} SweptFrees(s: seq<Obj>, m: set<Obj>, snap: map<Obj, Data>, k: nat)
    requires (forall x :: x in s ==> x in snap) && Distinct(s) && k < |s|
    ensures CountFree(Swept(s, m, snap), s[k]) == if s[k] !in m && !snap[s[k]].Name? then 1 else 0
  {
    var n := |s| - 1;
    DistinctPrefix(s, n);
    if k < n {
      assert Apart(s, k, n) && s[..n][k] == s[k];
      SweptFrees(s[..n], m, snap, k);
    } else {
      forall i | 0 <= i < n ensures s[..n][i] != s[k] {
        assert Apart(s, i, n);
      }
      SweptFreesNot(s[..n], m, snap, s[k]);
    }
    SweptOneFrees(s[n], m, snap, s[k]);
    CountAdd(Swept(s[..n], m, snap), SweptOne(s[n], m, snap), s[k]);
  }

  lemma CountAdd(a: seq<Event>, b: seq<Event>, o: Obj)
    ensures CountFree(a + b, o) == CountFree(a, o) + CountFree(b, o)
  {
  }

  lemma SweptOneFrees(x: Obj, m: set<Obj>, snap: map<Obj, Data>, o: Obj)
    requires x in snap
    ensures CountFree(SweptOne(x, m, snap), o) == if x == o && x !in m && !snap[x].Name? then 1 else 0
  {
    assert multiset([Unmap(x), Free(x)]) == multiset{Unmap(x), Free(x)} && multiset([Free(x)]) == multiset{Free(x)};
  }

  lemma {:induction false} DeadNamesAre(s: seq<Obj>, m: set<Obj>, snap: map<Obj, Data>)
    requires forall x :: x in s ==> x in snap
    ensures forall i {:trigger DeadNames(s, m, snap)[i]} :: 0 <= i < |DeadNames(s, m, snap)| ==> Among(DeadNames(s, m, snap)[i], s) && DeadNames(s, m, snap)[i] !in m
  {
    if s != [] {
      var n := |s| - 1;
      DeadNamesAre(s[..n], m, snap);
      var r, t := DeadNames(s[..n], m, snap), DeadNames(s, m, snap);
      forall i | 0 <= i < |t| ensures Among(t[i], s) && t[i] !in m {
        if |t| > |r| && i == 0 {
          assert s[n] == t[i];
        } else {
          var c := i - (|t| - |r|);
          assert t[i] == r[c];
          var j :| 0 <= j < n && s[..n][j] == r[c];
          assert s[j] == t[i];
        }
      }
    }
  }

  lemma {:induction false} NamesCountNot(s: seq<Obj>, m: set<Obj>, snap: map<Obj, Data>, o: Obj)
    requires (forall x :: x in s ==> x in snap) && (forall i :: 0 <= i < |s| ==> s[i] != o)
    ensures CountFree(Frees(DeadNames(s, m, snap)), o) == 0
  {
    if s != [] {
      var n := |s| - 1;
      NamesCountNot(s[..n], m, snap, o);
      FreesCons(s[n], DeadNames(s[..n], m, snap), o);
    }
  }

  lemma {:induction false} NamesCount(s: seq<Obj>, m: set<Obj>, snap: map<Obj, Data>, k: nat)
    requires (forall x :: x in s ==> x in snap) && Distinct(s) && k < |s|
    ensures CountFree(Frees(DeadNames(s, m, snap)), s[k]) == if s[k] !in m && snap[s[k]].Name? then 1 else 0
  {
    var n := |s| - 1;
    DistinctPrefix(s, n);
    if k < n {
      assert Apart(s, k, n);
      NamesCount(s[..n], m, snap, k);
    } else {
      NamesCountNot(s[..n], m, snap, s[k]);
    }
    FreesCons(s[n], DeadNames(s[..n], m, snap), s[k]);
  }

  lemma FreesCons(x: Obj, s: seq<Obj>, o: Obj)
    ensures CountFree(Frees([x] + s), o) == CountFree(Frees(s), o) + if x == o then 1 else 0
  {
    assert ([x] + s)[1..] == s;
    CountAdd([Free(x)], Frees(s), o);
    assert multiset([Free(x)]) == multiset{Free(x)};
  }

  /** Every dead object is freed exactly once, and no other. */
  lemma {:induction false} FreedOnce(s: seq<Obj>, m: set<Obj>, snap: map<Obj, Data>, o: Obj)
    requires (forall x :: x in s ==> x in snap) && Distinct(s) && o in s
    ensures CountFree(SweepLog(s, m, snap), o) == if o in m then 0 else 1
  {
    var k :| 0 <= k < |s| && s[k] == o;
    SweptFrees(s, m, snap, k);
    NamesCount(s, m, snap, k);
    CountAdd(Swept(s, m, snap), Frees(DeadNames(s, m, snap)), o);
  }

  lemma {:induction false} SweptKinds(s: seq<Obj>, m: set<Obj>, snap: map<Obj, Data>, i: nat)
    requires (forall x :: x in s ==> x in snap) && i < |Swept(s, m, snap)|
    ensures var e := Swept(s, m, snap)[i]; e.o in s && e.o !in m && e.o in snap && (e.Free? ==> !snap[e.o].Name?) && (e.Unmap? ==> snap[e.o].Region? && snap[e.o].mapped > 0)
  {
    var n := |s| - 1;
    if i < |Swept(s[..n], m, snap)| {
      SweptKinds(s[..n], m, snap, i);
    }
  }

  lemma {:induction false} FreesKinds(s: seq<Obj>, i: nat)
    requires i < |Frees(s)|
    ensures Frees(s)[i].Free? && Frees(s)[i].o in s
  {
    if i > 0 {
      FreesKinds(s[1..], i - 1);
    }
  }

  /** No name is freed before every dead region has been unmapped. */
  lemma {:induction false} NamesOutliveRegions(s: seq<Obj>, m: set<Obj>, snap: map<Obj, Data>, i: nat, j: nat)
    requires (forall x :: x in s ==> x in snap) && Distinct(s) && i < |SweepLog(s, m, snap)| && j < |SweepLog(s, m, snap)|
    requires var l := SweepLog(s, m, snap); l[i].Unmap? && l[j].Free? && l[j].o in snap && snap[l[j].o].Name?
    ensures i < j
  {
    var a, b := Swept(s, m, snap), Frees(DeadNames(s, m, snap));
    if j < |a| {
      SweptKinds(s, m, snap, j);
    }
    if i >= |a| {
      FreesKinds(DeadNames(s, m, snap), i - |a|);
    }
  }

  /** A dead region that is mapped is unmapped right before it is freed. */
  lemma {:induction false} MappedRegionUnmapped(s: seq<Obj>, m: set<Obj>, snap: map<Obj, Data>, k: nat) returns (i: nat)
    requires (forall x :: x in s ==> x in snap) && k < |s| && s[k] !in m && snap[s[k]].Region? && snap[s[k]].mapped > 0
    ensures i + 1 < |Swept(s, m, snap)| && Swept(s, m, snap)[i] == Unmap(s[k]) && Swept(s, m, snap)[i + 1] == Free(s[k])
  {
    var n := |s| - 1;
    if k == n {
      i := |Swept(s[..n], m, snap)|;
    } else {
      i := MappedRegionUnmapped(s[..n], m, snap, k);
    }
  }

  /** `o` is one of the objects `s`. */
  ghost predicate Among(o: Obj, s: seq<Obj>) { exists i :: 0 <= i < |s| && s[i] == o }

  lemma {:induction false} KeepIs(s: seq<Obj>, m: set<Obj>)
    ensures forall i {:trigger Keep(s, m)[i]} :: 0 <= i < |Keep(s, m)| ==> Among(Keep(s, m)[i], s) && Keep(s, m)[i] in m
    ensures forall i {:trigger s[i]} :: 0 <= i < |s| && s[i] in m ==> Among(s[i], Keep(s, m))
  {
    if s != [] {
      var n := |s| - 1;
      KeepIs(s[..n], m);
      var r, t := Keep(s[..n], m), Keep(s, m);
      forall i | 0 <= i < |t| ensures Among(t[i], s) && t[i] in m {
        if i < |r| {
          var j :| 0 <= j < n && s[..n][j] == r[i];
          assert s[j] == t[i];
        } else {
          assert s[n] == t[i];
        }
      }
      forall i | 0 <= i < |s| && s[i] in m ensures Among(s[i], t) {
        if i < n {
          assert s[..n][i] == s[i];
          var j :| 0 <= j < |r| && r[j] == s[i];
          assert t[j] == s[i];
        } else {
          assert t[|r|] == s[i];
        }
      }
    }
  }

  // ----- the collector -----

  datatype Frame = Frame(arg: seq<Obj?>, env: Obj?, dot: Obj?, ref: Obj?)

  ghost function FrameRoots(f: Frame): set<Obj> { NonNull(f.arg) + One(f.env) + One(f.dot) + One(f.ref) }

  ghost function AllFrameRoots(fs: seq<Frame>): set<Obj> {
    if fs == [] then {} else AllFrameRoots(fs[..|fs| - 1]) + FrameRoots(fs[|fs| - 1])
  }

  ghost function SetOf(s: seq<Obj>): set<Obj> { set o | o in s }

  ghost function Pinned(all: set<Obj>): set<Obj>
    reads all`pinned
  {
    set o | o in all && o.pinned
  }

  ghost function Snapshot(all: set<Obj>): map<Obj, Data>
    reads all`data
  {
    map o | o in all :: o.data
  }

  // ----- pointers, field by field -----

  ghost predicate In(o: Obj?, all: set<Obj>) { o != null ==> o in all }

  ghost predicate AllIn(a: seq<Obj?>, all: set<Obj>) { forall i :: 0 <= i < |a| && a[i] != null ==> a[i] in all }

  /** The name met `k` places along `next` from the `down` of a name. */
  ghost function Below(d: Data, k: nat, all: set<Obj>): Obj?
    requires d.Name?
    reads all`data
  {
    if k == 0 then d.down else
      var s := Below(d, k - 1, all);
      if s != null && s in all && s.data.Name? then s.data.next else null
  }

  /** Every pointer in the fields leads to one of `all`, and so do the names met from `down` along `next`. */
  ghost predicate FieldsIn(d: Data, all: set<Obj>)
    reads all`data
  {
    && (d.Env? ==> AllIn(d.loc, all) && AllIn(d.arg, all))
    && (d.Ref? ==> In(d.ref, all))
    && (d.Name? ==> In(d.v, all) && In(d.up, all) && In(d.fork, all) && forall k: nat {:trigger Below(d, k, all)} :: In(Below(d, k, all), all))
    && (d.Package? ==> AllIn(d.elems, all))
    && (d.Region? ==> In(d.name, all))
    && (d.Method? ==> In(d.name, all))
    && (d.Field? ==> In(d.reg, all) && In(d.bank, all) && In(d.index, all))
  }

  /** Some field points to `q`, or it is met from `down` along `next`. */
  ghost predicate PointsTo(d: Data, q: Obj, all: set<Obj>)
    reads all`data
  {
    match d
    case Env(loc, arg) => q in loc || q in arg
    case Ref(ref) => q == ref
    case Name(v, up, next, fork, down) => q == v || q == up || q == fork || exists k: nat {:trigger Below(d, k, all)} :: Below(d, k, all) == q
    case Package(elems) => q in elems
    case Region(name, mapped) => q == name
    case Method(name) => q == name
    case Field(reg, bank, index) => q == reg || q == bank || q == index
    case Plain => false
  }

  ghost predicate FrameIn(f: Frame, all: set<Obj>) { AllIn(f.arg, all) && In(f.env, all) && In(f.dot, all) && In(f.ref, all) }

  ghost predicate FrameHolds(f: Frame, q: Obj) { q in f.arg || q == f.env || q == f.dot || q == f.ref }

  ghost predicate SomeFrame(fs: seq<Frame>, q: Obj) { exists i :: 0 <= i < |fs| && FrameHolds(fs[i], q) }

  /** A chain of fields that leads from a pinned object, a frame or the root to `q`. */
  ghost predicate LedBy(all: set<Obj>, fs: seq<Frame>, root: Obj?, c: seq<Obj>, q: Obj)
    reads all`data, all`pinned
  {
    && c != [] && c[|c| - 1] == q && (forall k :: 0 <= k < |c| ==> c[k] in all)
    && (c[0].pinned || SomeFrame(fs, c[0]) || c[0] == root)
    && forall k {:trigger c[k]} :: 0 <= k < |c| - 1 ==> PointsTo(c[k].data, c[k + 1], all)
  }

  lemma {:induction false} BelowIsKid(all: set<Obj>, o: Obj, k: nat)
    requires o.data.Name? && KidsOk(o) && forall i :: i in o.kids ==> i in all
    ensures Below(o.data, k, all) == At(o.kids, k)
  {
    if k > 0 {
      BelowIsKid(all, o, k - 1);
      if k - 1 < |o.kids| {
        assert KidAt(o.kids, k - 1) && o.kids[k - 1] in o.kids;
      }
    }
  }

  /** What `gcmark` follows is what the fields point to. */
  lemma {:induction false} FollowedIsPointed(all: set<Obj>, g: Graph<Obj>, o: Obj, q: Obj)
    requires ObjOk(all, g, o)
    ensures q in g[o] <==> PointsTo(o.data, q, all)
  {
    if o.data.Name? {
      if q in NonNull(o.kids) {
        var k :| 0 <= k < |o.kids| && o.kids[k] == q;
        BelowIsKid(all, o, k);
      }
      if k: nat :| Below(o.data, k, all) == q {
        BelowIsKid(all, o, k);
      }
    }
  }

  lemma {:induction false} FollowedAreIn(all: set<Obj>, g: Graph<Obj>, o: Obj)
    requires ObjOk(all, g, o)
    ensures FieldsIn(o.data, all)
  {
    forall q: Obj | PointsTo(o.data, q, all) ensures q in all {
      FollowedIsPointed(all, g, o, q);
    }
    if o.data.Name? {
      forall k: nat ensures In(Below(o.data, k, all), all) {
        BelowIsKid(all, o, k);
      }
    }
  }

  lemma {:induction false} FramesHold(fs: seq<Frame>, q: Obj)
    ensures q in AllFrameRoots(fs) <==> SomeFrame(fs, q)
  {
    if fs != [] {
      var n := |fs| - 1;
      FramesHold(fs[..n], q);
      assert q in FrameRoots(fs[n]) <==> FrameHolds(fs[n], q);
      if SomeFrame(fs, q) {
        var i :| 0 <= i < |fs| && FrameHolds(fs[i], q);
        assert i < n ==> FrameHolds(fs[..n][i], q);
      }
      if SomeFrame(fs[..n], q) {
        var i :| 0 <= i < n && FrameHolds(fs[..n][i], q);
        assert FrameHolds(fs[i], q);
      }
    }
  }

  lemma {:induction false} FramesIn(fs: seq<Frame>, all: set<Obj>, i: nat)
    requires AllFrameRoots(fs) <= all && i < |fs|
    ensures FrameIn(fs[i], all)
  {
    var f := fs[i];
    forall q: Obj | FrameHolds(f, q) ensures q in all {
      FramesHold(fs, q);
    }
    assert forall k :: 0 <= k < |f.arg| && f.arg[k] != null ==> FrameHolds(f, f.arg[k]);
    assert f.env != null ==> FrameHolds(f, f.env);
    assert f.dot != null ==> FrameHolds(f, f.dot);
    assert f.ref != null ==> FrameHolds(f, f.ref);
  }

  lemma {:induction false} FieldsStay(all: set<Obj>, lst: seq<Obj>, g: Graph<Obj>)
    requires GraphOk(all, g) && SetOf(lst) <= all
    ensures forall i {:trigger lst[i]} :: 0 <= i < |lst| ==> FieldsIn(lst[i].data, all)
  {
    forall i | 0 <= i < |lst| ensures FieldsIn(lst[i].data, all) {
      assert lst[i] in SetOf(lst);
      assert ObjOk(all, g, lst[i]);
      FollowedAreIn(all, g, lst[i]);
    }
  }

  lemma {:induction false} FramesStay(fs: seq<Frame>, all: set<Obj>)
    requires AllFrameRoots(fs) <= all
    ensures forall i {:trigger fs[i]} :: 0 <= i < |fs| ==> FrameIn(fs[i], all)
  {
    forall i | 0 <= i < |fs| ensures FrameIn(fs[i], all) {
      FramesIn(fs, all, i);
    }
  }

  /** Every survivor is led to, field by field, from a root. */
  lemma {:induction false} SurvivorIsLedTo(lst: seq<Obj>, m: set<Obj>, g: Graph<Obj>, roots: set<Obj>, fs: seq<Frame>, root: Obj?, q: Obj) returns (c: seq<Obj>)
    requires Marks(g, roots, {}, m) && m <= SetOf(lst) && q in Keep(lst, m) && GraphOk(SetOf(Keep(lst, m)), g)
    requires roots == Pinned(SetOf(lst)) + AllFrameRoots(fs) + One(root)
    ensures LedBy(SetOf(Keep(lst, m)), fs, root, c, q)
  {
    var all := SetOf(Keep(lst, m));
    KeepSubset(lst, m);
    assert q in all && q in SetOf(lst);
    KeptExactly(lst, m, q);
    MarkedIsReachable(g, roots, m, q);
    var n: nat :| q in Within(g, roots, n);
    c := ChainTo(g, roots, q, n);
    forall k | 0 <= k < |c| ensures c[k] in all {
      MarkedIsReachable(g, roots, m, c[k]);
      KeptExactly(lst, m, c[k]);
    }
    FieldChain(all, g, c);
    FramesHold(fs, c[0]);
  }

  lemma {:induction false} SurvivorsAreLedTo(lst: seq<Obj>, m: set<Obj>, g: Graph<Obj>, roots: set<Obj>, fs: seq<Frame>, root: Obj?, n: nat) returns (cs: seq<seq<Obj>>)
    requires Marks(g, roots, {}, m) && m <= SetOf(lst) && n <= |Keep(lst, m)| && GraphOk(SetOf(Keep(lst, m)), g)
    requires roots == Pinned(SetOf(lst)) + AllFrameRoots(fs) + One(root)
    ensures |cs| == n && forall i {:trigger cs[i]} :: 0 <= i < n ==> LedBy(SetOf(Keep(lst, m)), fs, root, cs[i], Keep(lst, m)[i])
  {
    if n == 0 {
      cs := [];
    } else {
      cs := SurvivorsAreLedTo(lst, m, g, roots, fs, root, n - 1);
      var c := SurvivorIsLedTo(lst, m, g, roots, fs, root, Keep(lst, m)[n - 1]);
      cs := cs + [c];
    }
  }

  lemma {:induction false} FieldChain(all: set<Obj>, g: Graph<Obj>, c: seq<Obj>)
    requires GraphOk(all, g) && (forall k :: 0 <= k < |c| ==> c[k] in all)
    requires forall k {:trigger c[k]} :: 0 <= k < |c| - 1 ==> c[k] in g && c[k + 1] in g[c[k]]
    ensures forall k {:trigger c[k]} :: 0 <= k < |c| - 1 ==> PointsTo(c[k].data, c[k + 1], all)
  {
    forall k | 0 <= k < |c| - 1 ensures PointsTo(c[k].data, c[k + 1], all) {
      assert ObjOk(all, g, c[k]);
      FollowedIsPointed(all, g, c[k], c[k + 1]);
    }
  }

  /** Every object in use, on one list. */
  class Heap {
    var hp: Obj?
    ghost var list: seq<Obj>

    ghost predicate Valid()
      reads this, list`link
    {
      Chained(hp, list, null) && Distinct(list)
    }

    method ClearMarks()
      requires Valid()
      modifies list`mark
      ensures Marked(SetOf(list)) == {}
    {
      var h := hp;
      ghost var k := 0;
      while h != null
        invariant 0 <= k <= |list| && h == At(list, k) && Valid()
        invariant forall i :: 0 <= i < k ==> !list[i].mark
        decreases |list| - k
      {
        h.mark := false;
        NextAt(hp, list, k);
        h := h.link;
        k := k + 1;
      }
    }

    method MarkPinned(ghost g: Graph<Obj>)
      requires Valid() && GraphOk(SetOf(list), g)
      modifies SetOf(list)`mark
      ensures Marks(g, Pinned(SetOf(list)), old(Marked(SetOf(list))), Marked(SetOf(list)))
    {
      ghost var all := SetOf(list);
      ghost var m0 := Marked(all);
      var h := hp;
      ghost var k := 0;
      ghost var done: set<Obj> := {};
      MarksNothing(g, {}, m0);
      while h != null
        invariant 0 <= k <= |list| && h == At(list, k) && Valid()
        invariant Marks(g, done, m0, Marked(all))
        invariant forall i {:trigger list[i]} :: 0 <= i < k && list[i].pinned ==> list[i] in done
        invariant forall o :: o in done ==> o in all && o.pinned
        decreases |list| - k
      {
        ghost var m1 := Marked(all);
        assert h == list[k] && h in all;
        if h.pinned {
          GcMark(h, all, g);
          MarksThen(g, done, One(h), m0, m1, Marked(all));
          done := done + One(h);
        }
        NextAt(hp, list, k);
        h := h.link;
        k := k + 1;
      }
      assert done == Pinned(all);
    }

    /** What the interpreter holds on to: pinned objects, its frames, and the root name. */
    ghost function Roots(fs: seq<Frame>, root: Obj?): set<Obj>
      reads this, list`pinned
    {
      Pinned(SetOf(list)) + AllFrameRoots(fs) + One(root)
    }

    method MarkRoots(fs: seq<Frame>, root: Obj?, ghost g: Graph<Obj>)
      requires Valid() && GraphOk(SetOf(list), g) && AllFrameRoots(fs) <= SetOf(list) && One(root) <= SetOf(list)
      modifies SetOf(list)`mark
      ensures Marks(g, Roots(fs, root), {}, Marked(SetOf(list)))
    {
      ghost var all, pinned := SetOf(list), Pinned(SetOf(list));
      ClearMarks();
      MarkPinned(g);
      ghost var m1 := Marked(all);
      MarkFrames(fs, all, g);
      ghost var m2 := Marked(all);
      MarksThen(g, pinned, AllFrameRoots(fs), {}, m1, m2);
      GcMark(root, all, g);
      MarksThen(g, pinned + AllFrameRoots(fs), One(root), {}, m2, Marked(all));
    }

    /** The whole of `gc`, in terms of what `gcmark` follows. */
    method Collect(fs: seq<Frame>, root: Obj?, ghost g: Graph<Obj>) returns (n: nat, log: seq<Event>, ghost m: set<Obj>)
      requires Valid() && GraphOk(SetOf(list), g) && AllFrameRoots(fs) <= SetOf(list) && One(root) <= SetOf(list)
      modifies this, list`link, list`data, SetOf(list)`mark
      ensures Valid() && list == Keep(old(list), m) && GraphOk(SetOf(list), g)
      ensures KeptReached(old(list), m, g, old(Roots(fs, root))) && Marks(g, old(Roots(fs, root)), {}, m) && m <= SetOf(old(list))
      ensures forall i {:trigger list[i]} :: 0 <= i < |list| ==> list[i] in g && g[list[i]] <= SetOf(list)
      ensures log == SweepLog(old(list), m, old(Snapshot(SetOf(list)))) && n == |old(list)| - |list|
      ensures Safe(old(list), m, old(Snapshot(SetOf(list))))
    {
      ghost var all, lst, roots := SetOf(list), list, Roots(fs, root);
      ghost var snap := Snapshot(all);
      MarkRoots(fs, root, g);
      m := Marked(all);
      forall i | 0 <= i < |lst| ensures lst[i] in m <==> Reaches(g, roots, lst[i]) {
        MarkedIsReachable(g, roots, m, lst[i]);
      }
      assert Pinned(all) <= m;
      GraphIs(all, g);
      n, log := Sweep(m, snap);
      SurvivorsClosed(g, roots, m, lst);
      GraphStands(lst, m, g, snap);
    }

    /** `gc`: an object leaves the heap exactly when it cannot be reached from the pinned objects, the frames
        and the root.  No pointer field of a survivor, of a frame or of the root leads to an object that was freed, and
        every survivor is led to by such fields, as `cs` says. */
    method Gc(fs: seq<Frame>, root: Obj?, ghost g: Graph<Obj>) returns (n: nat, log: seq<Event>, ghost m: set<Obj>, ghost cs: seq<seq<Obj>>)
      requires Valid() && GraphOk(SetOf(list), g) && AllFrameRoots(fs) <= SetOf(list) && One(root) <= SetOf(list)
      modifies this, list`link, list`data, SetOf(list)`mark
      ensures Valid() && list == Keep(old(list), m) && GraphOk(SetOf(list), g)
      ensures KeptReached(old(list), m, g, old(Roots(fs, root)))
      ensures log == SweepLog(old(list), m, old(Snapshot(SetOf(list)))) && n == |old(list)| - |list|
      ensures Safe(old(list), m, old(Snapshot(SetOf(list))))
      ensures forall i {:trigger list[i]} :: 0 <= i < |list| ==> FieldsIn(list[i].data, SetOf(list))
      ensures (forall i {:trigger fs[i]} :: 0 <= i < |fs| ==> FrameIn(fs[i], SetOf(list))) && In(root, SetOf(list))
      ensures forall i {:trigger old(list)[i]} :: 0 <= i < |old(list)| && old(list)[i].pinned ==> old(list)[i] in list
      ensures |cs| == |list| && forall i {:trigger cs[i]} :: 0 <= i < |list| ==> LedBy(SetOf(list), fs, root, cs[i], list[i])
    {
      ghost var lst, roots := list, Roots(fs, root);
      n, log, m := Collect(fs, root, g);
      FieldsStay(SetOf(list), list, g);
      RootsStay(lst, m, g, roots);
      FramesStay(fs, SetOf(list));
      forall i | 0 <= i < |lst| && lst[i].pinned ensures lst[i] in list {
        assert lst[i] in roots;
      }
      cs := SurvivorsAreLedTo(lst, m, g, roots, fs, root, |list|);
    }

    /** `amltake`: the object is a root from now on, so it and whatever it leads to survive every collection. */
    method Amltake(p: Obj?, ghost fs: seq<Frame>, ghost root: Obj?, ghost g: Graph<Obj>)
      requires Valid() && One(p) <= SetOf(list)
      modifies One(p)`pinned
      ensures Valid() && Pinned(SetOf(list)) == old(Pinned(SetOf(list))) + One(p)
      ensures forall i {:trigger list[i]} :: 0 <= i < |list| && Reaches(g, One(p), list[i]) ==> Reaches(g, Roots(fs, root), list[i])
    {
      if p != null {
        p.pinned := true;
      }
      forall i | 0 <= i < |list| && Reaches(g, One(p), list[i]) ensures Reaches(g, Roots(fs, root), list[i]) {
        ReachesMore(g, One(p), Roots(fs, root), list[i]);
      }
    }

    /** `amldrop`: the object is a root no longer, and nothing else changes. */
    method Amldrop(p: Obj?)
      requires Valid() && One(p) <= SetOf(list)
      modifies One(p)`pinned
      ensures Valid() && Pinned(SetOf(list)) == old(Pinned(SetOf(list))) - One(p)
    {
      if p != null {
        p.pinned := false;
      }
    }

    /** Taking an object and collecting: it and all it leads to stay. */
    method TakeAndCollect(p: Obj, fs: seq<Frame>, root: Obj?, ghost g: Graph<Obj>)
      requires Valid() && GraphOk(SetOf(list), g) && p in list && AllFrameRoots(fs) <= SetOf(list) && One(root) <= SetOf(list)
      modifies this, list`link, list`data, p`pinned, SetOf(list)`mark
      ensures Valid() && GraphOk(SetOf(list), g) && p in list && AllFrameRoots(fs) <= SetOf(list) && One(root) <= SetOf(list)
      ensures forall i {:trigger old(list)[i]} :: 0 <= i < |old(list)| && Reaches(g, {p}, old(list)[i]) ==> old(list)[i] in list
      ensures Pinned(SetOf(list)) == old(Pinned(SetOf(list))) + {p}
    {
      Amltake(p, fs, root, g);
      ghost var all, roots := list, Roots(fs, root);
      var _, _, m := Collect(fs, root, g);
      RootsStay(all, m, g, roots);
      ReachedStay(all, m, g, roots, p);
      KeepSubset(all, m);
    }

    /** Dropping an object and collecting: it stays exactly if something else leads to it. */
    method DropAndCollect(p: Obj, fs: seq<Frame>, root: Obj?, ghost g: Graph<Obj>)
      requires Valid() && GraphOk(SetOf(list), g) && p in list && AllFrameRoots(fs) <= SetOf(list) && One(root) <= SetOf(list)
      modifies this, list`link, list`data, p`pinned, SetOf(list)`mark
      ensures Valid() && GraphOk(SetOf(list), g)
      ensures p in list <==> Reaches(g, old(Pinned(SetOf(list))) - {p} + AllFrameRoots(fs) + One(root), p)
    {
      Amldrop(p);
      ghost var all := list;
      var _, _, m := Collect(fs, root, g);
      KeptExactly(all, m, p);
    }

    /** The sweep: the list keeps the survivors, in order, and the log says what was unmapped and freed. */
    method Sweep(ghost m: set<Obj>, ghost snap: map<Obj, Data>) returns (n: nat, log: seq<Event>)
      requires Valid() && (forall o :: o in list ==> (o.mark || o.pinned <==> o in m)) && (forall o :: o in list ==> o in snap && snap[o] == o.data)
      modifies this, list`link, list`data
      ensures Valid() && list == Keep(old(list), m)
      ensures log == SweepLog(old(list), m, snap)
      ensures n == |old(list)| - |list|
      ensures Safe(old(list), m, snap)
    {
      ghost var all := list;
      var hn;
      ghost var kept, names;
      n, log, hn, kept, names := SweepList(m, snap);
      var c, ev := FreeNames(hn, names);
      log, n := log + ev, n + c;
      list := kept;
      KeepDistinct(all, m);
    }

    method SweepList(ghost m: set<Obj>, ghost snap: map<Obj, Data>) returns (n: nat, log: seq<Event>, hn: Obj?, ghost kept: seq<Obj>, ghost names: seq<Obj>)
      requires Valid() && (forall o :: o in list ==> (o.mark || o.pinned <==> o in m)) && (forall o :: o in list ==> o in snap && snap[o] == o.data)
      modifies this`hp, list`link, list`data
      ensures Covers(list, snap) && kept == Keep(list, m) && names == DeadNames(list, m, snap) && log == Swept(list, m, snap)
      ensures Chained(hp, kept, null) && Chained(hn, names, null) && Safe(list, m, snap) && n + |kept| + |names| == |list|
    {
      ghost var all := list;
      n, log, hn, kept, names := 0, [], null, [], [];
      var prev: Obj?, h := null, hp;
      ghost var k: nat := 0;
      StartSweeping(all, m, snap, hp);
      while h != null
        invariant Sweeping(all, m, snap, k, hp, prev, h, hn, kept, names)
        invariant log == Swept(all[..k], m, snap) && n + |kept| + |names| == k
        decreases |all| - k
      {
        var ev;
        prev, h, hn, ev, kept, names := SweepOne(all, m, snap, k, prev, h, hn, kept, names);
        n := n + if ev == [] then 0 else 1;
        log := log + ev;
        k := k + 1;
      }
      assert all[..k] == all;
    }

    /** One object of the list. */
    method SweepOne(ghost all: seq<Obj>, ghost m: set<Obj>, ghost snap: map<Obj, Data>, ghost k: nat, prev0: Obj?, h0: Obj, hn0: Obj?, ghost kept0: seq<Obj>, ghost names0: seq<Obj>)
      returns (prev: Obj?, h: Obj?, hn: Obj?, ev: seq<Event>, ghost kept: seq<Obj>, ghost names: seq<Obj>)
      requires Sweeping(all, m, snap, k, hp, prev0, h0, hn0, kept0, names0) && Distinct(all) && (h0.mark || h0.pinned <==> h0 in m)
      modifies this`hp, all`link, all`data
      ensures k < |all| && Sweeping(all, m, snap, k + 1, hp, prev, h, hn, kept, names)
      ensures Swept(all[..k + 1], m, snap) == Swept(all[..k], m, snap) + ev
      ensures |kept| + |names| + (if ev == [] then 0 else 1) == |kept0| + |names0| + 1
    {
      Passed(all, m, snap, k);
      assert AheadAt(all, snap, k);
      if h0.mark || h0.pinned {
        Pass(all, m, snap, k, prev0, h0, hn0, kept0, names0);
        prev, h, hn, ev, kept, names := h0, h0.link, hn0, [], kept0 + [h0], names0;
      } else {
        h, hn, ev := DropDead(all, m, snap, k, prev0, h0, hn0, kept0, names0);
        prev, kept, names := prev0, kept0, DeadNames(all[..k + 1], m, snap);
      }
    }

    /** One dead object. */
    method DropDead(ghost all: seq<Obj>, ghost m: set<Obj>, ghost snap: map<Obj, Data>, ghost k: nat, prev: Obj?, h: Obj, hn0: Obj?, ghost kept: seq<Obj>, ghost names: seq<Obj>)
      returns (next: Obj?, hn: Obj?, ev: seq<Event>)
      requires Sweeping(all, m, snap, k, hp, prev, h, hn0, kept, names) && Distinct(all) && h !in m && h == all[k]
      modifies this`hp, all`link, all`data
      ensures Sweeping(all, m, snap, k + 1, hp, prev, next, hn, kept, DeadNames(all[..k + 1], m, snap))
      ensures ev == SweptOne(h, m, snap) && |DeadNames(all[..k + 1], m, snap)| + (if ev == [] then 0 else 1) == |names| + 1
    {
      Passed(all, m, snap, k);
      assert AheadAt(all, snap, k);
      next := h.link;
      Cut(all, m, snap, k, prev, h, hn0, kept, names);
      hn, ev := PutAside(all, m, snap, k, h, next, hn0, kept, names);
    }

    /** Discard an object that has been cut out. */
    method PutAside(ghost all: seq<Obj>, ghost m: set<Obj>, ghost snap: map<Obj, Data>, ghost k: nat, h: Obj, ghost next: Obj?, hn0: Obj?, ghost kept: seq<Obj>, ghost names: seq<Obj>)
      returns (hn: Obj?, ev: seq<Event>)
      requires Covers(all, snap) && k < |all| && h == all[k] && h !in m && Distinct(all) && h !in kept && h !in names
      requires Ahead(all, snap, k) && Safe(all, m, snap) && Chained(hp, kept, next) && Chained(hn0, names, null)
      modifies h`link, h`data
      ensures Ahead(all, snap, k + 1) && Safe(all, m, snap) && Chained(hp, kept, next)
      ensures Chained(hn, (if snap[h].Name? then [h] else []) + names, null) && ev == SweptOne(h, m, snap)
    {
      assert AheadAt(all, snap, k);
      label L:
      hn, ev := Discard(h, hn0);
      forall i | k + 1 <= i < |all| ensures AheadAt(all, snap, i) {
        assert old@L(AheadAt(all, snap, i)) && Apart(all, k, i);
      }
      forall i | 0 <= i < |all| ensures SafeAt(all, m, snap, i) {
        assert old@L(SafeAt(all, m, snap, i));
      }
      forall i | 0 <= i < |kept| ensures LinkAt(kept, i, next) {
        assert old@L(LinkAt(kept, i, next));
      }
      forall i | 0 <= i < |names| ensures LinkAt(names, i, null) {
        assert old@L(LinkAt(names, i, null));
      }
      if snap[h].Name? {
        ChainPrepend(h, names);
      } else {
        assert [] + names == names;
      }
    }

    /** Keep an object: the next link to look at is its own. */
    ghost method Pass(all: seq<Obj>, m: set<Obj>, snap: map<Obj, Data>, k: nat, prev: Obj?, h: Obj, hn: Obj?, kept: seq<Obj>, names: seq<Obj>)
      requires Sweeping(all, m, snap, k, hp, prev, h, hn, kept, names) && Distinct(all) && h in m
      ensures Sweeping(all, m, snap, k + 1, hp, h, h.link, hn, kept + [h], names)
    {
      Passed(all, m, snap, k);
      assert AheadAt(all, snap, k);
      ChainAppend(hp, kept, h);
    }

    /** Take an object off the list: the link that led to it now leads past it. */
    method Cut(ghost all: seq<Obj>, ghost m: set<Obj>, ghost snap: map<Obj, Data>, ghost k: nat, prev: Obj?, h: Obj, ghost hn: Obj?, ghost kept: seq<Obj>, ghost names: seq<Obj>)
      requires Sweeping(all, m, snap, k, hp, prev, h, hn, kept, names) && Distinct(all) && h !in m
      modifies this`hp, kept`link
      ensures Chained(hp, kept, h.link) && h.link == old(h.link) && Chained(hn, names, null)
      ensures Ahead(all, snap, k) && Safe(all, m, snap)
    {
      Passed(all, m, snap, k);
      if prev == null {
        hp := h.link;
      } else {
        DistinctPrefix(all, k);
        KeepDistinct(all[..k], m);
        assert prev == kept[|kept| - 1];
        LeadPast(all, m, snap, k, prev, h, hn, kept, names, hp);
      }
    }
  }

  /** Make the last of the objects kept lead past `h`. */
  method LeadPast(ghost all: seq<Obj>, ghost m: set<Obj>, ghost snap: map<Obj, Data>, ghost k: nat, prev: Obj, h: Obj, ghost hn: Obj?, ghost kept: seq<Obj>, ghost names: seq<Obj>, ghost first: Obj?)
    requires kept != [] && prev == kept[|kept| - 1] && Distinct(kept) && Chained(first, kept, h) && prev != h
    requires Ahead(all, snap, k) && Safe(all, m, snap) && Chained(hn, names, null)
    requires Earlier(prev, all, k) && forall i {:trigger names[i]} :: 0 <= i < |names| ==> names[i] != prev
    modifies prev`link
    ensures Chained(first, kept, h.link) && h.link == old(h.link) && Ahead(all, snap, k) && Safe(all, m, snap) && Chained(hn, names, null)
  {
    ghost var n := |kept| - 1;
    forall i | 0 <= i < n ensures kept[i].link == kept[i + 1] && kept[i] != prev {
      assert LinkAt(kept, i, h) && Apart(kept, i, n);
    }
    prev.link := h.link;
    forall i | 0 <= i < |kept| ensures LinkAt(kept, i, h.link) {
    }
    forall i | k <= i < |all| ensures AheadAt(all, snap, i) {
      assert old(AheadAt(all, snap, i));
    }
    forall i | 0 <= i < |names| ensures LinkAt(names, i, null) {
      assert old(LinkAt(names, i, null));
    }
    forall i | 0 <= i < |all| ensures SafeAt(all, m, snap, i) {
      assert old(SafeAt(all, m, snap, i));
    }
  }

  /** The frees of the names put aside. */
  method FreeNames(hn0: Obj?, ghost names: seq<Obj>) returns (n: nat, ev: seq<Event>)
    requires Chained(hn0, names, null)
    ensures n == |names| && ev == Frees(names)
  {
    var hn := hn0;
    n, ev := 0, [];
    while hn != null
      invariant n <= |names| && hn == At(names, n) && Chained(hn0, names, null)
      invariant ev + Frees(names[n..]) == Frees(names)
      decreases |names| - n
    {
      NextAt(hn0, names, n);
      assert names[n..][1..] == names[n + 1..];
      ev := ev + [Free(hn)];
      hn := hn.link;
      n := n + 1;
    }
    assert names[n..] == [];
  }

  /** What happens to a dead object: a name is put aside, a region is unmapped, everything else is freed at once. */
  method Discard(h: Obj, hn0: Obj?) returns (hn: Obj?, ev: seq<Event>)
    modifies h`link, h`data
    ensures old(h.data).Name? ==> hn == h && h.link == hn0 && ev == []
    ensures !old(h.data).Name? ==> hn == hn0 && h.link == old(h.link)
    ensures forall m: set<Obj>, snap: map<Obj, Data> {:trigger SweptOne(h, m, snap)} :: h !in m && h in snap && snap[h] == old(h.data) ==> ev == SweptOne(h, m, snap)
  {
    hn, ev := hn0, [];
    if h.data.Name? {
      h.data := h.data.(v := null);
      h.link := hn;
      hn := h;
      return;
    }
    if h.data.Region? {
      if h.data.mapped > 0 {
        ev := [Unmap(h)];
      }
      h.data := h.data.(mapped := 0);
    }
    ev := ev + [Free(h)];
  }

  ghost predicate WasKid(kids: seq<Obj>, snap: map<Obj, Data>, i: int)
    requires 0 <= i < |kids|
  {
    kids[i] in snap && snap[kids[i]].Name? && snap[kids[i]].next == At(kids, i + 1)
  }

  /** Graph `g` says what `gcmark` followed from `o` when it held `snap[o]`. */
  ghost predicate WasOk(g: Graph<Obj>, snap: map<Obj, Data>, o: Obj)
    reads o`kids
  {
    && o in g && o in snap && g[o] == Follows(snap[o], o.kids) && (!snap[o].Name? ==> o.kids == [])
    && (snap[o].Name? ==> snap[o].down == At(o.kids, 0) && forall i {:trigger WasKid(o.kids, snap, i)} :: 0 <= i < |o.kids| ==> WasKid(o.kids, snap, i))
  }

  ghost predicate GraphWas(all: set<Obj>, g: Graph<Obj>, snap: map<Obj, Data>)
    reads all`kids
  {
    forall o {:trigger WasOk(g, snap, o)} :: o in all ==> WasOk(g, snap, o)
  }

  lemma {:induction false} GraphIs(all: set<Obj>, g: Graph<Obj>)
    requires GraphOk(all, g)
    ensures GraphWas(all, g, Snapshot(all))
  {
    var snap := Snapshot(all);
    forall o | o in all ensures WasOk(g, snap, o) {
      assert ObjOk(all, g, o);
      if o.data.Name? {
        forall i | 0 <= i < |o.kids| ensures WasKid(o.kids, snap, i) {
          assert KidAt(o.kids, i);
        }
      }
    }
  }

  lemma {:induction false} SurvivorIs(lst: seq<Obj>, m: set<Obj>, snap: map<Obj, Data>, o: Obj)
    requires o in Keep(lst, m) && Safe(lst, m, snap)
    ensures o in lst && o in snap && o.data == snap[o]
  {
    KeepIs(lst, m);
    var i :| 0 <= i < |Keep(lst, m)| && Keep(lst, m)[i] == o;
    assert Among(Keep(lst, m)[i], lst);
    var j :| 0 <= j < |lst| && lst[j] == o;
    assert SafeAt(lst, m, snap, j);
  }

  /** A survivor has the pointers it had, and what they lead to is there. */
  lemma {:induction false} ObjStands(kept: set<Obj>, g: Graph<Obj>, snap: map<Obj, Data>, o: Obj)
    requires o in kept && WasOk(g, snap, o) && g[o] <= kept && forall x :: x in kept ==> x in snap && x.data == snap[x]
    ensures (forall k :: k in o.kids ==> k in kept) && ObjOk(kept, g, o)
  {
    if o.data.Name? {
      forall i | 0 <= i < |o.kids| ensures o.kids[i] in kept && KidAt(o.kids, i) {
        assert WasKid(o.kids, snap, i);
        assert o.kids[i] in NonNull(o.kids);
      }
    }
  }

  lemma {:induction false} GraphStands(lst: seq<Obj>, m: set<Obj>, g: Graph<Obj>, snap: map<Obj, Data>)
    requires GraphWas(SetOf(lst), g, snap) && Safe(lst, m, snap)
    requires forall i {:trigger Keep(lst, m)[i]} :: 0 <= i < |Keep(lst, m)| ==> Keep(lst, m)[i] in g && g[Keep(lst, m)[i]] <= SetOf(Keep(lst, m))
    ensures GraphOk(SetOf(Keep(lst, m)), g)
  {
    var t := Keep(lst, m);
    forall x | x in SetOf(t) ensures x in snap && x.data == snap[x] && x in lst {
      SurvivorIs(lst, m, snap, x);
    }
    forall o | o in SetOf(t) ensures (forall k :: k in o.kids ==> k in SetOf(t)) && ObjOk(SetOf(t), g, o) {
      var i :| 0 <= i < |t| && t[i] == o;
      assert WasOk(g, snap, o) && g[t[i]] <= SetOf(t);
      ObjStands(SetOf(t), g, snap, o);
    }
  }

  ghost predicate KeptReached(all: seq<Obj>, m: set<Obj>, g: Graph<Obj>, roots: set<Obj>) {
    forall i {:trigger all[i]} :: 0 <= i < |all| ==> (all[i] in m <==> Reaches(g, roots, all[i]))
  }

  lemma {:induction false} KeptExactly(all: seq<Obj>, m: set<Obj>, o: Obj)
    requires o in all
    ensures o in Keep(all, m) <==> o in m
  {
    KeepIs(all, m);
    var i :| 0 <= i < |all| && all[i] == o;
    if o in m {
      assert Among(all[i], Keep(all, m));
    }
    if o in Keep(all, m) {
      var j :| 0 <= j < |Keep(all, m)| && Keep(all, m)[j] == o;
      assert Keep(all, m)[j] in m;
    }
  }

  lemma {:induction false} KeepSubset(all: seq<Obj>, m: set<Obj>)
    ensures SetOf(Keep(all, m)) <= SetOf(all)
  {
    KeepIs(all, m);
    forall o | o in SetOf(Keep(all, m)) ensures o in SetOf(all) {
      var i :| 0 <= i < |Keep(all, m)| && Keep(all, m)[i] == o;
      assert Among(Keep(all, m)[i], all);
    }
  }

  /** The roots of a collection are among the survivors, ... */
  lemma {:induction false} RootsStay(all: seq<Obj>, m: set<Obj>, g: Graph<Obj>, roots: set<Obj>)
    requires KeptReached(all, m, g, roots) && roots <= SetOf(all)
    ensures roots <= SetOf(Keep(all, m))
  {
    forall o | o in roots ensures o in SetOf(Keep(all, m)) {
      var i :| 0 <= i < |all| && all[i] == o;
      assert o in Within(g, roots, 0);
      KeptExactly(all, m, o);
    }
  }

  /** ... and so is whatever one of them leads to. */
  lemma {:induction false} ReachedStay(all: seq<Obj>, m: set<Obj>, g: Graph<Obj>, roots: set<Obj>, p: Obj)
    requires KeptReached(all, m, g, roots) && p in roots
    ensures forall i {:trigger all[i]} :: 0 <= i < |all| && Reaches(g, {p}, all[i]) ==> all[i] in Keep(all, m)
  {
    forall i | 0 <= i < |all| && Reaches(g, {p}, all[i]) ensures all[i] in Keep(all, m) {
      ReachesMore(g, {p}, roots, all[i]);
      KeptExactly(all, m, all[i]);
    }
  }

  /** What a survivor points to survives. */
  lemma {:induction false} SurvivorsClosed(g: Graph<Obj>, roots: set<Obj>, m: set<Obj>, s: seq<Obj>)
    requires Marks(g, roots, {}, m) && m <= SetOf(s)
    ensures forall i {:trigger Keep(s, m)[i]} :: 0 <= i < |Keep(s, m)| ==> Keep(s, m)[i] in g && g[Keep(s, m)[i]] <= SetOf(Keep(s, m))
  {
    var t := Keep(s, m);
    KeepIs(s, m);
    forall i | 0 <= i < |t| ensures t[i] in g && g[t[i]] <= SetOf(t) {
      assert NewMark(g, roots, m, t[i]);
      forall y | y in g[t[i]] ensures y in SetOf(t) {
        assert y in SetOf(s);
        var j :| 0 <= j < |s| && s[j] == y;
        var k :| 0 <= k < |t| && t[k] == s[j];
      }
    }
  }

  lemma {:induction false} KeepDistinct(s: seq<Obj>, m: set<Obj>)
    requires Distinct(s)
    ensures Distinct(Keep(s, m))
  {
    if s != [] {
      var n := |s| - 1;
      DistinctPrefix(s, n);
      KeepDistinct(s[..n], m);
      KeepIs(s[..n], m);
      var r, t := Keep(s[..n], m), Keep(s, m);
      forall i, j | 0 <= i < j < |t| ensures Apart(t, i, j) {
        if j < |r| {
          assert Apart(r, i, j);
        } else {
          var c :| 0 <= c < n && s[..n][c] == r[i];
        }
      }
    }
  }

  /** Object `i` of the list is as it was. */
  ghost predicate AheadAt(all: seq<Obj>, snap: map<Obj, Data>, i: int)
    requires 0 <= i < |all|
    reads all`link, all`data
  {
    all[i] in snap && all[i].link == At(all, i + 1) && all[i].data == snap[all[i]]
  }

  ghost predicate Ahead(all: seq<Obj>, snap: map<Obj, Data>, k: nat)
    reads all`link, all`data
  {
    k <= |all| && forall i {:trigger AheadAt(all, snap, i)} :: k <= i < |all| ==> AheadAt(all, snap, i)
  }

  ghost predicate SafeAt(all: seq<Obj>, m: set<Obj>, snap: map<Obj, Data>, i: int)
    requires 0 <= i < |all|
    reads all`data
  {
    all[i] in m ==> all[i] in snap && all[i].data == snap[all[i]]
  }

  /** The contents of the survivors are as they were. */
  ghost predicate Safe(all: seq<Obj>, m: set<Obj>, snap: map<Obj, Data>)
    reads all`data
  {
    forall i {:trigger SafeAt(all, m, snap, i)} :: 0 <= i < |all| ==> SafeAt(all, m, snap, i)
  }

  ghost predicate Covers(all: seq<Obj>, snap: map<Obj, Data>) { forall o :: o in all ==> o in snap }

  /** Part way through the sweep of the list `all`: `k` objects have been passed. */
  ghost predicate Sweeping(all: seq<Obj>, m: set<Obj>, snap: map<Obj, Data>, k: nat, first: Obj?, prev: Obj?, h: Obj?, hn: Obj?, kept: seq<Obj>, names: seq<Obj>)
    reads all`link, all`data, kept`link, names`link
  {
    && Covers(all, snap) && Ahead(all, snap, k) && Safe(all, m, snap) && h == At(all, k)
    && kept == Keep(all[..k], m) && Chained(first, kept, h) && prev == (if kept == [] then null else kept[|kept| - 1])
    && names == DeadNames(all[..k], m, snap) && Chained(hn, names, null)
  }

  lemma StartSweeping(all: seq<Obj>, m: set<Obj>, snap: map<Obj, Data>, hp: Obj?)
    requires Chained(hp, all, null) && (forall o :: o in all ==> o in snap && snap[o] == o.data)
    ensures Sweeping(all, m, snap, 0, hp, null, hp, null, [], [])
  {
    forall i | 0 <= i < |all| ensures AheadAt(all, snap, i) && SafeAt(all, m, snap, i) {
      NextAt(hp, all, i);
    }
    assert all[..0] == [];
  }

  /** The objects passed are not among those to come. */
  lemma {:induction false} Passed(all: seq<Obj>, m: set<Obj>, snap: map<Obj, Data>, k: nat)
    requires k < |all| && Distinct(all) && (forall o :: o in all ==> o in snap)
    ensures forall i {:trigger Keep(all[..k], m)[i]} :: 0 <= i < |Keep(all[..k], m)| ==> Earlier(Keep(all[..k], m)[i], all, k) && Keep(all[..k], m)[i] in m
    ensures forall i {:trigger DeadNames(all[..k], m, snap)[i]} :: 0 <= i < |DeadNames(all[..k], m, snap)| ==> Earlier(DeadNames(all[..k], m, snap)[i], all, k) && DeadNames(all[..k], m, snap)[i] !in m
    ensures Keep(all[..k + 1], m) == Keep(all[..k], m) + if all[k] in m then [all[k]] else []
    ensures DeadNames(all[..k + 1], m, snap) == (if all[k] !in m && snap[all[k]].Name? then [all[k]] else []) + DeadNames(all[..k], m, snap)
    ensures Swept(all[..k + 1], m, snap) == Swept(all[..k], m, snap) + SweptOne(all[k], m, snap)
  {
    var p := all[..k];
    assert all[..k + 1][..k] == p;
    KeepIs(p, m);
    DeadNamesAre(p, m, snap);
    forall i | 0 <= i < |Keep(p, m)| ensures Earlier(Keep(p, m)[i], all, k) {
      AmongIsEarlier(Keep(p, m)[i], all, k);
    }
    forall i | 0 <= i < |DeadNames(p, m, snap)| ensures Earlier(DeadNames(p, m, snap)[i], all, k) {
      AmongIsEarlier(DeadNames(p, m, snap)[i], all, k);
    }
  }

  ghost predicate Earlier(o: Obj, all: seq<Obj>, k: nat) { o in all && forall i {:trigger all[i]} :: k <= i < |all| ==> all[i] != o }

  lemma AmongIsEarlier(o: Obj, all: seq<Obj>, k: nat)
    requires k <= |all| && Distinct(all) && Among(o, all[..k])
    ensures Earlier(o, all, k)
  {
    var j :| 0 <= j < k && all[..k][j] == o;
    assert all[j] == o;
    forall i | k <= i < |all| ensures all[i] != o {
      assert Apart(all, j, i);
    }
  }

  method MarkFrame(f: Frame, ghost all: set<Obj>, ghost g: Graph<Obj>)
    requires GraphOk(all, g) && FrameRoots(f) <= all
    modifies all`mark
    ensures Marks(g, FrameRoots(f), old(Marked(all)), Marked(all))
  {
    ghost var m0 := Marked(all);
    MarkAll(f.arg, all, g);
    ghost var m1 := Marked(all);
    MarkThree(f.env, f.dot, f.ref, all, g);
    MarksThen(g, NonNull(f.arg), One(f.env) + One(f.dot) + One(f.ref), m0, m1, Marked(all));
    assert FrameRoots(f) == NonNull(f.arg) + (One(f.env) + One(f.dot) + One(f.ref));
  }

  /** The frames from the innermost, last in `fs`, outwards. */
  method MarkFrames(fs: seq<Frame>, ghost all: set<Obj>, ghost g: Graph<Obj>)
    requires GraphOk(all, g) && AllFrameRoots(fs) <= all
    modifies all`mark
    ensures Marks(g, AllFrameRoots(fs), old(Marked(all)), Marked(all))
  {
    ghost var m0 := Marked(all);
    var i := |fs|;
    assert fs[..i] == fs;
    ghost var done: set<Obj> := {};
    MarksNothing(g, {}, m0);
    while i > 0
      invariant 0 <= i <= |fs| && Marks(g, done, m0, Marked(all))
      invariant AllFrameRoots(fs) == AllFrameRoots(fs[..i]) + done
    {
      i := i - 1;
      ghost var m1 := Marked(all);
      assert fs[..i + 1][..i] == fs[..i];
      MarkFrame(fs[i], all, g);
      MarksThen(g, done, FrameRoots(fs[i]), m0, m1, Marked(all));
      done := done + FrameRoots(fs[i]);
    }
    assert fs[..0] == [];
  }
}
