/**
 The table optimizer at the end of yacc: `callopt`, `nxti`, `stin`, `gin`, and the
 `yychk` array written by `others`.

 The shift rows of all states and the goto rows of all nonterminals are laid over each
 other in the single array `amem`.  A row owns no cells: what makes a cell readable is
 that the state number stored in it has exactly one accessing symbol (`yychk`).
 */
module YaccTables {
  import opened YaccSizes

  const YYFLAG1 := -1000
  const NOMORE := -1000

  /** One `symbol,target` pair of a row: the symbol is a token (shift rows) or a state (goto rows). */
  datatype Entry = Entry(sym: nat, target: nat)

  /** The goto row of a nonterminal: exceptions indexed by state, then the default target. */
  datatype GotoRow = GotoRow(entries: seq<Entry>, dflt: nat)

  /** Everything read back from the temporary file, plus the accessing symbol of each state:
      a token number, or minus a nonterminal number. */
  datatype Rows = Rows(shift: seq<seq<Entry>>, goto: seq<GotoRow>, acc: seq<int>)

  ghost predicate Ascending(r: seq<Entry>) {
    forall a, b :: 0 <= a < b < |r| ==> r[a].sym < r[b].sym
  }

  ghost predicate ShiftRowOk(r: seq<Entry>, acc: seq<int>) {
    && Ascending(r)
    && forall e :: e in r ==> 1 <= e.sym < NTERMS && 1 <= e.target < |acc| && acc[e.target] == e.sym
  }

  ghost predicate GotoRowOk(g: GotoRow, a: int, acc: seq<int>) {
    && Ascending(g.entries)
    && (forall e :: e in g.entries ==> e.sym < |acc| && 1 <= e.target < |acc| && acc[e.target] == -a)
    && g.dflt < |acc|
    && (g.dflt != 0 ==> acc[g.dflt] == -a)
    && (g.dflt == 0 ==> g.entries == [])
  }

  /** `goto[0]` stands for the unused nonterminal 0. */
  ghost predicate RowsOk(w: Rows) {
    && |w.shift| == |w.acc| && 1 <= |w.acc| <= NSTATES
    && 1 <= |w.goto| <= NNONTERM
    && (forall i {:trigger ShiftRowOk(w.shift[i], w.acc)} :: 0 <= i < |w.shift| ==> ShiftRowOk(w.shift[i], w.acc))
    && (forall a {:trigger GotoRowOk(w.goto[a], a, w.acc)} :: 1 <= a < |w.goto| ==> GotoRowOk(w.goto[a], a, w.acc))
  }

  // ----- what the finished tables mean -----

  /** The value of cell `c`; outside the array there is nothing to read. */
  function Cell(amem: seq<int>, c: int): int {
    if 0 <= c < |amem| then amem[c] else 0
  }

  /** The shift a parser finds for token `t` in a state placed at `off`. */
  function ShiftAt(amem: seq<int>, off: int, chk: seq<int>, t: int): (v: int) {
    if off == YYFLAG1 then 0 else
    var v := Cell(amem, off + t);
    if 0 < v < |chk| && chk[v] == t then v else 0
  }

  /** The goto a parser finds for nonterminal `a` in state `s`. */
  function GotoAt(amem: seq<int>, off: int, chk: seq<int>, a: int, s: int): (v: int) {
    var v := Cell(amem, off + s + 1);
    if 0 < v < |chk| && chk[v] == -a then v else Cell(amem, off)
  }

  /** The target a row gives for a symbol, 0 when the symbol is not listed. */
  function RowTarget(r: seq<Entry>, s: int): nat {
    if r == [] then 0 else if r[0].sym == s then r[0].target else RowTarget(r[1..], s)
  }

  lemma {:induction false} RowTargetListed(r: seq<Entry>, e: Entry)
    requires Ascending(r) && e in r
    ensures RowTarget(r, e.sym) == e.target
  {
    if r[0] != e {
      assert e in r[1..];
      var k :| 0 <= k < |r| && r[k] == e;
      assert r[0].sym < r[k].sym;
      RowTargetListed(r[1..], e);
    }
  }

  lemma {:induction false} RowTargetAbsent(r: seq<Entry>, s: int)
    requires RowTarget(r, s) != 0
    ensures exists e :: e in r && e.sym == s && e.target == RowTarget(r, s)
  {
    if r[0].sym == s {
      assert r[0] in r;
    } else {
      RowTargetAbsent(r[1..], s);
      var e :| e in r[1..] && e.sym == s && e.target == RowTarget(r[1..], s);
      assert e in r;
    }
  }

  // ----- the invariant of the packing -----

  /** The arrays being filled, with the set of nonterminals whose row has been entered. */
  datatype Tables = Tables(amem: seq<int>, indgo: seq<int>, pgo: seq<int>, done: set<int>)

  /** Every entry of the row is in the cell that the offset names. */
  ghost predicate ShiftPlaced(r: seq<Entry>, amem: seq<int>, off: int) {
    && off > -NTERMS
    && forall e :: e in r ==> 0 <= off + e.sym < |amem| && amem[off + e.sym] == e.target
  }

  ghost predicate GotoPlaced(g: GotoRow, amem: seq<int>, off: int) {
    && 0 <= off < |amem|
    && (g.dflt != 0 ==> amem[off] == g.dflt)
    && forall e :: e in g.entries ==> off + e.sym + 1 < |amem| && amem[off + e.sym + 1] == e.target
  }

  /** The value `v` in cell `c` was put there for state `j`. */
  ghost predicate FromShift(w: Rows, t: Tables, c: int, v: int, j: int)
    requires 0 <= v < |w.acc| && w.acc[v] > 0
  {
    && 0 <= j < |t.indgo| && j < |w.shift|
    && t.indgo[j] != YYFLAG1
    && t.indgo[j] == c - w.acc[v]
    && Entry(w.acc[v], v) in w.shift[j]
  }

  /** The value `v` in cell `c` was put there for the nonterminal that accesses state `v`. */
  ghost predicate FromGoto(w: Rows, t: Tables, c: int, v: int)
    requires 0 <= v < |w.acc|
  {
    var a := -w.acc[v];
    && 1 <= a < |w.goto| && a < |t.pgo| && a in t.done
    && ((c == t.pgo[a] && v == w.goto[a].dflt)
        || (c - t.pgo[a] - 1 >= 0 && Entry(c - t.pgo[a] - 1, v) in w.goto[a].entries))
  }

  ghost predicate CellOk(w: Rows, t: Tables, c: int, v: int) {
    v != 0 ==>
      && 0 < v < |w.acc|
      && (w.acc[v] > 0 ==> exists j :: FromShift(w, t, c, v, j))
      && (w.acc[v] <= 0 ==> FromGoto(w, t, c, v))
  }

  ghost predicate StatesPlaced(w: Rows, t: Tables)
    requires |t.indgo| == |w.shift|
  {
    && (forall j {:trigger ShiftPlaced(w.shift[j], t.amem, t.indgo[j])} ::
          0 <= j < |t.indgo| && t.indgo[j] != YYFLAG1 ==> ShiftPlaced(w.shift[j], t.amem, t.indgo[j]))
    && (forall j, k :: 0 <= j < |t.indgo| && 0 <= k < |t.indgo| && t.indgo[j] != YYFLAG1 && t.indgo[j] == t.indgo[k]
          ==> w.shift[j] == w.shift[k])
  }

  ghost predicate GotosPlaced(w: Rows, t: Tables)
    requires |t.pgo| == |w.goto|
  {
    forall a {:trigger a in t.done} :: a in t.done ==> 1 <= a < |t.pgo| && GotoPlaced(w.goto[a], t.amem, t.pgo[a])
  }

  /** What every step of the packing keeps. */
  ghost predicate Packed(w: Rows, t: Tables) {
    && |t.indgo| == |w.shift|
    && |t.pgo| == |w.goto|
    && StatesPlaced(w, t)
    && GotosPlaced(w, t)
    && (forall c {:trigger CellOk(w, t, c, t.amem[c])} :: 0 <= c < |t.amem| ==> CellOk(w, t, c, t.amem[c]))
  }

  // ----- reading the tables back -----

  /** A shift found by the lookup is an entry of the state's own row. */
  lemma {:induction false} ShiftFoundIsListed(w: Rows, t: Tables, i: int, s: int)
    requires RowsOk(w) && Packed(w, t)
    requires 0 <= i < |t.indgo| && s >= 1 && ShiftAt(t.amem, t.indgo[i], w.acc, s) != 0
    ensures Entry(s, ShiftAt(t.amem, t.indgo[i], w.acc, s)) in w.shift[i]
  {
    var c := t.indgo[i] + s;
    var v := t.amem[c];
    assert CellOk(w, t, c, v);
    var j :| FromShift(w, t, c, v, j);
    assert t.indgo[j] == t.indgo[i];
  }

  lemma {:induction false} ShiftListedIsFound(w: Rows, t: Tables, i: int, e: Entry)
    requires RowsOk(w) && Packed(w, t)
    requires 0 <= i < |t.indgo| && e in w.shift[i] && t.indgo[i] != YYFLAG1
    ensures ShiftAt(t.amem, t.indgo[i], w.acc, e.sym) == e.target
  {
    assert ShiftPlaced(w.shift[i], t.amem, t.indgo[i]);
    assert ShiftRowOk(w.shift[i], w.acc);
  }

  /** The shift table is exact: for every placed state and every token the lookup returns the
      row's own target, and 0 (no shift) for every token the row does not list. */
  lemma {:induction false} ShiftReadsBack(w: Rows, t: Tables, i: int, s: int)
    requires RowsOk(w) && Packed(w, t)
    requires 0 <= i < |t.indgo| && s >= 1
    requires t.indgo[i] != YYFLAG1 || w.shift[i] == []
    ensures ShiftAt(t.amem, t.indgo[i], w.acc, s) == RowTarget(w.shift[i], s)
  {
    var r := w.shift[i];
    var found := ShiftAt(t.amem, t.indgo[i], w.acc, s);
    assert Ascending(r) by { assert ShiftRowOk(r, w.acc); }
    if found != 0 {
      ShiftFoundIsListed(w, t, i, s);
      RowTargetListed(r, Entry(s, found));
    } else if RowTarget(r, s) != 0 {
      RowTargetAbsent(r, s);
      ShiftListedIsFound(w, t, i, Entry(s, RowTarget(r, s)));
    }
  }

  lemma {:induction false} GotoFoundIsListed(w: Rows, t: Tables, a: int, s: int)
    requires RowsOk(w) && Packed(w, t)
    requires a in t.done && s >= 0
    requires var v := Cell(t.amem, t.pgo[a] + s + 1); 0 < v < |w.acc| && w.acc[v] == -a
    ensures Entry(s, Cell(t.amem, t.pgo[a] + s + 1)) in w.goto[a].entries
  {
    var c := t.pgo[a] + s + 1;
    assert CellOk(w, t, c, t.amem[c]);
  }

  lemma {:induction false} GotoListedIsFound(w: Rows, t: Tables, a: int, e: Entry)
    requires RowsOk(w) && Packed(w, t)
    requires a in t.done && e in w.goto[a].entries
    ensures GotoAt(t.amem, t.pgo[a], w.acc, a, e.sym) == e.target != 0
  {
    assert GotoPlaced(w.goto[a], t.amem, t.pgo[a]);
    assert GotoRowOk(w.goto[a], a, w.acc);
  }

  /** The goto table is exact: a listed state gives its own target, any other state the default. */
  lemma {:induction false} GotoReadsBack(w: Rows, t: Tables, a: int, s: int)
    requires RowsOk(w) && Packed(w, t)
    requires a in t.done && w.goto[a].dflt != 0 && s >= 0
    ensures GotoAt(t.amem, t.pgo[a], w.acc, a, s)
         == if RowTarget(w.goto[a].entries, s) != 0 then RowTarget(w.goto[a].entries, s) else w.goto[a].dflt
  {
    var r := w.goto[a].entries;
    var v := Cell(t.amem, t.pgo[a] + s + 1);
    assert Ascending(r) by { assert GotoRowOk(w.goto[a], a, w.acc); }
    if 0 < v < |w.acc| && w.acc[v] == -a {
      GotoFoundIsListed(w, t, a, s);
      RowTargetListed(r, Entry(s, v));
    } else {
      if RowTarget(r, s) != 0 {
        RowTargetAbsent(r, s);
        GotoListedIsFound(w, t, a, Entry(s, RowTarget(r, s)));
      }
      assert GotoPlaced(w.goto[a], t.amem, t.pgo[a]);
    }
  }

  /** Two ascending rows of one length, one contained in the other, are the same row. */
  lemma {:induction false} ContainedRowsEqual(r: seq<Entry>, q: seq<Entry>)
    requires Ascending(r) && Ascending(q) && |r| == |q|
    requires forall e :: e in r ==> e in q
    ensures r == q
  {
    if r != [] {
      var n := |r| - 1;
      // The last entry of r has the largest symbol, so it can only be the last of q.
      LastIsLast(r, q);
      forall e | e in r[..n] ensures e in q[..n] {
        var x :| 0 <= x < n && r[x] == e;
        assert r[x].sym < r[n].sym;
        assert e in r && e in q;
        var y :| 0 <= y < |q| && q[y] == e;
        assert y != n;
        assert q[..n][y] == e;
      }
      ContainedRowsEqual(r[..n], q[..n]);
      assert r == r[..n] + [r[n]] && q == q[..n] + [q[n]];
    }
  }

  lemma {:induction false} LastIsLast(r: seq<Entry>, q: seq<Entry>)
    requires Ascending(r) && Ascending(q) && |r| == |q| > 0
    requires forall e :: e in r ==> e in q
    ensures r[|r| - 1] == q[|q| - 1]
    decreases |r|
  {
    var n := |r| - 1;
    IndexAtLeast(r, q, n);
  }

  /** Entry `k` of a contained ascending row sits at position `k` or later. */
  lemma {:induction false} IndexAtLeast(r: seq<Entry>, q: seq<Entry>, k: nat)
    requires Ascending(r) && Ascending(q)
    requires k < |r|
    requires forall e :: e in r ==> e in q
    ensures exists y :: k <= y < |q| && q[y] == r[k]
  {
    assert r[k] in r;
    var y :| 0 <= y < |q| && q[y] == r[k];
    if k > 0 {
      IndexAtLeast(r, q, k - 1);
      var x :| k - 1 <= x < |q| && q[x] == r[k - 1];
      assert r[k - 1].sym < r[k].sym;
      LargerIsLater(q, x, y);
    }
  }

  /** In an ascending row the entry with the larger symbol comes later. */
  lemma LargerIsLater(q: seq<Entry>, x: int, y: int)
    requires Ascending(q) && 0 <= x < |q| && 0 <= y < |q|
    requires q[x].sym < q[y].sym
    ensures x < y
  {
  }

  /** A row whose every cell already holds its target at offset `n`, and that is as long as
      the row of a state placed at `n`, is that row. */
  lemma {:induction false} FilledRowIsShared(w: Rows, t: Tables, i: int, j: int)
    requires RowsOk(w) && Packed(w, t)
    requires 0 <= i < |t.indgo| && 0 <= j < |t.indgo| && t.indgo[j] != YYFLAG1
    requires ShiftPlaced(w.shift[i], t.amem, t.indgo[j])
    requires |w.shift[i]| == |w.shift[j]|
    ensures w.shift[i] == w.shift[j]
  {
    assert ShiftRowOk(w.shift[i], w.acc) && ShiftRowOk(w.shift[j], w.acc);
    forall e | e in w.shift[i] ensures e in w.shift[j] {
      var c := t.indgo[j] + e.sym;
      assert CellOk(w, t, c, t.amem[c]);
      var k :| FromShift(w, t, c, t.amem[c], k);
      assert t.indgo[k] == t.indgo[j];
    }
    ContainedRowsEqual(w.shift[i], w.shift[j]);
  }

  lemma {:induction false} StatesStay(w: Rows, t: Tables, amem: seq<int>, i: int, n: int)
    requires RowsOk(w) && |t.indgo| == |w.shift| && StatesPlaced(w, t)
    requires 0 <= i < |t.indgo| && t.indgo[i] == YYFLAG1 && n != YYFLAG1
    requires Kept(t.amem, amem)
    requires ShiftPlaced(w.shift[i], amem, n)
    requires forall j :: 0 <= j < |t.indgo| && t.indgo[j] == n ==> w.shift[j] == w.shift[i]
    ensures StatesPlaced(w, t.(amem := amem, indgo := t.indgo[i := n]))
  {
    var t1 := t.(amem := amem, indgo := t.indgo[i := n]);
    forall j | 0 <= j < |t1.indgo| && t1.indgo[j] != YYFLAG1 ensures ShiftPlaced(w.shift[j], t1.amem, t1.indgo[j]) {
      if j != i {
        assert ShiftRowOk(w.shift[j], w.acc) && ShiftPlaced(w.shift[j], t.amem, t.indgo[j]);
      }
    }
  }

  lemma {:induction false} StatesStayPut(w: Rows, t: Tables, amem: seq<int>)
    requires RowsOk(w) && |t.indgo| == |w.shift| && StatesPlaced(w, t)
    requires Kept(t.amem, amem)
    ensures StatesPlaced(w, t.(amem := amem))
  {
    forall j | 0 <= j < |t.indgo| && t.indgo[j] != YYFLAG1 ensures ShiftPlaced(w.shift[j], amem, t.indgo[j]) {
      assert ShiftRowOk(w.shift[j], w.acc) && ShiftPlaced(w.shift[j], t.amem, t.indgo[j]);
    }
  }

  lemma {:induction false} GotosStay(w: Rows, t: Tables, amem: seq<int>)
    requires RowsOk(w) && |t.pgo| == |w.goto| && GotosPlaced(w, t)
    requires Kept(t.amem, amem)
    ensures GotosPlaced(w, t.(amem := amem))
  {
    forall a | a in t.done ensures GotoPlaced(w.goto[a], amem, t.pgo[a]) {
      assert GotoPlaced(w.goto[a], t.amem, t.pgo[a]) && GotoRowOk(w.goto[a], a, w.acc);
    }
  }

  /** The cell that changed holds an entry of the row placed at `n`. */
  ghost predicate FilledFromRow(r: seq<Entry>, a0: seq<int>, a1: seq<int>, n: int)
    requires |a0| == |a1|
  {
    forall c :: 0 <= c < |a0| && a1[c] != a0[c] ==> c - n >= 0 && a1[c] >= 0 && Entry(c - n, a1[c]) in r
  }

  /** Placing a state's row in cells that are empty or already agree keeps the invariant. */
  lemma {:induction false} StateRowKeepsPacked(w: Rows, t: Tables, amem: seq<int>, i: int, n: int)
    requires RowsOk(w) && Packed(w, t)
    requires 0 <= i < |t.indgo| && t.indgo[i] == YYFLAG1 && n != YYFLAG1
    requires Kept(t.amem, amem) && FilledFromRow(w.shift[i], t.amem, amem, n)
    requires ShiftPlaced(w.shift[i], amem, n)
    requires forall j :: 0 <= j < |t.indgo| && t.indgo[j] == n ==> w.shift[j] == w.shift[i]
    ensures Packed(w, t.(amem := amem, indgo := t.indgo[i := n]))
  {
    var t1 := t.(amem := amem, indgo := t.indgo[i := n]);
    StatesStay(w, t, amem, i, n);
    GotosStay(w, t, amem);
    forall c | 0 <= c < |amem| ensures CellOk(w, t1, c, amem[c]) {
      if amem[c] == t.amem[c] {
        assert CellOk(w, t, c, amem[c]);
        if amem[c] != 0 && w.acc[amem[c]] > 0 {
          var j :| FromShift(w, t, c, amem[c], j);
          assert FromShift(w, t1, c, amem[c], j);
        }
      } else {
        assert ShiftRowOk(w.shift[i], w.acc);
        assert Entry(c - n, amem[c]) in w.shift[i];
        assert FromShift(w, t1, c, amem[c], i);
      }
    }
  }

  ghost predicate FilledFromGoto(g: GotoRow, a0: seq<int>, a1: seq<int>, p: int)
    requires |a0| == |a1|
  {
    forall c :: 0 <= c < |a0| && a1[c] != a0[c] ==>
      || (c == p && a1[c] == g.dflt)
      || (c - p - 1 >= 0 && a1[c] >= 0 && Entry(c - p - 1, a1[c]) in g.entries)
  }

  /** Entering a goto row into empty cells keeps the invariant. */
  lemma {:induction false} GotoRowKeepsPacked(w: Rows, t: Tables, amem: seq<int>, a: int, p: int)
    requires RowsOk(w) && Packed(w, t)
    requires 1 <= a < |t.pgo| && a !in t.done
    requires Kept(t.amem, amem) && FilledFromGoto(w.goto[a], t.amem, amem, p)
    requires GotoPlaced(w.goto[a], amem, p)
    ensures Packed(w, t.(amem := amem, pgo := t.pgo[a := p], done := t.done + {a}))
  {
    var t1 := t.(amem := amem, pgo := t.pgo[a := p], done := t.done + {a});
    StatesStayPut(w, t, amem);
    GotosStay(w, t, amem);
    forall c | 0 <= c < |amem| ensures CellOk(w, t1, c, amem[c]) {
      if amem[c] == t.amem[c] {
        assert CellOk(w, t, c, amem[c]);
        if amem[c] != 0 && w.acc[amem[c]] > 0 {
          var j :| FromShift(w, t, c, amem[c], j);
          assert FromShift(w, t1, c, amem[c], j);
        }
      } else if amem[c] != 0 {
        assert GotoRowOk(w.goto[a], a, w.acc);
        assert FromGoto(w, t1, c, amem[c]);
      }
    }
  }

  // ----- where a row can go -----

  ghost predicate CellTakes(amem: seq<int>, c: int, v: int) { 0 <= c < |amem| && (amem[c] == 0 || amem[c] == v) }

  /** State `i` can be placed at offset `n`: its cells are there and are free or agree, and the states placed there
      already have the same row. */
  ghost predicate ShiftRoom(w: Rows, amem: seq<int>, indgo: seq<int>, i: int, n: int)
    requires 0 <= i < |w.shift| == |indgo|
  {
    && (forall e {:trigger e in w.shift[i]} :: e in w.shift[i] ==> CellTakes(amem, n + e.sym, e.target))
    && (forall j {:trigger indgo[j]} :: 0 <= j < |indgo| && indgo[j] == n ==> w.shift[j] == w.shift[i])
  }

  ghost predicate NoShiftRoom(w: Rows, amem: seq<int>, indgo: seq<int>, i: int)
    requires 0 <= i < |w.shift| == |indgo|
  {
    forall n {:trigger ShiftRoom(w, amem, indgo, i, n)} :: !ShiftRoom(w, amem, indgo, i, n)
  }

  /** A goto row can be entered from cell `p` on: all the cells it needs are there and free. */
  ghost predicate GotoRoom(amem: seq<int>, g: GotoRow, p: int) {
    && 0 <= p < |amem| && amem[p] == 0
    && forall e {:trigger e in g.entries} :: e in g.entries ==> p + e.sym + 1 < |amem| && amem[p + e.sym + 1] == 0
  }

  ghost predicate NoGotoRoom(amem: seq<int>, g: GotoRow) { forall p {:trigger GotoRoom(amem, g, p)} :: !GotoRoom(amem, g, p) }

  lemma {:induction false} NoGotoRoomAfter(amem: seq<int>, g: GotoRow, p: int)
    requires p >= |amem| || exists e :: e in g.entries && p + e.sym + 1 >= |amem|
    requires forall q {:trigger GotoRoom(amem, g, q)} :: 0 <= q < p ==> !GotoRoom(amem, g, q)
    ensures NoGotoRoom(amem, g)
  {
    forall q ensures !GotoRoom(amem, g, q) {
      if p < |amem| && q >= p {
        var e :| e in g.entries && p + e.sym + 1 >= |amem|;
      }
    }
  }

  ghost predicate AllFilled(amem: seq<int>, r: seq<Entry>, n: int) {
    forall e {:trigger e in r} :: e in r ==> 0 <= n + e.sym < |amem| && amem[n + e.sym] == e.target
  }

  /** Offsets further back than the largest first symbol lead in front of the array. */
  lemma {:induction false} NoRoomBefore(w: Rows, amem: seq<int>, indgo: seq<int>, i: int, n: int, maxoff: int)
    requires 0 <= i < |w.shift| == |indgo| && w.shift[i] != [] && w.shift[i][0].sym <= maxoff && n < -maxoff
    ensures !ShiftRoom(w, amem, indgo, i, n)
  {
    assert w.shift[i][0] in w.shift[i];
  }

  lemma {:induction false} NoRoomClash(w: Rows, amem: seq<int>, indgo: seq<int>, i: int, n: int)
    requires 0 <= i < |w.shift| == |indgo| && exists e :: e in w.shift[i] && !CellTakes(amem, n + e.sym, e.target)
    ensures !ShiftRoom(w, amem, indgo, i, n)
  {
    var e :| e in w.shift[i] && !CellTakes(amem, n + e.sym, e.target);
  }

  /** Once the row sticks out it sticks out further on too. */
  lemma {:induction false} NoRoomAfter(w: Rows, amem: seq<int>, indgo: seq<int>, i: int, n: int)
    requires 0 <= i < |w.shift| == |indgo| && exists e :: e in w.shift[i] && n + e.sym >= |amem|
    requires forall m {:trigger ShiftRoom(w, amem, indgo, i, m)} :: m < n ==> !ShiftRoom(w, amem, indgo, i, m)
    ensures NoShiftRoom(w, amem, indgo, i)
  {
    var e :| e in w.shift[i] && n + e.sym >= |amem|;
    forall m ensures !ShiftRoom(w, amem, indgo, i, m) {
      if m >= n {
        assert !CellTakes(amem, m + e.sym, e.target);
      }
    }
  }

  /** The first state at the offset has another row. */
  lemma {:induction false} NoRoomTaken(w: Rows, t: Tables, i: int, n: int, j: int)
    requires RowsOk(w) && Packed(w, t) && 0 <= i < |t.indgo| && 0 <= j < |t.indgo| && t.indgo[j] == n != YYFLAG1
    requires !(AllFilled(t.amem, w.shift[i], n) && |w.shift[j]| == |w.shift[i]|)
    ensures !ShiftRoom(w, t.amem, t.indgo, i, n)
  {
    assert ShiftPlaced(w.shift[j], t.amem, n);
  }

  /** Some row that is still to be placed has no place left. */
  ghost predicate NoPlace(w: Rows, t: Tables)
    requires |w.shift| == |t.indgo|
  {
    || (exists i {:trigger w.shift[i]} :: 0 <= i < |w.shift| && t.indgo[i] == YYFLAG1 && NoShiftRoom(w, t.amem, t.indgo, i))
    || (exists a {:trigger w.goto[a]} :: 1 <= a < |w.goto| && a !in t.done && NoGotoRoom(t.amem, w.goto[a]))
  }

  // ----- nothing is wasted -----

  /** State `j` could not have been placed before the offset it has. */
  ghost predicate StateFirst(w: Rows, t: Tables, j: int)
    requires 0 <= j < |w.shift| == |t.indgo|
  {
    forall m {:trigger ShiftRoom(w, t.amem, t.indgo, j, m)} :: m < t.indgo[j] ==> !ShiftRoom(w, t.amem, t.indgo, j, m)
  }

  ghost predicate GotoFirst(w: Rows, t: Tables, a: int)
    requires 0 <= a < |w.goto| == |t.pgo|
  {
    forall q {:trigger GotoRoom(t.amem, w.goto[a], q)} :: q < t.pgo[a] ==> !GotoRoom(t.amem, w.goto[a], q)
  }

  /** Every row in the array is at the first place that would take it. */
  ghost predicate FirstFit(w: Rows, t: Tables)
    requires |w.shift| == |t.indgo| && |w.goto| == |t.pgo|
  {
    && (forall j {:trigger StateFirst(w, t, j)} :: 0 <= j < |t.indgo| && t.indgo[j] != YYFLAG1 ==> StateFirst(w, t, j))
    && (forall a {:trigger GotoFirst(w, t, a)} :: 0 <= a < |t.pgo| && a in t.done ==> GotoFirst(w, t, a))
  }

  /** The array holds just the rows placed, each at the first place that would take it, and some other row has no place. */
  ghost predicate Jammed(w: Rows, t: Tables) {
    |t.amem| == ACTSIZE && Packed(w, t) && FirstFit(w, t) && NoPlace(w, t)
  }

  /** Where there is no room for a state there is none once more is placed. */
  lemma {:induction false} ShiftRoomGone(w: Rows, t: Tables, amem: seq<int>, i: int, n: int, j: int, m: int)
    requires RowsOk(w) && 0 <= i < |t.indgo| == |w.shift| && 0 <= j < |t.indgo| && t.indgo[i] == YYFLAG1 && w.shift[j] != []
    requires Kept(t.amem, amem) && !ShiftRoom(w, t.amem, t.indgo, j, m)
    ensures !ShiftRoom(w, amem, t.indgo[i := n], j, m)
  {
    var r := w.shift[j];
    assert ShiftRowOk(r, w.acc) && r[0] in r;
    if e :| e in r && !CellTakes(t.amem, m + e.sym, e.target) {
      assert !CellTakes(amem, m + e.sym, e.target);
    } else {
      var k :| 0 <= k < |t.indgo| && t.indgo[k] == m && w.shift[k] != r;
      assert CellTakes(t.amem, m + r[0].sym, r[0].target);
      assert t.indgo[i := n][k] == m;
    }
  }

  lemma {:induction false} StateKeepsFirstFit(w: Rows, t: Tables, amem: seq<int>, i: int, n: int)
    requires RowsOk(w) && Packed(w, t) && FirstFit(w, t)
    requires 0 <= i < |t.indgo| && t.indgo[i] == YYFLAG1 && w.shift[i] != [] && Kept(t.amem, amem)
    requires forall j :: 0 <= j < |t.indgo| && t.indgo[j] != YYFLAG1 ==> w.shift[j] != []
    requires forall m {:trigger ShiftRoom(w, t.amem, t.indgo, i, m)} :: m < n ==> !ShiftRoom(w, t.amem, t.indgo, i, m)
    ensures FirstFit(w, t.(amem := amem, indgo := t.indgo[i := n]))
  {
    var t1 := t.(amem := amem, indgo := t.indgo[i := n]);
    forall j | 0 <= j < |t1.indgo| && t1.indgo[j] != YYFLAG1 ensures StateFirst(w, t1, j) {
      assert j != i ==> StateFirst(w, t, j);
      forall m | m < t1.indgo[j] ensures !ShiftRoom(w, t1.amem, t1.indgo, j, m) {
        ShiftRoomGone(w, t, amem, i, n, j, m);
      }
    }
    forall a | 0 <= a < |t1.pgo| && a in t1.done ensures GotoFirst(w, t1, a) {
      assert GotoFirst(w, t, a);
      forall q | q < t1.pgo[a] ensures !GotoRoom(t1.amem, w.goto[a], q) {
        GotoRoomGone(t.amem, amem, w.goto[a], q);
      }
    }
  }

  lemma {:induction false} GotoRoomGone(a0: seq<int>, a1: seq<int>, g: GotoRow, q: int)
    requires Kept(a0, a1) && !GotoRoom(a0, g, q)
    ensures !GotoRoom(a1, g, q)
  {
    if 0 <= q < |a0| && a0[q] == 0 {
      var e :| e in g.entries && !(q + e.sym + 1 < |a0| && a0[q + e.sym + 1] == 0);
    }
  }

  lemma {:induction false} GotoKeepsFirstFit(w: Rows, t: Tables, amem: seq<int>, a: int, p: int)
    requires RowsOk(w) && Packed(w, t) && FirstFit(w, t)
    requires 1 <= a < |t.pgo| && Kept(t.amem, amem)
    requires forall j :: 0 <= j < |t.indgo| && t.indgo[j] != YYFLAG1 ==> w.shift[j] != []
    requires forall q {:trigger GotoRoom(t.amem, w.goto[a], q)} :: q < p ==> !GotoRoom(t.amem, w.goto[a], q)
    ensures FirstFit(w, t.(amem := amem, pgo := t.pgo[a := p], done := t.done + {a}))
  {
    var t1 := t.(amem := amem, pgo := t.pgo[a := p], done := t.done + {a});
    forall j | 0 <= j < |t1.indgo| && t1.indgo[j] != YYFLAG1 ensures StateFirst(w, t1, j) {
      assert StateFirst(w, t, j);
      forall m | m < t1.indgo[j] ensures !ShiftRoom(w, t1.amem, t1.indgo, j, m) {
        ShiftRoomStays(w, t.amem, amem, t.indgo, j, m);
      }
    }
    forall b | 0 <= b < |t1.pgo| && b in t1.done ensures GotoFirst(w, t1, b) {
      assert b != a ==> GotoFirst(w, t, b);
      forall q | q < t1.pgo[b] ensures !GotoRoom(t1.amem, w.goto[b], q) {
        GotoRoomGone(t.amem, amem, w.goto[b], q);
      }
    }
  }

  lemma {:induction false} ShiftRoomStays(w: Rows, a0: seq<int>, a1: seq<int>, indgo: seq<int>, j: int, m: int)
    requires 0 <= j < |indgo| == |w.shift| && Kept(a0, a1) && !ShiftRoom(w, a0, indgo, j, m)
    ensures !ShiftRoom(w, a1, indgo, j, m)
  {
    if e :| e in w.shift[j] && !CellTakes(a0, m + e.sym, e.target) {
      assert !CellTakes(a1, m + e.sym, e.target);
    }
  }

  // ----- the optimizer itself -----

  /** What checking a row against the array at one offset found. */
  datatype Fit = Clash | Overrun | Agrees(empty: nat)

  /** A state is waiting exactly while its greed is positive; an empty row is never placed. */
  ghost predicate StateBook(r: seq<Entry>, off: int, greed: int) {
    && greed >= 0
    && (greed > 0 ==> off == YYFLAG1 && r != [])
    && (greed == 0 ==> (off == YYFLAG1 <==> r == []))
  }

  class Optimizer {
    const rows: Rows
    const amem: array<int>      // action table storage
    const indgo: array<int>     // offset of each state's shift row
    const pgo: array<int>       // offset of each nonterminal's goto row
    const tystate: array<int>   // how greedy a state still to be placed is; 0 when done
    const ggreed: array<int>    // the same for nonterminals
    var maxoff: int
    var maxa: int
    ghost var entered: set<int> // the nonterminals whose row is in the array

    ghost predicate Shape()
      reads this
    {
      && RowsOk(rows)
      && amem.Length == ACTSIZE
      && indgo.Length == tystate.Length == |rows.shift|
      && pgo.Length == ggreed.Length == |rows.goto|
      && amem != indgo && amem != pgo && amem != tystate && amem != ggreed
      && indgo != pgo && indgo != tystate && indgo != ggreed
      && pgo != tystate && pgo != ggreed && tystate != ggreed
      && 0 <= maxa < ACTSIZE
    }

    /** No row of the first `n` states begins with a symbol beyond the largest offset. */
    ghost predicate OffsetsOk(n: int)
      requires n <= |rows.shift|
      reads this
    {
      forall i {:trigger rows.shift[i]} :: 0 <= i < n && rows.shift[i] != [] ==> rows.shift[i][0].sym <= maxoff
    }

    ghost function Now(): Tables
      reads this`entered, amem, indgo, pgo
    {
      Tables(amem[..], indgo[..], pgo[..], entered)
    }

    ghost predicate Valid()
      reads this, amem, indgo, pgo, tystate, ggreed
    {
      && Shape()
      && Packed(rows, Now()) && FirstFit(rows, Now()) && OffsetsOk(|rows.shift|)
      && (forall i :: 0 <= i < indgo.Length ==> StateBook(rows.shift[i], indgo[i], tystate[i]))
      && (forall a :: 1 <= a < ggreed.Length ==> ggreed[a] >= 0 && (a in entered <==> ggreed[a] == 0))
      && (forall c :: 0 <= c < ACTSIZE && amem[c] != 0 ==> c <= maxa)
    }

    /** Read `rows` and compute the greed of every row and the largest offset worth trying. */
    constructor (w: Rows)
      requires RowsOk(w)
      ensures Valid() && rows == w && fresh(amem) && fresh(indgo) && fresh(pgo) && fresh(tystate) && fresh(ggreed)
      ensures forall i :: 0 <= i < indgo.Length ==> indgo[i] == YYFLAG1
      ensures forall a :: 1 <= a < ggreed.Length ==> ggreed[a] > 0
    {
      rows := w;
      amem := new int[ACTSIZE](_ => 0);
      indgo := new int[|w.shift|](_ => YYFLAG1);
      pgo := new int[|w.goto|](_ => 0);
      tystate := new int[|w.shift|](_ => 0);
      ggreed := new int[|w.goto|](_ => 1);
      maxoff, maxa, entered := 0, 0, {};
      new;
      StateGreed();
      GotoGreed();
      forall c | 0 <= c < |Now().amem| ensures CellOk(rows, Now(), c, Now().amem[c]) {
      }
    }

    /** Nothing has been placed. */
    ghost predicate Untouched()
      reads this, amem, indgo
    {
      && Shape() && maxa == 0 && entered == {}
      && (forall c :: 0 <= c < ACTSIZE ==> amem[c] == 0)
      && (forall k :: 0 <= k < indgo.Length ==> indgo[k] == YYFLAG1)
    }

    ghost predicate StateGreedOk(n: int)
      requires Shape() && n <= tystate.Length
      reads this, tystate
    {
      forall k {:trigger tystate[k]} :: 0 <= k < n ==> tystate[k] >= 0 && (tystate[k] == 0 <==> rows.shift[k] == [])
    }

    /** The greed of the shift rows: their length and their largest symbol, twice. */
    method StateGreed()
      requires Untouched()
      modifies this`maxoff, tystate
      ensures Untouched() && OffsetsOk(|rows.shift|) && StateGreedOk(tystate.Length) && maxoff >= old(maxoff)
    {
      for i := 0 to tystate.Length
        invariant Untouched() && OffsetsOk(i) && StateGreedOk(i) && maxoff >= old(maxoff)
      {
        var k, j := Span(rows.shift[i]);
        assert ShiftRowOk(rows.shift[i], rows.acc);
        if k <= j && k > maxoff {
          maxoff := k;
        }
        tystate[i] := 2 * |rows.shift[i]| + 2 * j;
      }
    }

    /** The greed of the goto rows. */
    method GotoGreed()
      requires Untouched() && OffsetsOk(|rows.shift|)
      modifies this`maxoff, ggreed
      ensures Untouched() && OffsetsOk(|rows.shift|)
      ensures forall a :: 1 <= a < ggreed.Length ==> ggreed[a] >= 1
    {
      for a := 1 to ggreed.Length
        invariant Untouched() && OffsetsOk(|rows.shift|)
        invariant forall k :: 1 <= k < a ==> ggreed[k] >= 1
      {
        var _, j := Span(rows.goto[a].entries);
        ggreed[a] := 1 + 2 * |rows.goto[a].entries| + 2 * j;
        if j > maxoff {
          maxoff := j;
        }
      }
    }

    /** The smallest and largest symbol of a row. */
    static method Span(r: seq<Entry>) returns (k: nat, j: nat)
      ensures forall e :: e in r ==> k <= e.sym <= j
      ensures r == [] ==> k == 32000 && j == 0
      ensures Ascending(r) && r != [] && r[0].sym <= 32000 ==> k == r[0].sym
    {
      k, j := 32000, 0;
      for x := 0 to |r|
        invariant forall y :: 0 <= y < x ==> k <= r[y].sym <= j
        invariant x == 0 ==> k == 32000 && j == 0
        invariant k == 32000 || exists y :: 0 <= y < x && r[y].sym == k
      {
        if r[x].sym > j { j := r[x].sym; }
        if r[x].sym < k { k := r[x].sym; }
      }
    }

    ghost predicate Greediest(g: int)
      reads tystate, ggreed
    {
      && (forall k :: 0 <= k < tystate.Length ==> tystate[k] <= g)
      && (forall a :: 1 <= a < ggreed.Length ==> ggreed[a] <= g)
    }

    /** The greediest row still waiting: a state `i >= 0`, a nonterminal `-i`, or `NOMORE`. */
    method Nxti() returns (i: int)
      requires Valid()
      ensures i == NOMORE <==> Greediest(0)
      ensures i >= 0 ==> i < tystate.Length && tystate[i] > 0 && Greediest(tystate[i])
      ensures i < 0 && i != NOMORE ==> -i < ggreed.Length && ggreed[-i] > 0 && Greediest(ggreed[-i])
    {
      var max, maxi := 0, 0;
      for a := 1 to ggreed.Length
        invariant forall b :: 1 <= b < a ==> ggreed[b] <= max
        invariant maxi == 0 ==> max == 0 && a == 1
        invariant maxi != 0 ==> maxi < 0 && -maxi < a && ggreed[-maxi] == max
        invariant max >= 0
      {
        if ggreed[a] >= max {
          max, maxi := ggreed[a], -a;
        }
      }
      for k := 0 to tystate.Length
        invariant forall b :: 1 <= b < ggreed.Length ==> ggreed[b] <= max
        invariant forall x :: 0 <= x < k ==> tystate[x] <= max
        invariant max >= 0
        invariant maxi < 0 ==> -maxi < ggreed.Length && ggreed[-maxi] == max && forall x :: 0 <= x < k ==> tystate[x] < max
        invariant maxi >= 0 ==> (k == 0 && max == 0) || (maxi < k && tystate[maxi] == max)
      {
        if tystate[k] >= max {
          max, maxi := tystate[k], k;
        }
      }
      return if max == 0 then NOMORE else maxi;
    }

    /** Compare the row with the array at offset `n`. */
    method CheckRow(r: seq<Entry>, n: int) returns (f: Fit)
      requires amem.Length == ACTSIZE
      requires forall e :: e in r ==> e.target != 0
      ensures f.Agrees? ==> forall e :: e in r ==> 0 <= n + e.sym < ACTSIZE && (amem[n + e.sym] == 0 || amem[n + e.sym] == e.target)
      ensures f.Agrees? ==> (f.empty == 0 <==> AllFilled(amem[..], r, n))
      ensures f.Clash? ==> exists e :: e in r && !CellTakes(amem[..], n + e.sym, e.target)
      ensures f.Overrun? ==> exists e :: e in r && n + e.sym >= ACTSIZE
    {
      var flag := 0;
      for x := 0 to |r|
        invariant forall y :: 0 <= y < x ==> 0 <= n + r[y].sym < ACTSIZE && (amem[n + r[y].sym] == 0 || amem[n + r[y].sym] == r[y].target)
        invariant flag == 0 ==> forall y :: 0 <= y < x ==> amem[n + r[y].sym] == r[y].target
        invariant flag > 0 ==> exists y :: 0 <= y < x && amem[n + r[y].sym] == 0
      {
        var s := r[x].sym + n;
        assert r[x] in r;
        if s < 0 {
          assert !CellTakes(amem[..], n + r[x].sym, r[x].target);
          return Clash;
        }
        if s >= ACTSIZE {
          return Overrun;
        }
        if amem[s] == 0 {
          flag := flag + 1;
        } else if amem[s] != r[x].target {
          assert !CellTakes(amem[..], n + r[x].sym, r[x].target);
          return Clash;
        }
      }
      if flag > 0 {
        var y :| 0 <= y < |r| && amem[n + r[y].sym] == 0;
        assert r[y] in r;
      }
      return Agrees(flag);
    }

    /** The first state placed at offset `n`, or the number of states when there is none. */
    method FindAt(n: int) returns (j: nat)
      ensures j <= indgo.Length
      ensures j < indgo.Length ==> indgo[j] == n
      ensures forall k :: 0 <= k < j ==> indgo[k] != n
    {
      j := 0;
      while j < indgo.Length && indgo[j] != n
        invariant j <= indgo.Length
        invariant forall k :: 0 <= k < j ==> indgo[k] != n
      {
        j := j + 1;
      }
    }

    /** Write a row that agrees with the array at offset `n`. */
    method PutRow(r: seq<Entry>, n: int)
      requires amem.Length == ACTSIZE && Ascending(r) && 0 <= maxa < ACTSIZE
      requires forall e :: e in r ==> 0 <= n + e.sym < ACTSIZE && e.target != 0 && (amem[n + e.sym] == 0 || amem[n + e.sym] == e.target)
      requires forall c :: 0 <= c < ACTSIZE && amem[c] != 0 ==> c <= maxa
      modifies this`maxa, amem
      ensures Kept(old(amem[..]), amem[..]) && FilledFromRow(r, old(amem[..]), amem[..], n)
      ensures forall e :: e in r ==> amem[n + e.sym] == e.target
      ensures old(maxa) <= maxa < ACTSIZE
      ensures forall c :: 0 <= c < ACTSIZE && amem[c] != 0 ==> c <= maxa
    {
      for x := 0 to |r|
        invariant old(maxa) <= maxa < ACTSIZE
        invariant forall c :: 0 <= c < ACTSIZE && amem[c] != 0 ==> c <= maxa
        invariant forall c :: 0 <= c < ACTSIZE && old(amem[c]) != 0 ==> amem[c] == old(amem[c])
        invariant FilledFromRow(r, old(amem[..]), amem[..], n)
        invariant forall y :: 0 <= y < x ==> amem[n + r[y].sym] == r[y].target
        invariant forall y :: x <= y < |r| ==> amem[n + r[y].sym] == old(amem[n + r[y].sym])
      {
        var s := r[x].sym + n;
        assert r[x] in r && s - n == r[x].sym && Entry(s - n, r[x].target) == r[x];
        if s > maxa {
          maxa := s;
        }
        amem[s] := r[x].target;
      }
    }

    /** Enter the shift row of state `i` at the first offset where it agrees with the array and
        where no state with a different row is placed.  This fails exactly if there is no such offset. */
    method Stin(i: nat) returns (ok: bool)
      requires Valid() && i < tystate.Length && tystate[i] > 0
      modifies this`maxa, amem, indgo, tystate
      ensures ok ==> Valid()
      ensures Kept(old(amem[..]), amem[..])
      ensures tystate[..] == old(tystate[..])[i := 0]
      ensures ok ==> indgo[..] == old(indgo[..])[i := indgo[i]] && indgo[i] != YYFLAG1
      ensures ok <==> !NoShiftRoom(rows, old(amem[..]), old(indgo[..]), i)
      ensures !ok ==> Now() == old(Now())
    {
      ghost var t0 := Now();
      tystate[i] := 0;
      var r := rows.shift[i];
      assert ShiftRowOk(r, rows.acc);
      var n := -maxoff;
      forall m | m < n ensures !ShiftRoom(rows, amem[..], indgo[..], i, m) {
        NoRoomBefore(rows, amem[..], indgo[..], i, m, maxoff);
      }
      while n < ACTSIZE
        invariant amem[..] == t0.amem && indgo[..] == t0.indgo && maxa == old(maxa)
        invariant tystate[..] == old(tystate[..])[i := 0]
        invariant forall m {:trigger ShiftRoom(rows, t0.amem, t0.indgo, i, m)} :: m < n ==> !ShiftRoom(rows, t0.amem, t0.indgo, i, m)
      {
        var f := CheckRow(r, n);
        if f.Overrun? {
          NoRoomAfter(rows, t0.amem, t0.indgo, i, n);
          return false;
        }
        if f.Agrees? {
          assert r[0] in r;
          var j := FindAt(n);
          // A position already in use is acceptable only if the rows are identical.
          if j == indgo.Length || (f.empty == 0 && |rows.shift[j]| == |r|) {
            assert Now() == t0;
            PlaceAt(i, n, j);
            return true;
          }
          NoRoomTaken(rows, t0, i, n, j);
        } else {
          NoRoomClash(rows, t0.amem, t0.indgo, i, n);
        }
        n := n + 1;
      }
      assert r[0] in r && n + r[0].sym >= ACTSIZE;
      NoRoomAfter(rows, t0.amem, t0.indgo, i, n);
      return false;
    }

    /** Place state `i` at offset `n`, where no state is, or first state `j`, with the same row. */
    method PlaceAt(i: nat, n: int, j: nat)
      requires Shape() && Packed(rows, Now()) && FirstFit(rows, Now()) && OffsetsOk(|rows.shift|)
      requires i < tystate.Length && tystate[i] == 0 && indgo[i] == YYFLAG1 != n
      requires forall m {:trigger ShiftRoom(rows, amem[..], indgo[..], i, m)} :: m < n ==> !ShiftRoom(rows, amem[..], indgo[..], i, m)
      requires (forall k :: 0 <= k < indgo.Length && k != i ==> StateBook(rows.shift[k], indgo[k], tystate[k]))
      requires (forall a :: 1 <= a < ggreed.Length ==> ggreed[a] >= 0 && (a in entered <==> ggreed[a] == 0)) && forall c :: 0 <= c < ACTSIZE && amem[c] != 0 ==> c <= maxa
      requires rows.shift[i] != [] && n + rows.shift[i][0].sym >= 0
      requires forall e :: e in rows.shift[i] ==> 0 <= n + e.sym < ACTSIZE && (amem[n + e.sym] == 0 || amem[n + e.sym] == e.target)
      requires j <= indgo.Length && forall k :: 0 <= k < j ==> indgo[k] != n
      requires j < indgo.Length ==> indgo[j] == n && AllFilled(amem[..], rows.shift[i], n) && |rows.shift[j]| == |rows.shift[i]|
      modifies this`maxa, amem, indgo
      ensures Valid() && Kept(old(amem[..]), amem[..]) && indgo[..] == old(indgo[..])[i := n]
      ensures ShiftRoom(rows, old(amem[..]), old(indgo[..]), i, n)
    {
      ghost var t0 := Now();
      var r := rows.shift[i];
      assert ShiftRowOk(r, rows.acc) && r[0] in r;
      if j == indgo.Length {
        PutRow(r, n);
      } else {
        FilledRowIsShared(rows, t0, i, j);
      }
      StateRowKeepsPacked(rows, t0, amem[..], i, n);
      StateKeepsFirstFit(rows, t0, amem[..], i, n);
      indgo[i] := n;
      assert Now() == t0.(amem := amem[..], indgo := t0.indgo[i := n]);
    }

    /** Enter the goto row of nonterminal `a` at the first free cell from which all its entries
        fall on free cells.  This fails exactly if there is no such cell. */
    method Gin(a: nat) returns (ok: bool)
      requires Valid() && 1 <= a < ggreed.Length && ggreed[a] > 0
      modifies this`maxa, this`entered, amem, pgo, ggreed
      ensures ok ==> Valid()
      ensures Kept(old(amem[..]), amem[..])
      ensures ggreed[..] == old(ggreed[..])[a := 0]
      ensures ok ==> pgo[..] == old(pgo[..])[a := pgo[a]]
      ensures ok <==> !NoGotoRoom(old(amem[..]), rows.goto[a])
      ensures !ok ==> Now() == old(Now())
    {
      ghost var t0 := Now();
      var g := rows.goto[a];
      assert GotoRowOk(g, a, rows.acc);
      ggreed[a] := 0;
      var p := 0;
      while p < ACTSIZE
        invariant 0 <= p <= ACTSIZE
        invariant amem[..] == old(amem[..]) && pgo[..] == old(pgo[..])
        invariant ggreed[..] == old(ggreed[..])[a := 0]
        invariant old(maxa) <= maxa < ACTSIZE && entered == old(entered)
        invariant forall q {:trigger GotoRoom(t0.amem, g, q)} :: 0 <= q < p ==> !GotoRoom(t0.amem, g, q)
      {
        if amem[p] == 0 {
          var f := FreeFor(g, p);
          if f.Overrun? {
            NoGotoRoomAfter(t0.amem, g, p);
            return false;
          }
          if f.Agrees? {
            assert GotoRoom(t0.amem, g, p);
            PutGoto(g, p);
            GotoRowKeepsPacked(rows, t0, amem[..], a, p);
            GotoKeepsFirstFit(rows, t0, amem[..], a, p);
            pgo[a] := p;
            entered := entered + {a};
            assert Now() == t0.(amem := amem[..], pgo := t0.pgo[a := p], done := t0.done + {a});
            return true;
          }
        }
        p := p + 1;
      }
      NoGotoRoomAfter(t0.amem, g, p);
      return false;
    }

    /** Are all the cells the row needs at `p` free?  `maxa` is raised even when they are not. */
    method FreeFor(g: GotoRow, p: nat) returns (f: Fit)
      requires amem.Length == ACTSIZE && 0 <= maxa < ACTSIZE
      modifies this`maxa
      ensures old(maxa) <= maxa < ACTSIZE
      ensures f.Agrees? ==> forall e :: e in g.entries ==> p + e.sym + 1 <= maxa && amem[p + e.sym + 1] == 0
      ensures f.Overrun? ==> exists e :: e in g.entries && p + e.sym + 1 >= ACTSIZE
      ensures f.Clash? ==> exists e :: e in g.entries && p + e.sym + 1 < ACTSIZE && amem[p + e.sym + 1] != 0
    {
      for x := 0 to |g.entries|
        invariant old(maxa) <= maxa < ACTSIZE
        invariant forall y :: 0 <= y < x ==> p + g.entries[y].sym + 1 <= maxa && amem[p + g.entries[y].sym + 1] == 0
      {
        var s := p + g.entries[x].sym + 1;
        assert g.entries[x] in g.entries;
        if s >= ACTSIZE {
          return Overrun;
        }
        if amem[s] != 0 {
          return Clash;
        }
        if s > maxa {
          maxa := s;
        }
      }
      return Agrees(0);
    }

    method PutGoto(g: GotoRow, p: nat)
      requires amem.Length == ACTSIZE && Ascending(g.entries) && 0 <= maxa < ACTSIZE
      requires p < ACTSIZE && amem[p] == 0
      requires forall e :: e in g.entries ==> p + e.sym + 1 <= maxa && amem[p + e.sym + 1] == 0
      requires forall c :: 0 <= c < ACTSIZE && amem[c] != 0 ==> c <= maxa
      modifies this`maxa, amem
      ensures Kept(old(amem[..]), amem[..]) && FilledFromGoto(g, old(amem[..]), amem[..], p)
      ensures GotoPlaced(g, amem[..], p)
      ensures old(maxa) <= maxa < ACTSIZE
      ensures forall c :: 0 <= c < ACTSIZE && amem[c] != 0 ==> c <= maxa
    {
      amem[p] := g.dflt;
      if p > maxa {
        maxa := p;
      }
      for x := 0 to |g.entries|
        invariant old(maxa) <= maxa < ACTSIZE && p <= maxa
        invariant forall c :: 0 <= c < ACTSIZE && amem[c] != 0 ==> c <= maxa
        invariant forall c :: 0 <= c < ACTSIZE && old(amem[c]) != 0 ==> amem[c] == old(amem[c])
        invariant FilledFromGoto(g, old(amem[..]), amem[..], p)
        invariant amem[p] == g.dflt
        invariant forall y :: 0 <= y < x ==> amem[p + g.entries[y].sym + 1] == g.entries[y].target
      {
        var e := g.entries[x];
        assert e in g.entries;
        var s := p + e.sym + 1;
        assert Entry(s - p - 1, e.target) == e;
        amem[s] := e.target;
      }
    }

    /** The part of the array that is written out: everything up to the last cell used. */
    function Yyact(): seq<int>
      requires 0 <= maxa < amem.Length
      reads this, amem
    {
      amem[..maxa + 1]
    }

    /** Once no row is waiting, every lookup in the array written out gives what the rows say. */
    lemma {:induction false} AllReadBack()
      requires Valid() && Greediest(0)
      ensures forall i, s :: 0 <= i < indgo.Length && s >= 1 ==>
        ShiftAt(Yyact(), indgo[i], rows.acc, s) == RowTarget(rows.shift[i], s)
      ensures forall a, s :: 1 <= a < pgo.Length && rows.goto[a].dflt != 0 && s >= 0 ==>
        GotoAt(Yyact(), pgo[a], rows.acc, a, s)
          == if RowTarget(rows.goto[a].entries, s) != 0 then RowTarget(rows.goto[a].entries, s) else rows.goto[a].dflt
      ensures forall i, j :: 0 <= i < indgo.Length && 0 <= j < indgo.Length && indgo[i] == indgo[j] ==>
        rows.shift[i] == rows.shift[j]
    {
      ghost var t := Now();
      assert forall c :: Cell(Yyact(), c) == Cell(amem[..], c);
      forall k, s | 0 <= k < indgo.Length && s >= 1
        ensures ShiftAt(Yyact(), indgo[k], rows.acc, s) == RowTarget(rows.shift[k], s)
      {
        ShiftReadsBack(rows, t, k, s);
      }
      forall a, s | 1 <= a < pgo.Length && rows.goto[a].dflt != 0 && s >= 0
        ensures GotoAt(Yyact(), pgo[a], rows.acc, a, s)
          == if RowTarget(rows.goto[a].entries, s) != 0 then RowTarget(rows.goto[a].entries, s) else rows.goto[a].dflt
      {
        GotoReadsBack(rows, t, a, s);
      }
    }

    /** Place the row that `Nxti` has chosen. */
    method PlaceRow(i: int) returns (ok: bool)
      requires Valid()
      requires if i >= 0 then i < tystate.Length && tystate[i] > 0 else -i < ggreed.Length && ggreed[-i] > 0
      modifies this`maxa, this`entered, amem, indgo, pgo, tystate, ggreed
      ensures ok ==> Valid()
      ensures Waiting(tystate[..]) < Waiting(old(tystate[..])) || (Waiting(tystate[..]) == Waiting(old(tystate[..])) && Waiting(ggreed[..]) < Waiting(old(ggreed[..])))
      ensures !ok ==> Jammed(rows, Now())
    {
      if i >= 0 {
        WaitingDrops(tystate[..], i);
        ok := Stin(i);
      } else {
        WaitingDrops(ggreed[..], -i);
        ok := Gin(-i);
      }
    }

    /** Place every row, greediest first.  Unless a row cannot be placed, afterwards every lookup
        in the array written out gives exactly what the rows say. */
    method CallOpt() returns (ok: bool)
      requires Valid()
      modifies this`maxa, this`entered, amem, indgo, pgo, tystate, ggreed
      ensures ok ==> Valid()
      ensures ok ==> forall i, s :: 0 <= i < indgo.Length && s >= 1 ==>
        ShiftAt(Yyact(), indgo[i], rows.acc, s) == RowTarget(rows.shift[i], s)
      ensures ok ==> forall a, s :: 1 <= a < pgo.Length && rows.goto[a].dflt != 0 && s >= 0 ==>
        GotoAt(Yyact(), pgo[a], rows.acc, a, s)
          == if RowTarget(rows.goto[a].entries, s) != 0 then RowTarget(rows.goto[a].entries, s) else rows.goto[a].dflt
      ensures ok ==> forall i, j :: 0 <= i < indgo.Length && 0 <= j < indgo.Length && indgo[i] == indgo[j] ==>
        rows.shift[i] == rows.shift[j]
      ensures !ok ==> Jammed(rows, Now())
    {
      var i := Nxti();
      while i != NOMORE
        invariant Valid()
        invariant i == NOMORE ==> Greediest(0)
        invariant i >= 0 ==> i < tystate.Length && tystate[i] > 0
        invariant i < 0 && i != NOMORE ==> -i < ggreed.Length && ggreed[-i] > 0
        decreases Waiting(tystate[..]), Waiting(ggreed[..])
      {
        ok := PlaceRow(i);
        if !ok {
          return false;
        }
        i := Nxti();
      }
      AllReadBack();
      return true;
    }
  }

  /** How many rows are still waiting. */
  function Waiting(greed: seq<int>): nat {
    if greed == [] then 0 else (if greed[0] != 0 then 1 else 0) + Waiting(greed[1..])
  }

  lemma {:induction false} WaitingDrops(greed: seq<int>, i: nat)
    requires i < |greed| && greed[i] != 0
    ensures Waiting(greed[i := 0]) < Waiting(greed)
  {
    var g1 := greed[i := 0];
    if i == 0 {
      assert g1[1..] == greed[1..];
    } else {
      assert g1[1..] == greed[1..][i - 1 := 0];
      WaitingDrops(greed[1..], i - 1);
    }
  }
}
