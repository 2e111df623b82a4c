/**
 * sys/src/lib9p/file.c: the file tree of a 9P server.
 *
 * A call is one step of the model, so a run is a sequence of calls.  In the source `readdirfile` takes no lock,
 * and `removefile` and `walkfile1` close their references after they have unlocked: what other calls do in
 * the middle of one of these is not modelled.  A directory's list keeps an empty entry where a file was
 * removed while somebody is reading the directory.
 */
module FileTree {
  import opened Options

  type Id = nat

  /** A file, known by its place in the order of creation. */
  datatype File = File(name: string, qid: nat, isdir: bool, parent: Option<Id>, ref: int,
                       list: seq<Option<Id>>, nchild: int, nxchild: int, readers: int, freed: bool)

  /** A directory being read: the entry to go on with, if any. */
  datatype Readdir = Readdir(dir: Id, fl: Option<nat>, open: bool)

  // ----- counting entries -----

  ghost function Live(list: seq<Option<Id>>): nat {
    if list == [] then 0 else Live(list[..|list| - 1]) + if list[|list| - 1].Some? then 1 else 0
  }

  lemma LiveAppend(list: seq<Option<Id>>, e: Option<Id>)
    ensures Live(list + [e]) == Live(list) + if e.Some? then 1 else 0
  {
    assert (list + [e])[..|list|] == list;
  }

  lemma {:induction false} LiveClear(list: seq<Option<Id>>, i: nat)
    requires i < |list| && list[i].Some?
    ensures Live(list[i := None]) == Live(list) - 1
  {
    var n := |list| - 1;
    var t := list[i := None];
    if i < n {
      assert t[..n] == list[..n][i := None];
      LiveClear(list[..n], i);
    } else {
      assert t[..n] == list[..n];
    }
  }

  lemma {:induction false} LiveSome(list: seq<Option<Id>>, i: nat)
    requires i < |list| && list[i].Some?
    ensures Live(list) > 0
  {
    if i < |list| - 1 {
      LiveSome(list[..|list| - 1], i);
    }
  }

  lemma {:induction false} LiveBound(list: seq<Option<Id>>)
    ensures Live(list) <= |list|
    ensures (forall i :: 0 <= i < |list| ==> list[i].Some?) ==> Live(list) == |list|
  {
    if list != [] {
      LiveBound(list[..|list| - 1]);
    }
  }

  /** The entries that are not empty. */
  function Cleaned(list: seq<Option<Id>>): (r: seq<Option<Id>>)
    ensures forall i :: 0 <= i < |r| ==> r[i].Some?
  {
    if list == [] then [] else Cleaned(list[..|list| - 1]) + if list[|list| - 1].Some? then [list[|list| - 1]] else []
  }

  lemma {:induction false} CleanedLive(list: seq<Option<Id>>)
    ensures |Cleaned(list)| == Live(list) && Live(Cleaned(list)) == Live(list)
  {
    LiveBound(Cleaned(list));
    CleanedLength(list);
  }

  lemma {:induction false} CleanedLength(list: seq<Option<Id>>)
    ensures |Cleaned(list)| == Live(list)
  {
    if list != [] {
      CleanedLength(list[..|list| - 1]);
    }
  }

  /** Where an entry of the cleaned list was before, and that the order is kept. */
  lemma {:induction false} CleanedFrom(list: seq<Option<Id>>, i: nat) returns (k: nat)
    requires i < |Cleaned(list)|
    ensures i <= k < |list| && list[k] == Cleaned(list)[i]
    decreases |list|
  {
    var n := |list| - 1;
    if i < |Cleaned(list[..n])| {
      k := CleanedFrom(list[..n], i);
    } else {
      k := n;
      CleanedLength(list[..n]);
      LiveBound(list[..n]);
    }
  }

  lemma {:induction false} CleanedOrder(list: seq<Option<Id>>, i: nat, j: nat) returns (k: nat, l: nat)
    requires i < j < |Cleaned(list)|
    ensures k < l < |list| && list[k] == Cleaned(list)[i] && list[l] == Cleaned(list)[j]
    decreases |list|
  {
    var n := |list| - 1;
    if j < |Cleaned(list[..n])| {
      k, l := CleanedOrder(list[..n], i, j);
    } else {
      l := n;
      k := CleanedFrom(list[..n], i);
    }
  }

  lemma {:induction false} CleanedHas(list: seq<Option<Id>>, k: nat) returns (i: nat)
    requires k < |list| && list[k].Some?
    ensures i < |Cleaned(list)| && Cleaned(list)[i] == list[k]
    decreases |list|
  {
    var n := |list| - 1;
    if k < n {
      i := CleanedHas(list[..n], k);
    } else {
      i := |Cleaned(list[..n])|;
    }
  }

  lemma {:induction false} CleanedConcat(a: seq<Option<Id>>, b: seq<Option<Id>>)
    ensures Cleaned(a + b) == Cleaned(a) + Cleaned(b)
  {
    if b == [] {
      assert a + b == a;
    } else {
      var n := |b| - 1;
      CleanedConcat(a, b[..n]);
      assert (a + b)[..|a| + n] == a + b[..n];
    }
  }

  lemma {:induction false} CleanedTwice(list: seq<Option<Id>>)
    requires forall i :: 0 <= i < |list| ==> list[i].Some?
    ensures Cleaned(list) == list
  {
    if list != [] {
      CleanedTwice(list[..|list| - 1]);
    }
  }

  /** One file less, the others in the same order. */
  ghost predicate OneLess(was: seq<Option<Id>>, list: seq<Option<Id>>, f: Id) {
    exists k {:trigger was[k]} :: 0 <= k < |was| && was[k] == Some(f) && list == was[..k] + was[k + 1..]
  }

  lemma {:induction false} CleanedAround(a: seq<Option<Id>>, e: Option<Id>, b: seq<Option<Id>>)
    ensures Cleaned(a + [e] + b) == Cleaned(a) + (if e.Some? then [e] else []) + Cleaned(b)
  {
    CleanedConcat(a + [e], b);
    assert (a + [e])[..|a|] == a;
  }

  lemma {:induction false} Spliced(a: seq<Option<Id>>, b: seq<Option<Id>>, f: Id)
    ensures OneLess(a + [Some(f)] + b, a + b, f)
  {
    var c := a + [Some(f)] + b;
    assert c[|a|] == Some(f) && c[..|a|] == a && c[|a| + 1..] == b;
  }

  lemma {:induction false} CleanedClear(list: seq<Option<Id>>, i: nat, f: Id)
    requires i < |list| && list[i] == Some(f)
    ensures OneLess(Cleaned(list), Cleaned(list[i := None]), f)
  {
    var a, b := list[..i], list[i + 1..];
    assert list == a + [list[i]] + b && list[i := None] == a + [None] + b;
    CleanedAround(a, list[i], b);
    CleanedAround(a, None, b);
    Spliced(Cleaned(a), Cleaned(b), f);
    assert Cleaned(a) + [] + Cleaned(b) == Cleaned(a) + Cleaned(b);
  }

  // ----- what every call keeps -----

  /** An entry of directory `d` and the file it names. */
  ghost predicate EntryOk(fs: seq<File>, d: Id, i: nat)
    requires d < |fs| && i < |fs[d].list|
  {
    fs[d].list[i].Some? ==>
      var c := fs[d].list[i].value; 0 < c < |fs| && fs[c].parent == Some(d) && !fs[c].freed
  }

  /** Two entries of a directory: in the order of creation, with different names. */
  ghost predicate PairOk(fs: seq<File>, d: Id, i: nat, j: nat)
    requires d < |fs| && i < |fs[d].list| && j < |fs[d].list|
  {
    i < j && fs[d].list[i].Some? && fs[d].list[j].Some? ==>
      var a, b := fs[d].list[i].value, fs[d].list[j].value; a < b && b < |fs| && fs[a].name != fs[b].name
  }

  /** File `f` is in the list of its parent. */
  ghost predicate Linked(fs: seq<File>, f: Id)
    requires f < |fs|
  {
    fs[f].parent.Some? && f != 0 ==> var p := fs[f].parent.value; p < |fs| && exists i :: 0 <= i < |fs[p].list| && fs[p].list[i] == Some(f)
  }

  ghost predicate FileOk(fs: seq<File>, f: Id)
    requires f < |fs|
  {
    && fs[f].qid == f && fs[f].nchild == Live(fs[f].list) && fs[f].nxchild == |fs[f].list| - Live(fs[f].list) && fs[f].readers >= 0
    && (f == 0 ==> fs[f].parent == Some(0)) && (fs[f].parent == None ==> fs[f].nchild == 0)
    && (fs[f].parent == Some(f) ==> f == 0) && (!fs[f].isdir ==> fs[f].list == [])
    && Linked(fs, f)
  }

  ghost predicate Shape(fs: seq<File>) {
    && |fs| > 0
    && (forall f: Id {:trigger FileOk(fs, f)} :: f < |fs| ==> FileOk(fs, f))
    && (forall d: Id, i: nat {:trigger EntryOk(fs, d, i)} :: d < |fs| && i < |fs[d].list| ==> EntryOk(fs, d, i))
    && (forall d: Id, i: nat, j: nat {:trigger PairOk(fs, d, i, j)} :: d < |fs| && i < |fs[d].list| && j < |fs[d].list| ==> PairOk(fs, d, i, j))
  }

  /** The count of a file is its link in the tree, its children, and the references handed out. */
  ghost predicate RefOk(fs: seq<File>, held: seq<nat>, f: Id)
    requires f < |fs| == |held|
  {
    && fs[f].ref == (if fs[f].parent.Some? then 1 else 0) + fs[f].nchild + held[f]
    && (fs[f].freed <==> fs[f].ref == 0)
  }

  ghost predicate Refs(fs: seq<File>, held: seq<nat>) {
    |fs| == |held| && forall f: Id {:trigger RefOk(fs, held, f)} :: f < |fs| ==> RefOk(fs, held, f)
  }

  // ----- counts and flags -----

  /** Only counts, the freed mark and the number of readers differ, and nothing linked was freed. */
  ghost predicate SameBut(fs: seq<File>, t: seq<File>) {
    && |fs| == |t|
    && forall f: Id {:trigger SameAt(fs, t, f)} :: f < |fs| ==> SameAt(fs, t, f)
  }

  ghost predicate SameAt(fs: seq<File>, t: seq<File>, f: Id)
    requires f < |fs| == |t|
  {
    t[f] == fs[f].(ref := t[f].ref, freed := t[f].freed, readers := t[f].readers) && (fs[f].parent.Some? && f != 0 && t[f].freed ==> fs[f].freed) && t[f].readers >= 0
  }

  lemma {:induction false} SameKeepsShape(fs: seq<File>, t: seq<File>)
    requires Shape(fs) && SameBut(fs, t)
    ensures Shape(t)
  {
    forall f: Id | f < |t| ensures FileOk(t, f) {
      assert FileOk(fs, f) && SameAt(fs, t, f);
      SameKeepsLink(fs, t, f);
    }
    forall d: Id, i: nat | d < |t| && i < |t[d].list| ensures EntryOk(t, d, i) {
      assert SameAt(fs, t, d) && EntryOk(fs, d, i);
      if t[d].list[i].Some? {
        assert SameAt(fs, t, t[d].list[i].value);
      }
    }
    forall d: Id, i: nat, j: nat | d < |t| && i < |t[d].list| && j < |t[d].list| ensures PairOk(t, d, i, j) {
      assert SameAt(fs, t, d) && PairOk(fs, d, i, j);
      if i < j && t[d].list[i].Some? && t[d].list[j].Some? {
        assert SameAt(fs, t, t[d].list[i].value) && SameAt(fs, t, t[d].list[j].value);
      }
    }
  }

  lemma {:induction false} SameKeepsLink(fs: seq<File>, t: seq<File>, f: Id)
    requires SameBut(fs, t) && f < |fs| && Linked(fs, f)
    ensures Linked(t, f)
  {
    assert SameAt(fs, t, f);
    if fs[f].parent.Some? && f != 0 {
      var p := fs[f].parent.value;
      assert SameAt(fs, t, p);
      var i :| 0 <= i < |fs[p].list| && fs[p].list[i] == Some(f);
      assert t[p].list[i] == Some(f);
    }
  }

  // ----- creating -----

  function Created(fs: seq<File>, p: Id, name: string, isdir: bool): seq<File>
    requires p < |fs|
  {
    var id := |fs|;
    fs[p := fs[p].(list := fs[p].list + [Some(id)], nchild := fs[p].nchild + 1, ref := fs[p].ref + 1)]
      + [File(name, id, isdir, Some(p), 2, [], 0, 0, 0, false)]
  }

  /** No file in directory `p` is called `name`. */
  ghost predicate Free(fs: seq<File>, p: Id, name: string)
    requires p < |fs|
  {
    forall i {:trigger fs[p].list[i]} :: 0 <= i < |fs[p].list| && fs[p].list[i].Some? && fs[p].list[i].value < |fs| ==> fs[fs[p].list[i].value].name != name
  }

  lemma {:induction false} CreateKeepsFiles(fs: seq<File>, p: Id, name: string, isdir: bool, f: Id)
    requires Shape(fs) && p < |fs| && fs[p].isdir && fs[p].parent.Some? && f <= |fs|
    ensures FileOk(Created(fs, p, name, isdir), f)
  {
    var t := Created(fs, p, name, isdir);
    if f < |fs| {
      assert FileOk(fs, f);
      LiveAppend(fs[p].list, Some(|fs|));
      if f != 0 && fs[f].parent.Some? {
        var q := fs[f].parent.value;
        var i :| 0 <= i < |fs[q].list| && fs[q].list[i] == Some(f);
        assert t[q].list[i] == Some(f);
      }
    } else {
      assert t[p].list[|fs[p].list|] == Some(f);
    }
  }

  lemma {:induction false} CreateKeepsShape(fs: seq<File>, p: Id, name: string, isdir: bool)
    requires Shape(fs) && p < |fs| && fs[p].isdir && fs[p].parent.Some? && Free(fs, p, name)
    ensures Shape(Created(fs, p, name, isdir))
  {
    var t := Created(fs, p, name, isdir);
    forall f: Id | f < |t| ensures FileOk(t, f) {
      CreateKeepsFiles(fs, p, name, isdir, f);
    }
    forall d: Id, i: nat | d < |t| && i < |t[d].list| ensures EntryOk(t, d, i) {
      if d < |fs| && i < |fs[d].list| {
        assert EntryOk(fs, d, i);
      }
    }
    forall d: Id, i: nat, j: nat | d < |t| && i < |t[d].list| && j < |t[d].list| ensures PairOk(t, d, i, j) {
      if d < |fs| && i < |fs[d].list| {
        assert EntryOk(fs, d, i);
        if j < |fs[d].list| {
          assert PairOk(fs, d, i, j);
        }
      }
    }
  }

  // ----- removing -----

  /** The entry of `f` in its directory `p` is emptied, and `f` is cut off. */
  function Unlinked(fs: seq<File>, f: Id, p: Id, i: nat): seq<File>
    requires f < |fs| && p < |fs| && i < |fs[p].list| && f != p
  {
    fs[p := fs[p].(list := fs[p].list[i := None], nchild := fs[p].nchild - 1, nxchild := fs[p].nxchild + 1)][f := fs[f].(parent := None)]
  }

  lemma {:induction false} OnlyEntry(fs: seq<File>, d: Id, i: nat, e: Id, j: nat)
    requires Shape(fs) && d < |fs| && e < |fs| && i < |fs[d].list| && j < |fs[e].list| && fs[d].list[i].Some? && fs[d].list[i] == fs[e].list[j]
    ensures d == e && i == j
  {
    assert EntryOk(fs, d, i) && EntryOk(fs, e, j);
    assert PairOk(fs, d, i, j) && PairOk(fs, d, j, i);
  }

  lemma {:induction false} UnlinkKeepsFiles(fs: seq<File>, f: Id, p: Id, i: nat, x: Id)
    requires Shape(fs) && 0 < f < |fs| && p < |fs| && i < |fs[p].list| && fs[p].list[i] == Some(f) && fs[f].nchild == 0 && f != p && x < |fs|
    ensures FileOk(Unlinked(fs, f, p, i), x)
  {
    var t := Unlinked(fs, f, p, i);
    assert FileOk(fs, x) && FileOk(fs, p) && FileOk(fs, f) && EntryOk(fs, p, i);
    LiveClear(fs[p].list, i);
    if x != f && x != 0 && fs[x].parent.Some? {
      var q := fs[x].parent.value;
      var k :| 0 <= k < |fs[q].list| && fs[q].list[k] == Some(x);
      assert t[q].list[k] == Some(x);
    }
  }

  lemma {:induction false} UnlinkKeepsShape(fs: seq<File>, f: Id, p: Id, i: nat)
    requires Shape(fs) && 0 < f < |fs| && p < |fs| && i < |fs[p].list| && fs[p].list[i] == Some(f) && fs[f].nchild == 0 && f != p
    ensures Shape(Unlinked(fs, f, p, i))
  {
    var t := Unlinked(fs, f, p, i);
    forall x: Id | x < |t| ensures FileOk(t, x) {
      UnlinkKeepsFiles(fs, f, p, i, x);
    }
    forall d: Id, j: nat | d < |t| && j < |t[d].list| ensures EntryOk(t, d, j) {
      assert EntryOk(fs, d, j);
      if t[d].list[j] == Some(f) {
        OnlyEntry(fs, p, i, d, j);
      }
    }
    forall d: Id, j: nat, k: nat | d < |t| && j < |t[d].list| && k < |t[d].list| ensures PairOk(t, d, j, k) {
      assert PairOk(fs, d, j, k);
    }
  }

  /** `cleanfilelist`: the empty entries go, unless somebody is reading. */
  function Clean(fs: seq<File>, d: Id): seq<File>
    requires d < |fs|
  {
    if fs[d].readers != 0 || fs[d].nxchild == 0 then fs else fs[d := fs[d].(list := Cleaned(fs[d].list), nxchild := 0)]
  }

  lemma {:induction false} CleanKeepsShape(fs: seq<File>, d: Id)
    requires Shape(fs) && d < |fs|
    ensures Shape(Clean(fs, d))
  {
    var t := Clean(fs, d);
    if t != fs {
      assert FileOk(fs, d);
      CleanedLive(fs[d].list);
      forall f: Id | f < |t| ensures FileOk(t, f) {
        assert FileOk(fs, f);
        if f != 0 && fs[f].parent.Some? {
          var q := fs[f].parent.value;
          var i :| 0 <= i < |fs[q].list| && fs[q].list[i] == Some(f);
          if q == d {
            var k := CleanedHas(fs[d].list, i);
            assert t[q].list[k] == Some(f);
          } else {
            assert t[q].list[i] == Some(f);
          }
        }
      }
      forall e: Id, i: nat | e < |t| && i < |t[e].list| ensures EntryOk(t, e, i) {
        if e == d {
          var k := CleanedFrom(fs[d].list, i);
          assert EntryOk(fs, d, k);
        } else {
          assert EntryOk(fs, e, i);
        }
      }
      forall e: Id, i: nat, j: nat | e < |t| && i < |t[e].list| && j < |t[e].list| ensures PairOk(t, e, i, j) {
        if e == d && i < j {
          var k, l := CleanedOrder(fs[d].list, i, j);
          assert PairOk(fs, d, k, l);
        } else {
          assert e != d ==> PairOk(fs, e, i, j);
        }
      }
    }
  }

  // ----- readers -----

  /** What a reader has been given: how many entries it has passed, which files it got since it started at the
      beginning, and which files were there then. */
  datatype History = History(done: nat, seen: seq<Id>, present: set<Id>)

  ghost predicate NoRepeat(s: seq<Id>) { forall i, j :: 0 <= i < j < |s| ==> s[i] != s[j] }

  /** Entry `i` of the directory has been passed exactly if its file was given out. */
  ghost predicate PassedAt(list: seq<Option<Id>>, h: History, i: nat)
    requires i < |list|
  {
    list[i].Some? ==> (list[i].value in h.seen <==> i < h.done)
  }

  ghost predicate ReaderOk(fs: seq<File>, r: Readdir, h: History) {
    && r.dir < |fs|
    && (r.open ==>
        && h.done <= |fs[r.dir].list|
        && (r.fl.Some? ==> r.fl.value == h.done < |fs[r.dir].list|)
        && NoRepeat(h.seen) && (forall f :: f in h.seen ==> f < |fs|) && (forall f :: f in h.present ==> f < |fs|)
        && (forall i: nat {:trigger PassedAt(fs[r.dir].list, h, i)} :: i < |fs[r.dir].list| ==> PassedAt(fs[r.dir].list, h, i))
        && (r.fl.None? ==> Finished(fs[r.dir].list, h)))
  }

  /** A reader at the end has been given every file that was there when it started and still is. */
  ghost predicate Finished(list: seq<Option<Id>>, h: History) {
    forall i {:trigger list[i]} :: 0 <= i < |list| && list[i].Some? && list[i].value in h.present ==> i < h.done
  }

  ghost function OpenOn(rs: seq<Readdir>, d: Id): nat {
    if rs == [] then 0 else OpenOn(rs[..|rs| - 1], d) + if rs[|rs| - 1].open && rs[|rs| - 1].dir == d then 1 else 0
  }

  lemma {:induction false} OpenSome(rs: seq<Readdir>, i: nat)
    requires i < |rs| && rs[i].open
    ensures OpenOn(rs, rs[i].dir) > 0
  {
    if i < |rs| - 1 {
      OpenSome(rs[..|rs| - 1], i);
    }
  }

  lemma {:induction false} OpenUpdate(rs: seq<Readdir>, i: nat, r: Readdir, d: Id)
    requires i < |rs|
    ensures OpenOn(rs[i := r], d) == OpenOn(rs, d) - (if rs[i].open && rs[i].dir == d then 1 else 0) + if r.open && r.dir == d then 1 else 0
  {
    var n := |rs| - 1;
    var t := rs[i := r];
    if i < n {
      assert t[..n] == rs[..n][i := r];
      OpenUpdate(rs[..n], i, r, d);
    } else {
      assert t[..n] == rs[..n];
    }
  }

  ghost predicate ReadersOk(fs: seq<File>, rs: seq<Readdir>, hs: seq<History>) {
    && |rs| == |hs|
    && (forall r: nat {:trigger ReaderOk(fs, rs[r], hs[r])} :: r < |rs| ==> ReaderOk(fs, rs[r], hs[r]))
    && (forall d: Id {:trigger OpenOn(rs, d)} :: d < |fs| ==> fs[d].readers == OpenOn(rs, d))
  }

  /** Directory `d` changed only in ways a reader can stand: entries emptied, new files at the end. */
  ghost predicate Extends(l: seq<Option<Id>>, m: seq<Option<Id>>, bound: nat) {
    && |l| <= |m|
    && (forall i {:trigger m[i]} :: 0 <= i < |l| ==> m[i] == l[i] || m[i] == None)
    && (forall i {:trigger m[i]} :: |l| <= i < |m| ==> m[i].Some? ==> m[i].value >= bound)
  }

  lemma {:induction false} ReaderStands(fs: seq<File>, t: seq<File>, r: Readdir, h: History)
    requires ReaderOk(fs, r, h) && |fs| <= |t| && (r.open ==> Extends(fs[r.dir].list, t[r.dir].list, |fs|))
    ensures ReaderOk(t, r, h)
  {
    if r.open {
      var l, m := fs[r.dir].list, t[r.dir].list;
      forall i: nat | i < |m| ensures PassedAt(m, h, i) {
        if i < |l| {
          assert PassedAt(l, h, i);
        }
      }
    }
  }

  lemma {:induction false} AllStand(fs: seq<File>, t: seq<File>, rs: seq<Readdir>, hs: seq<History>)
    requires ReadersOk(fs, rs, hs) && |fs| <= |t|
    requires forall d: Id {:trigger t[d]} :: d < |fs| ==> t[d].readers == fs[d].readers && (t[d].readers > 0 ==> Extends(fs[d].list, t[d].list, |fs|))
    requires forall d: Id {:trigger t[d]} :: |fs| <= d < |t| ==> t[d].readers == 0
    ensures ReadersOk(t, rs, hs)
  {
    forall r: nat | r < |rs| ensures ReaderOk(t, rs[r], hs[r]) {
      assert ReaderOk(fs, rs[r], hs[r]);
      if rs[r].open {
        OpenSome(rs, r);
        assert t[rs[r].dir].readers == OpenOn(rs, rs[r].dir);
      }
      ReaderStands(fs, t, rs[r], hs[r]);
    }
    forall d: Id | d < |t| ensures t[d].readers == OpenOn(rs, d) {
      if d >= |fs| {
        NoneOn(fs, rs, hs, d);
      }
    }
  }

  lemma {:induction false} NoneOn(fs: seq<File>, rs: seq<Readdir>, hs: seq<History>, d: Id)
    requires |rs| == |hs| && d >= |fs| && forall r: nat {:trigger ReaderOk(fs, rs[r], hs[r])} :: r < |rs| ==> ReaderOk(fs, rs[r], hs[r])
    ensures OpenOn(rs, d) == 0
  {
    if rs != [] {
      var n := |rs| - 1;
      assert ReaderOk(fs, rs[n], hs[n]);
      forall r: nat | r < n ensures ReaderOk(fs, rs[..n][r], hs[..n][r]) {
        assert ReaderOk(fs, rs[r], hs[r]);
      }
      NoneOn(fs, rs[..n], hs[..n], d);
    }
  }

  /** `closefile`: one reference less; the last one frees the file. */
  function Dropped(fs: seq<File>, f: Id): seq<File>
    requires f < |fs|
  {
    fs[f := fs[f].(ref := fs[f].ref - 1, freed := fs[f].ref == 1)]
  }

  /** The whole state. */
  ghost predicate Good(fs: seq<File>, held: seq<nat>, rs: seq<Readdir>, hs: seq<History>) {
    Shape(fs) && Refs(fs, held) && ReadersOk(fs, rs, hs)
  }

  lemma {:induction false} DropKeeps(fs: seq<File>, held: seq<nat>, rs: seq<Readdir>, hs: seq<History>, f: Id)
    requires Good(fs, held, rs, hs) && f < |fs| && held[f] > 0
    ensures Good(Dropped(fs, f), held[f := held[f] - 1], rs, hs)
  {
    var t, h := Dropped(fs, f), held[f := held[f] - 1];
    assert RefOk(fs, held, f) && FileOk(fs, f);
    LiveBound(fs[f].list);
    forall x: Id | x < |t| ensures SameAt(fs, t, x) && RefOk(t, h, x) {
      assert RefOk(fs, held, x) && FileOk(fs, x);
    }
    SameKeepsShape(fs, t);
    forall d: Id | d < |fs| ensures Extends(fs[d].list, t[d].list, |fs|) {
    }
    AllStand(fs, t, rs, hs);
  }

  lemma {:induction false} CreateKeeps(fs: seq<File>, held: seq<nat>, rs: seq<Readdir>, hs: seq<History>, p: Id, name: string, isdir: bool)
    requires Good(fs, held, rs, hs) && p < |fs| && fs[p].isdir && fs[p].parent.Some? && Free(fs, p, name)
    ensures Good(Created(fs, p, name, isdir), held + [1], rs, hs)
  {
    var t, h := Created(fs, p, name, isdir), held + [1];
    CreateKeepsShape(fs, p, name, isdir);
    forall x: Id | x < |t| ensures RefOk(t, h, x) {
      if x < |fs| {
        assert RefOk(fs, held, x) && FileOk(fs, x);
        LiveBound(fs[x].list);
      }
    }
    forall d: Id | d < |fs| ensures t[d].readers == fs[d].readers && Extends(fs[d].list, t[d].list, |fs|) {
    }
    AllStand(fs, t, rs, hs);
  }

  /** The file is cut off, the directory tidied, and three references given up: the child's to its directory,
      the tree's and the caller's. */
  function Removed(fs: seq<File>, f: Id, p: Id, i: nat): seq<File>
    requires f < |fs| && p < |fs| && i < |fs[p].list| && f != p
  {
    Dropped(Dropped(Dropped(Clean(Unlinked(fs, f, p, i), p), p), f), f)
  }

  /** The files differ at most in their lists and counts. */
  predicate SameFile(f: File, g: File) { f.name == g.name && f.qid == g.qid && f.isdir == g.isdir && f.parent == g.parent }

  /** Directory `p` lists the same files in the same order, but for `f`; every file besides these two is as it was. */
  ghost predicate TakenOut(fs: seq<File>, t: seq<File>, f: Id, p: Id)
    requires p < |fs| == |t|
  {
    && SameFile(fs[p], t[p]) && OneLess(Cleaned(fs[p].list), Cleaned(t[p].list), f)
    && forall x: Id {:trigger t[x]} :: x < |t| && x != f && x != p ==> t[x] == fs[x]
  }

  lemma {:induction false} RemovedIsTakenOut(fs: seq<File>, f: Id, p: Id, i: nat)
    requires f < |fs| && p < |fs| && f != p && i < |fs[p].list| && fs[p].list[i] == Some(f)
    ensures TakenOut(fs, Removed(fs, f, p, i), f, p)
  {
    CleanedClear(fs[p].list, i, f);
    CleanedTwice(Cleaned(fs[p].list[i := None]));
  }

  lemma {:induction false} RemoveKeepsRefs(fs: seq<File>, held: seq<nat>, f: Id, p: Id, i: nat)
    requires Shape(fs) && Refs(fs, held) && 0 < f < |fs| && p < |fs| && i < |fs[p].list| && fs[p].list[i] == Some(f)
    requires fs[f].nchild == 0 && f != p && held[f] > 0
    ensures Refs(Removed(fs, f, p, i), held[f := held[f] - 1])
  {
    var t, h := Removed(fs, f, p, i), held[f := held[f] - 1];
    assert EntryOk(fs, p, i) && FileOk(fs, p) && FileOk(fs, f) && RefOk(fs, held, p) && RefOk(fs, held, f);
    LiveSome(fs[p].list, i);
    forall x: Id | x < |t| ensures RefOk(t, h, x) {
      assert RefOk(fs, held, x);
    }
  }

  lemma {:induction false} RemoveKeepsShape(fs: seq<File>, held: seq<nat>, f: Id, p: Id, i: nat)
    requires Shape(fs) && Refs(fs, held) && 0 < f < |fs| && p < |fs| && i < |fs[p].list| && fs[p].list[i] == Some(f)
    requires fs[f].nchild == 0 && f != p && held[f] > 0
    ensures Shape(Removed(fs, f, p, i))
  {
    var u := Unlinked(fs, f, p, i);
    UnlinkKeepsShape(fs, f, p, i);
    CleanKeepsShape(u, p);
    var v, t := Clean(u, p), Removed(fs, f, p, i);
    assert EntryOk(fs, p, i) && FileOk(fs, p) && FileOk(v, p) && RefOk(fs, held, p) && RefOk(fs, held, f) && FileOk(fs, f);
    LiveSome(fs[p].list, i);
    forall x: Id | x < |t| ensures SameAt(v, t, x) {
      assert FileOk(v, x);
    }
    SameKeepsShape(v, t);
  }

  lemma {:induction false} RemoveKeeps(fs: seq<File>, held: seq<nat>, rs: seq<Readdir>, hs: seq<History>, f: Id, p: Id, i: nat)
    requires Good(fs, held, rs, hs) && 0 < f < |fs| && p < |fs| && i < |fs[p].list| && fs[p].list[i] == Some(f)
    requires fs[f].nchild == 0 && f != p && held[f] > 0
    ensures Good(Removed(fs, f, p, i), held[f := held[f] - 1], rs, hs)
  {
    RemoveKeepsShape(fs, held, f, p, i);
    RemoveKeepsRefs(fs, held, f, p, i);
    var t := Removed(fs, f, p, i);
    forall d: Id | d < |fs| ensures t[d].readers == fs[d].readers && (t[d].readers > 0 ==> Extends(fs[d].list, t[d].list, |fs|)) {
    }
    AllStand(fs, t, rs, hs);
  }

  // ----- reading a directory -----

  ghost function LiveSet(list: seq<Option<Id>>): set<Id> { set i | 0 <= i < |list| && list[i].Some? :: list[i].value }

  function First(list: seq<Option<Id>>): Option<nat> { if list == [] then None else Some(0) }

  function Following(list: seq<Option<Id>>, k: nat): Option<nat> { if k + 1 < |list| then Some(k + 1) else None }

  /** A reader at the beginning of its directory. */
  lemma {:induction false} ReaderStarts(fs: seq<File>, d: Id)
    requires Shape(fs) && d < |fs|
    ensures ReaderOk(fs, Readdir(d, First(fs[d].list), true), History(0, [], LiveSet(fs[d].list)))
  {
    forall f | f in LiveSet(fs[d].list) ensures f < |fs| {
      var i :| 0 <= i < |fs[d].list| && fs[d].list[i] == Some(f);
      assert EntryOk(fs, d, i);
    }
  }

  ghost function Passes(list: seq<Option<Id>>, h: History, k: nat): History
    requires k < |list|
  {
    History(k + 1, if list[k].Some? then h.seen + [list[k].value] else h.seen, h.present)
  }

  /** One entry further. */
  lemma {:induction false} ReaderPasses(fs: seq<File>, r: Readdir, h: History, k: nat)
    requires Shape(fs) && ReaderOk(fs, r, h) && r.open && r.fl == Some(k)
    ensures k < |fs[r.dir].list| && ReaderOk(fs, r.(fl := Following(fs[r.dir].list, k)), Passes(fs[r.dir].list, h, k))
  {
    var l := fs[r.dir].list;
    var q, g := r.(fl := Following(l, k)), Passes(l, h, k);
    assert PassedAt(l, h, k) && EntryOk(fs, r.dir, k);
    forall i: nat | i < |l| ensures PassedAt(l, g, i) {
      assert PassedAt(l, h, i) && PairOk(fs, r.dir, i, k) && PairOk(fs, r.dir, k, i);
    }
  }

  lemma {:induction false} ReaderReplaced(fs: seq<File>, rs: seq<Readdir>, hs: seq<History>, r: nat, q: Readdir, h: History)
    requires ReadersOk(fs, rs, hs) && r < |rs| && q.dir == rs[r].dir && q.open == rs[r].open && ReaderOk(fs, q, h)
    ensures ReadersOk(fs, rs[r := q], hs[r := h])
  {
    var ss, gs := rs[r := q], hs[r := h];
    forall x: nat | x < |ss| ensures ReaderOk(fs, ss[x], gs[x]) {
      assert ReaderOk(fs, rs[x], hs[x]);
    }
    forall d: Id | d < |fs| ensures fs[d].readers == OpenOn(ss, d) {
      OpenUpdate(rs, r, q, d);
    }
  }

  /** One more reader, or one less, on directory `d`. */
  function Counted(fs: seq<File>, d: Id, n: int): seq<File>
    requires d < |fs|
  {
    fs[d := fs[d].(readers := fs[d].readers + n)]
  }

  lemma {:induction false} CountKeeps(fs: seq<File>, held: seq<nat>, d: Id, n: int)
    requires Shape(fs) && Refs(fs, held) && d < |fs| && fs[d].readers + n >= 0
    ensures Shape(Counted(fs, d, n)) && Refs(Counted(fs, d, n), held)
  {
    var t := Counted(fs, d, n);
    forall x: Id | x < |t| ensures SameAt(fs, t, x) && RefOk(t, held, x) {
      assert RefOk(fs, held, x) && FileOk(fs, x);
    }
    SameKeepsShape(fs, t);
  }

  lemma {:induction false} OpenKeeps(fs: seq<File>, held: seq<nat>, rs: seq<Readdir>, hs: seq<History>, d: Id)
    requires Good(fs, held, rs, hs) && d < |fs|
    ensures Good(Counted(fs, d, 1), held, rs + [Readdir(d, First(fs[d].list), true)], hs + [History(0, [], LiveSet(fs[d].list))])
  {
    var t, ss, gs := Counted(fs, d, 1), rs + [Readdir(d, First(fs[d].list), true)], hs + [History(0, [], LiveSet(fs[d].list))];
    assert FileOk(fs, d);
    CountKeeps(fs, held, d, 1);
    ReaderStarts(t, d);
    forall x: nat | x < |ss| ensures ReaderOk(t, ss[x], gs[x]) {
      if x < |rs| {
        assert ReaderOk(fs, rs[x], hs[x]);
        ReaderStands(fs, t, rs[x], hs[x]);
      }
    }
    assert ss[..|rs|] == rs;
    forall e: Id | e < |t| ensures t[e].readers == OpenOn(ss, e) {
      assert fs[e].readers == OpenOn(rs, e);
    }
  }

  lemma {:induction false} ShutKeeps(fs: seq<File>, held: seq<nat>, rs: seq<Readdir>, hs: seq<History>, r: nat)
    requires Good(fs, held, rs, hs) && r < |rs| && rs[r].open
    ensures rs[r].dir < |fs| && Good(Counted(fs, rs[r].dir, -1), held, rs[r := rs[r].(open := false)], hs)
  {
    assert ReaderOk(fs, rs[r], hs[r]);
    var d, ss := rs[r].dir, rs[r := rs[r].(open := false)];
    var t := Counted(fs, d, -1);
    OpenSome(rs, r);
    assert fs[d].readers == OpenOn(rs, d);
    CountKeeps(fs, held, d, -1);
    forall x: nat | x < |ss| ensures ReaderOk(t, ss[x], hs[x]) {
      assert ReaderOk(fs, rs[x], hs[x]);
      ReaderStands(fs, t, rs[x], hs[x]);
    }
    forall e: Id | e < |t| ensures t[e].readers == OpenOn(ss, e) {
      OpenUpdate(rs, r, ss[r], e);
      assert fs[e].readers == OpenOn(rs, e);
    }
  }

  lemma {:induction false} CleanKeeps(fs: seq<File>, held: seq<nat>, rs: seq<Readdir>, hs: seq<History>, d: Id)
    requires Good(fs, held, rs, hs) && d < |fs|
    ensures Good(Clean(fs, d), held, rs, hs)
  {
    var t := Clean(fs, d);
    CleanKeepsShape(fs, d);
    forall x: Id | x < |t| ensures RefOk(t, held, x) {
      assert RefOk(fs, held, x);
    }
    forall e: Id | e < |fs| ensures t[e].readers == fs[e].readers && (t[e].readers > 0 ==> Extends(fs[e].list, t[e].list, |fs|)) {
      assert FileOk(fs, e);
    }
    AllStand(fs, t, rs, hs);
  }

  /** How many bytes the records of these files take. */
  function Bytes(fs: seq<Id>, size: Id -> nat): nat {
    if fs == [] then 0 else Bytes(fs[..|fs| - 1], size) + size(fs[|fs| - 1])
  }

  lemma BytesAppend(fs: seq<Id>, f: Id, size: Id -> nat)
    ensures Bytes(fs + [f], size) == Bytes(fs, size) + size(f)
  {
    assert (fs + [f])[..|fs|] == fs;
  }

  // ----- the tree -----

  class Tree {
    var files: seq<File>
    var qidgen: nat
    var rdirs: seq<Readdir>
    ghost var held: seq<nat>
    ghost var hist: seq<History>

    ghost predicate Valid()
      reads this
    {
      Good(files, held, rdirs, hist) && qidgen == |files|
    }

    /** `alloctree`: a root directory, its own parent. */
    constructor ()
      ensures Valid() && held == [0] && rdirs == [] && |files| == 1 && qidgen == 1
      ensures files[0].name == "/" && files[0].qid == 0 && files[0].isdir && files[0].parent == Some(0) && files[0].list == []
    {
      files := [File("/", 0, true, Some(0), 1, [], 0, 0, 0, false)];
      qidgen, rdirs, held, hist := 1, [], [0], [];
      new;
      assert FileOk(files, 0) && RefOk(files, held, 0);
    }

    /** `closefile`, giving up a reference that was handed out. */
    method Closefile(f: Id)
      requires Valid() && f < |files| && held[f] > 0
      modifies this`files, this`held
      ensures Valid() && files == Dropped(old(files), f) && held == old(held)[f := old(held)[f] - 1]
      ensures files == old(files)[f := old(files)[f].(ref := old(files)[f].ref - 1, freed := files[f].freed)]
      ensures files[f].freed <==> old(files)[f].ref == 1
    {
      DropKeeps(files, held, rdirs, hist, f);
      files := Dropped(files, f);
      held := held[f := held[f] - 1];
    }

    /** Find the entry for a name. */
    method Lookup(d: Id, name: string) returns (r: Option<Id>)
      requires Valid() && d < |files|
      ensures r.None? ==> Free(files, d, name)
      ensures r.Some? ==> 0 < r.value < |files| && files[r.value].name == name && files[r.value].parent == Some(d) && !files[r.value].freed
    {
      var list := files[d].list;
      for i := 0 to |list|
        invariant forall j {:trigger list[j]} :: 0 <= j < i && list[j].Some? && list[j].value < |files| ==> files[list[j].value].name != name
      {
        assert EntryOk(files, d, i);
        if list[i].Some? && files[list[i].value].name == name {
          return list[i];
        }
      }
      r := None;
    }

    /** `createfile`: a new file at the end of its directory, with a name that was free and the next qid path. */
    method Createfile(p: Id, name: string, isdir: bool) returns (r: Option<Id>)
      requires Valid() && p < |files| && held[p] > 0
      modifies this`files, this`held, this`qidgen
      ensures Valid()
      ensures r.Some? <==> old(files[p].isdir && files[p].parent.Some? && Free(files, p, name))
      ensures r.Some? ==> r == Some(|old(files)|) && |files| == |old(files)| + 1 && held == old(held) + [1] && qidgen == old(qidgen) + 1
      ensures r.Some? ==> var f := files[r.value]; f.name == name && f.isdir == isdir && f.parent == Some(p) && f.qid == old(qidgen)
      ensures r.Some? ==> var f := files[r.value]; f.list == [] && f.nchild == 0 && f.nxchild == 0 && f.readers == 0 && !f.freed && f.ref == 2
      ensures r.Some? ==> files[p] == old(files)[p].(list := old(files)[p].list + [r], nchild := old(files)[p].nchild + 1, ref := old(files)[p].ref + 1)
      ensures r.Some? ==> Cleaned(files[p].list) == Cleaned(old(files)[p].list) + [r]
      ensures r.Some? ==> forall f: Id {:trigger files[f]} :: f < |old(files)| && f != p ==> files[f] == old(files)[f]
      ensures r.None? ==> files == old(files) && held == old(held) && qidgen == old(qidgen)
    {
      if !files[p].isdir || files[p].parent.None? {
        return None;
      }
      var other := Lookup(p, name);
      if other.Some? {
        NotFree(files, p, name, other.value);
        return None;
      }
      CreateKeeps(files, held, rdirs, hist, p, name, isdir);
      r := Some(|files|);
      CleanedAppend(files[p].list, r);
      files := Created(files, p, name, isdir);
      qidgen := qidgen + 1;
      held := held + [1];
    }

    /** A file that was created is found by its name and can be read as a directory exactly if it was to be one; only
        the name of the parent is taken to mean the parent. */
    method CreateWalkOpen(p: Id, name: string, isdir: bool) returns (r: Option<Id>, w: Option<Id>, o: Option<nat>)
      requires Valid() && p < |files| && held[p] > 0
      modifies this`files, this`held, this`qidgen, this`rdirs, this`hist
      ensures Valid() && (r.Some? <==> old(files[p].isdir && files[p].parent.Some? && Free(files, p, name)))
      ensures r.Some? ==> w == if name == ".." then old(files[p].parent) else r
      ensures r.Some? && name != ".." ==> (o.Some? <==> isdir)
    {
      w, o := None, None;
      r := Createfile(p, name, isdir);
      if r.Some? {
        NamedIsOnly(files, p, name, r.value);
        w := Walkfile1(p, name);
        if w.Some? && name != ".." {
          o := Opendirfile(w.value);
        }
      }
    }

    /** Find where a file is in the list of its directory. */
    method FindEntry(p: Id, f: Id) returns (i: nat)
      requires Valid() && p < |files| && 0 < f < |files| && files[f].parent == Some(p)
      ensures i < |files[p].list| && files[p].list[i] == Some(f)
    {
      assert FileOk(files, f);
      ghost var k :| 0 <= k < |files[p].list| && files[p].list[k] == Some(f);
      i := 0;
      while files[p].list[i] != Some(f)
        invariant 0 <= i <= k
        decreases k - i
      {
        i := i + 1;
      }
    }

    /** `cleanfilelist`: walk the list and drop the empty entries, unless somebody is reading. */
    method Cleanfilelist(d: Id)
      requires d < |files|
      modifies this`files
      ensures files == Clean(old(files), d)
      ensures files == old(files)[d := old(files)[d].(list := files[d].list, nxchild := files[d].nxchild)]
      ensures if old(files)[d].readers == 0 && old(files)[d].nxchild != 0 then files[d].list == Cleaned(old(files)[d].list) && files[d].nxchild == 0
              else files == old(files)
    {
      if files[d].readers != 0 || files[d].nxchild == 0 {
        return;
      }
      var list := files[d].list;
      var kept: seq<Option<Id>> := [];
      for i := 0 to |list|
        invariant kept == Cleaned(list[..i]) && files == old(files)
      {
        assert list[..i + 1][..i] == list[..i];
        if list[i].Some? {
          kept := kept + [list[i]];
        }
      }
      assert list[..|list|] == list;
      files := files[d := files[d].(list := kept, nxchild := 0)];
    }

    /** Take a file out of its directory, with the references that go. */
    method Unlink(f: Id, p: Id, i: nat)
      requires f < |files| && p < |files| && i < |files[p].list| && f != p
      modifies this`files
      ensures files == Removed(old(files), f, p, i)
    {
      files := Unlinked(files, f, p, i);
      Cleanfilelist(p);
      files := Dropped(files, p);
      files := Dropped(files, f);
      files := Dropped(files, f);
    }

    /** `removefile`: takes a file without children out of the tree; in every case the caller's reference is gone. */
    method Removefile(f: Id) returns (ok: bool)
      requires Valid() && f < |files| && held[f] > 0
      modifies this`files, this`held
      ensures Valid() && held == old(held)[f := old(held)[f] - 1] && |files| == |old(files)|
      ensures ok <==> old(f != 0 && files[f].parent.Some? && files[f].nchild == 0)
      ensures ok ==> files[f].parent == None && forall d: Id, i :: d < |files| && 0 <= i < |files[d].list| ==> files[d].list[i] != Some(f)
      ensures ok ==> old(files[f].parent.value) < |files| && TakenOut(old(files), files, f, old(files[f].parent.value))
      ensures ok ==> files[f].name == old(files)[f].name && files[f].isdir == old(files)[f].isdir && files[f].list == old(files)[f].list
      ensures !ok ==> files == old(files)[f := old(files)[f].(ref := old(files)[f].ref - 1, freed := old(files)[f].ref == 1)]
    {
      var parent := files[f].parent;
      assert FileOk(files, f);
      if parent.None? || parent.value == f || files[f].nchild != 0 {
        Closefile(f);
        return false;
      }
      var p := parent.value;
      var i := FindEntry(p, f);
      RemoveKeeps(files, held, rdirs, hist, f, p, i);
      RemovedIsTakenOut(files, f, p, i);
      Unlink(f, p, i);
      held := held[f := held[f] - 1];
      ok := true;
      Gone(files, f);
    }

    /** `walkfile1`: from a directory to a file in it, or up; the reference to the directory goes, one to the result comes. */
    method Walkfile1(d: Id, elem: string) returns (r: Option<Id>)
      requires Valid() && d < |files| && held[d] > 0
      modifies this`files, this`held
      ensures Valid() && |files| == |old(files)| == |held|
      ensures elem == ".." ==> r == old(files[d].parent)
      ensures elem != ".." && r.None? ==> Free(old(files), d, elem)
      ensures elem != ".." && r.Some? ==> 0 < r.value < |old(files)| && old(files)[r.value].name == elem && old(files)[r.value].parent == Some(d)
      ensures forall f: Id {:trigger held[f]} :: f < |held| ==> held[f] == old(held)[f] + (if r == Some(f) then 1 else 0) - (if f == d then 1 else 0)
      ensures forall f: Id {:trigger files[f]} :: f < |files| ==> files[f] == old(files)[f].(ref := files[f].ref, freed := files[f].freed)
    {
      if elem == ".." {
        r := files[d].parent;
        assert FileOk(files, d);
      } else {
        r := Lookup(d, elem);
      }
      if r.Some? {
        if elem == ".." {
          ParentLives(files, held, d);
        }
        Take(r.value);
      }
      Closefile(d);
    }

    /** `incref`: hand out a reference to a file that is in the tree. */
    method Take(f: Id)
      requires Valid() && f < |files| && !files[f].freed
      modifies this`files, this`held
      ensures Valid() && |files| == |old(files)| && held == old(held)[f := old(held)[f] + 1]
      ensures forall x: Id {:trigger files[x]} :: x < |files| ==> files[x] == old(files)[x].(ref := files[x].ref)
    {
      TakeKeeps(files, held, rdirs, hist, f);
      files := files[f := files[f].(ref := files[f].ref + 1)];
      held := held[f := held[f] + 1];
    }

    /** `opendirfile`. */
    method Opendirfile(d: Id) returns (r: Option<nat>)
      requires Valid() && d < |files|
      modifies this`files, this`rdirs, this`hist
      ensures Valid() && (r.Some? <==> old(files[d].isdir))
      ensures r.Some? ==> files == old(files)[d := old(files)[d].(readers := old(files)[d].readers + 1)]
      ensures r.Some? ==> r == Some(|old(rdirs)|) && |rdirs| == |old(rdirs)| + 1 && rdirs[r.value].open && rdirs[r.value].dir == d
      ensures r.Some? ==> rdirs[..|old(rdirs)|] == old(rdirs) && rdirs[r.value].fl == if old(files)[d].list == [] then None else Some(0)
      ensures r.Some? ==> hist[r.value] == History(0, [], LiveSet(old(files)[d].list)) && files == Counted(old(files), d, 1)
      ensures r.None? ==> files == old(files) && rdirs == old(rdirs) && hist == old(hist)
    {
      if !files[d].isdir {
        return None;
      }
      OpenKeeps(files, held, rdirs, hist, d);
      r := Some(|rdirs|);
      rdirs, hist := rdirs + [Readdir(d, First(files[d].list), true)], hist + [History(0, [], LiveSet(files[d].list))];
      files := Counted(files, d, 1);
    }

    /** `readdirfile`: the files from the saved entry on, or from the first when the offset is 0, as long as their
        records fit into `n` bytes; it stops only at a file whose record does not fit.  When it gives nothing although
        every record would fit, the reader is at the end. */
    method Readdirfile(r: nat, n: nat, o: nat, size: Id -> nat) returns (out: seq<Id>)
      requires Valid() && r < |rdirs| && rdirs[r].open && forall f :: size(f) > 2
      modifies this`rdirs, this`hist
      ensures Valid() && |rdirs| == |old(rdirs)| && rdirs[r].open && rdirs[r].dir == old(rdirs[r].dir) < |files|
      ensures hist[r].seen == (if o == 0 then [] else old(hist[r].seen)) + out
      ensures hist[r].present == if o == 0 then LiveSet(files[rdirs[r].dir].list) else old(hist[r].present)
      ensures out == [] && n >= 2 && (forall f :: size(f) <= n) ==> rdirs[r].fl == None
      ensures Bytes(out, size) <= n
      ensures Full(rdirs[r].dir, rdirs[r].fl, n - Bytes(out, size), size)
    {
      assert ReaderOk(files, rdirs[r], hist[r]);
      var d := rdirs[r].dir;
      var list := files[d].list;
      var fl := if o == 0 then First(list) else rdirs[r].fl;
      ghost var h := if o == 0 then History(0, [], LiveSet(list)) else hist[r];
      ReaderStarts(files, d);
      assert rdirs[r].(fl := rdirs[r].fl) == rdirs[r] && Readdir(d, fl, true) == rdirs[r].(fl := fl);
      out, fl, h := GiveFiles(d, fl, h, n, size);
      ReaderReplaced(files, rdirs, hist, r, rdirs[r].(fl := fl), h);
      rdirs, hist := rdirs[r := rdirs[r].(fl := fl)], hist[r := h];
    }

    /** Is entry `fl` of a directory a file whose record does not fit into `left` bytes? */
    ghost predicate Full(d: Id, fl: Option<nat>, left: int, size: Id -> nat)
      reads this
    {
      fl.Some? && d < |files| && fl.value < |files[d].list| && left >= 2 ==> files[d].list[fl.value].Some? && size(files[d].list[fl.value].value) > left
    }

    /** The loop of `readdirfile`. */
    method GiveFiles(d: Id, fl0: Option<nat>, ghost h0: History, n: nat, size: Id -> nat) returns (out: seq<Id>, fl: Option<nat>, ghost h: History)
      requires Valid() && d < |files| && ReaderOk(files, Readdir(d, fl0, true), h0) && forall f :: size(f) > 2
      ensures ReaderOk(files, Readdir(d, fl, true), h) && h.seen == h0.seen + out && h.present == h0.present
      ensures Bytes(out, size) <= n && Full(d, fl, n - Bytes(out, size), size)
    {
      var list := files[d].list;
      out, fl, h := [], fl0, h0;
      var m := 0;
      while fl.Some? && m + 2 <= n
        invariant ReaderOk(files, Readdir(d, fl, true), h) && h.seen == h0.seen + out && h.present == h0.present
        invariant m == Bytes(out, size) <= n
        decreases if fl.Some? then |list| - fl.value else -1
      {
        var k := fl.value;
        var x := 0;
        if list[k].Some? {
          var f := list[k].value;
          x := if size(f) <= n - m then size(f) else 2;
          if x <= 2 {
            break;
          }
          BytesAppend(out, f, size);
          out := out + [f];
        }
        ReaderPasses(files, Readdir(d, fl, true), h, k);
        h := Passes(list, h, k);
        fl := Following(list, k);
        m := m + x;
      }
    }

    /** `closedirfile`: the last reader leaves the directory tidy. */
    method Closedirfile(r: nat)
      requires Valid() && r < |rdirs| && rdirs[r].open
      modifies this`files, this`rdirs
      ensures Valid() && rdirs == old(rdirs)[r := old(rdirs)[r].(open := false)] && |files| == |old(files)|
      ensures var d := old(rdirs[r].dir); d < |files| && (files[d].readers == 0 ==> files[d].nxchild == 0)
      ensures var d := old(rdirs[r].dir); SameFile(old(files)[d], files[d]) && Cleaned(files[d].list) == Cleaned(old(files)[d].list)
      ensures forall f: Id {:trigger files[f]} :: f < |files| && f != old(rdirs[r].dir) ==> files[f] == old(files)[f]
    {
      ShutKeeps(files, held, rdirs, hist, r);
      CleanedTwice(Cleaned(files[rdirs[r].dir].list));
      var d := rdirs[r].dir;
      files, rdirs := Counted(files, d, -1), rdirs[r := rdirs[r].(open := false)];
      if files[d].readers == 0 {
        CleanKeeps(files, held, rdirs, hist, d);
        Cleanfilelist(d);
      }
    }

    /** In every reachable state a reader that has come to the end was given each file that was there when it
        started and still is, and was given no file twice. */
    lemma ReaderComplete(r: nat, f: Id)
      requires Valid() && r < |rdirs| && rdirs[r].open && rdirs[r].fl == None
      requires f in hist[r].present && f < |files| && f != 0 && files[f].parent == Some(rdirs[r].dir)
      ensures f in hist[r].seen && NoRepeat(hist[r].seen)
    {
      assert ReaderOk(files, rdirs[r], hist[r]) && FileOk(files, f);
      var list := files[rdirs[r].dir].list;
      var i :| 0 <= i < |list| && list[i] == Some(f);
      assert PassedAt(list, hist[r], i);
    }
  }

  lemma CleanedAppend(list: seq<Option<Id>>, e: Option<Id>)
    requires e.Some?
    ensures Cleaned(list + [e]) == Cleaned(list) + [e]
  {
    assert (list + [e])[..|list|] == list;
  }

  lemma {:induction false} OneName(fs: seq<File>, d: Id, i: nat, j: nat)
    requires Shape(fs) && d < |fs| && i < |fs[d].list| && j < |fs[d].list| && fs[d].list[i].Some? && fs[d].list[j].Some?
    requires fs[d].list[i].value < |fs| && fs[d].list[j].value < |fs| && fs[fs[d].list[i].value].name == fs[fs[d].list[j].value].name
    ensures i == j
  {
    assert PairOk(fs, d, i, j) && PairOk(fs, d, j, i);
  }

  /** A name in a directory belongs to one file. */
  lemma {:induction false} NamedIsOnly(fs: seq<File>, d: Id, name: string, f: Id)
    requires Shape(fs) && d < |fs| && 0 < f < |fs| && fs[f].name == name && fs[f].parent == Some(d)
    ensures !Free(fs, d, name)
    ensures forall g: Id {:trigger fs[g]} :: g < |fs| && g != 0 && fs[g].name == name && fs[g].parent == Some(d) ==> g == f
  {
    NotFree(fs, d, name, f);
    assert FileOk(fs, f);
    var i :| 0 <= i < |fs[d].list| && fs[d].list[i] == Some(f);
    forall g: Id | g < |fs| && g != 0 && fs[g].name == name && fs[g].parent == Some(d) ensures g == f {
      assert FileOk(fs, g);
      var j :| 0 <= j < |fs[d].list| && fs[d].list[j] == Some(g);
      OneName(fs, d, i, j);
    }
  }

  lemma {:induction false} NotFree(fs: seq<File>, d: Id, name: string, f: Id)
    requires Shape(fs) && d < |fs| && f < |fs| && fs[f].name == name && fs[f].parent == Some(d) && f != 0
    ensures !Free(fs, d, name)
  {
    assert FileOk(fs, f);
    var i :| 0 <= i < |fs[d].list| && fs[d].list[i] == Some(f);
  }

  lemma {:induction false} Gone(fs: seq<File>, f: Id)
    requires Shape(fs) && f < |fs| && fs[f].parent == None
    ensures forall d: Id, i :: d < |fs| && 0 <= i < |fs[d].list| ==> fs[d].list[i] != Some(f)
  {
    forall d: Id, i | d < |fs| && 0 <= i < |fs[d].list| ensures fs[d].list[i] != Some(f) {
      assert EntryOk(fs, d, i);
    }
  }

  /** The directory of a file in the tree has not been freed. */
  lemma {:induction false} ParentLives(fs: seq<File>, held: seq<nat>, d: Id)
    requires Shape(fs) && Refs(fs, held) && d < |fs| && fs[d].parent.Some?
    ensures fs[d].parent.value < |fs| && !fs[fs[d].parent.value].freed
  {
    assert FileOk(fs, d);
    var p := fs[d].parent.value;
    if d != 0 {
      var i :| 0 <= i < |fs[p].list| && fs[p].list[i] == Some(d);
      LiveSome(fs[p].list, i);
    }
    assert RefOk(fs, held, p) && FileOk(fs, p);
  }

  lemma {:induction false} TakeKeeps(fs: seq<File>, held: seq<nat>, rs: seq<Readdir>, hs: seq<History>, f: Id)
    requires Good(fs, held, rs, hs) && f < |fs| && !fs[f].freed
    ensures Good(fs[f := fs[f].(ref := fs[f].ref + 1)], held[f := held[f] + 1], rs, hs)
  {
    var t, h := fs[f := fs[f].(ref := fs[f].ref + 1)], held[f := held[f] + 1];
    forall x: Id | x < |t| ensures SameAt(fs, t, x) && RefOk(t, h, x) {
      assert RefOk(fs, held, x) && FileOk(fs, x);
      LiveBound(fs[x].list);
    }
    SameKeepsShape(fs, t);
    forall d: Id | d < |fs| ensures Extends(fs[d].list, t[d].list, |fs|) {
    }
    AllStand(fs, t, rs, hs);
  }
}
