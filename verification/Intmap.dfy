/**
 * sys/src/lib9p/intmap.c: the map from tags to requests and from fid numbers to fids, kept as
 * 128 chains of linked cells.  Each operation is proved to act on the finite map it stands for.
 */
module Intmaps {
  const NHASH := 128

  import opened Options

  function Hashid(id: nat): (h: nat)
    ensures h < NHASH
  {
    id % NHASH
  }

  class Intlist<V> {
    const id: nat
    var aux: V
    var link: Intlist?<V>

    constructor (id: nat, aux: V, link: Intlist?<V>)
      ensures this.id == id && this.aux == aux && this.link == link
    {
      this.id, this.aux, this.link := id, aux, link;
    }
  }

  /** `cells` are the cells reached from `first`, in order. */
  ghost predicate Chain<V(!new)>(first: Intlist?<V>, cells: seq<Intlist<V>>)
    reads set c | c in cells
  {
    && first == Head(cells)
    && forall i {:trigger cells[i].link} :: 0 <= i < |cells| ==> cells[i].link == Head(cells[i + 1..])
  }

  ghost function Head<V(!new)>(cells: seq<Intlist<V>>): Intlist?<V> { if cells == [] then null else cells[0] }

  /** Cell `f` of a chain is the one with the given id, or the chain ran out. */
  ghost predicate Found<V(!new)>(cells: seq<Intlist<V>>, i: int, id: nat) {
    && 0 <= i <= |cells| && (forall k :: 0 <= k < i ==> cells[k].id != id)
    && (i < |cells| ==> cells[i].id == id)
  }

  class Intmap<V(!new)> {
    const hash: array<Intlist?<V>>
    ghost var chains: seq<seq<Intlist<V>>>
    ghost var contents: map<nat, V>

    ghost var cells: set<Intlist<V>>

    /** Chain `h` is linked up, holds ids that hash to `h`, each once, with the values of the map. */
    ghost predicate ChainOk(h: int)
      requires 0 <= h < |chains| == hash.Length
      reads this, hash, cells
    {
      && (forall c :: c in chains[h] ==> c in cells)
      && Chain(hash[h], chains[h])
      && (forall c :: c in chains[h] ==> Hashid(c.id) == h && c.id in contents && contents[c.id] == c.aux)
      && (forall i, j :: 0 <= i < j < |chains[h]| ==> chains[h][i].id != chains[h][j].id)
    }

    ghost predicate Listed(id: nat)
      reads this
    {
      Hashid(id) < |chains| && exists c :: c in chains[Hashid(id)] && c.id == id
    }

    ghost predicate Valid()
      reads this, hash, cells
    {
      && |chains| == hash.Length == NHASH
      && (forall h {:trigger ChainOk(h)} :: 0 <= h < NHASH ==> ChainOk(h))
      && (forall id {:trigger Listed(id)} :: id in contents ==> Listed(id))
    }

    constructor ()
      ensures Valid() && contents == map[] && fresh(hash) && cells == {}
    {
      hash := new Intlist?<V>[NHASH](_ => null);
      chains := seq(NHASH, _ => []);
      contents, cells := map[], {};
      new;
      forall h | 0 <= h < NHASH ensures ChainOk(h) {
      }
    }

    /** `llookup`: walk the chain of `id`; `prev` is the cell whose link leads to the answer, or null for the table. */
    method Llookup(id: nat) returns (prev: Intlist?<V>, f: Intlist?<V>, ghost i: int)
      requires Valid()
      ensures Valid()
      ensures Found(chains[Hashid(id)], i, id) && f == Head(chains[Hashid(id)][i..])
      ensures if i == 0 then prev == null else prev == chains[Hashid(id)][i - 1]
      ensures f != null <==> id in contents
      ensures f != null ==> f.id == id && f.aux == contents[id] && f == chains[Hashid(id)][i]
    {
      var h := Hashid(id);
      ghost var chain := chains[h];
      assert ChainOk(h);
      prev, f, i := null, hash[h], 0;
      while f != null && f.id != id
        invariant 0 <= i <= |chain| && f == Head(chain[i..])
        invariant if i == 0 then prev == null else prev == chain[i - 1]
        invariant forall k :: 0 <= k < i ==> chain[k].id != id
        decreases |chain| - i
      {
        assert f == chain[i];
        prev, f, i := f, f.link, i + 1;
      }
      if f != null {
        assert f == chain[i];
      } else if id in contents {
        assert Listed(id);
      }
    }

    /** `lookupkey`: the value of the key, to which the caller then holds a reference. */
    method LookupKey(id: nat) returns (v: Option<V>)
      requires Valid()
      ensures v == if id in contents then Some(contents[id]) else None
    {
      var _, f, _ := Llookup(id);
      v := if f != null then Some(f.aux) else None;
    }

    lemma PrependKeeps(s: seq<Intlist<V>>, c: Intlist<V>)
      requires Chain(Head(s), s) && c.link == Head(s)
      ensures Chain(c, [c] + s)
    {
      var t := [c] + s;
      forall i | 0 <= i < |t| ensures t[i].link == Head(t[i + 1..]) {
        if i == 0 {
          assert t[1..] == s;
        } else {
          assert t[i + 1..] == s[i..] && s[i - 1].link == Head(s[i..]);
        }
      }
    }

    /** A new cell at the front of the chain of a key that was not in the map. */
    method Prepend(id: nat, v: V)
      requires Valid() && id !in contents
      modifies this, hash
      ensures Valid() && contents == old(contents)[id := v] && fresh(cells - old(cells))
    {
      var h := Hashid(id);
      assert ChainOk(h);
      var f := new Intlist(id, v, hash[h]);
      ghost var was: seq<seq<Intlist<V>>> := chains;
      PrependKeeps(chains[h], f);
      hash[h] := f;
      chains := chains[h := [f] + chains[h]];
      contents, cells := contents[id := v], cells + {f};
      assert f in chains[h];
      forall g | 0 <= g < NHASH ensures ChainOk(g) {
        assert old(ChainOk(g));
        if g != h {
          assert chains[g] == was[g];
        }
      }
      forall k | k in contents ensures Listed(k) {
        if k != id {
          assert old(Listed(k));
          var c :| c in was[Hashid(k)] && c.id == k;
          assert c in chains[Hashid(k)];
        }
      }
    }

    /** `caninsertkey`: bind the key unless it is bound. */
    method CanInsertKey(id: nat, v: V) returns (rv: bool)
      requires Valid()
      modifies this, hash
      ensures Valid() && fresh(cells - old(cells))
      ensures rv <==> id !in old(contents)
      ensures contents == if rv then old(contents)[id := v] else old(contents)
    {
      var _, f, _ := Llookup(id);
      rv := f == null;
      if rv {
        Prepend(id, v);
      }
    }

    /** `insertkey`: bind the key, and hand back the value it had. */
    method InsertKey(id: nat, v: V) returns (ov: Option<V>)
      requires Valid()
      modifies this, hash, cells
      ensures Valid() && fresh(cells - old(cells))
      ensures contents == old(contents)[id := v]
      ensures ov == if id in old(contents) then Some(old(contents)[id]) else None
    {
      var _, f, i := Llookup(id);
      if f != null {
        ov := Some(f.aux);
        assert ChainOk(Hashid(id));
        f.aux := v;
        contents := contents[id := v];
        forall g | 0 <= g < NHASH ensures ChainOk(g) {
          assert old(ChainOk(g));
        }
        forall k | k in contents ensures Listed(k) {
          assert old(Listed(k));
        }
      } else {
        ov := None;
        Prepend(id, v);
      }
    }

    /** Cut cell `i` of chain `h` out: the link that led to it now leads past it. */
    method Splice(h: nat, prev: Intlist?<V>, f: Intlist<V>, ghost i: int)
      requires Valid() && h < NHASH && 0 <= i < |chains[h]| && f == chains[h][i]
      requires if i == 0 then prev == null else prev == chains[h][i - 1]
      modifies hash, cells`link
      ensures Chain(hash[h], chains[h][..i] + chains[h][i + 1..])
      ensures forall g {:trigger hash[g]} :: 0 <= g < NHASH && g != h ==> Chain(hash[g], chains[g])
    {
      ghost var chain := chains[h];
      assert ChainOk(h);
      forall g | 0 <= g < NHASH && g != h ensures prev !in chains[g] && Chain(hash[g], chains[g]) {
        assert ChainOk(g);
      }
      if prev == null {
        hash[h] := f.link;
      } else {
        prev.link := f.link;
      }
      UnlinkKeeps(chain, chain[..i] + chain[i + 1..], i);
    }

    /** `deletekey`: unbind the key, and hand back the value it had. */
    method DeleteKey(id: nat) returns (ov: Option<V>)
      requires Valid()
      modifies this, hash, cells
      ensures Valid() && cells <= old(cells)
      ensures contents == old(contents) - {id}
      ensures ov == if id in old(contents) then Some(old(contents)[id]) else None
    {
      var prev, f, i := Llookup(id);
      if f == null {
        return None;
      }
      ov := Some(f.aux);
      var h := Hashid(id);
      ghost var was: seq<seq<Intlist<V>>> := chains;
      ghost var rest := chains[h][..i] + chains[h][i + 1..];
      assert ChainOk(h);
      RestIsRest(chains[h], rest, i);
      Splice(h, prev, f, i);
      chains := chains[h := rest];
      contents := contents - {id};
      forall g | 0 <= g < NHASH ensures ChainOk(g) {
        assert old(ChainOk(g));
      }
      forall k | k in contents ensures Listed(k) {
        assert old(Listed(k));
        var c :| c in was[Hashid(k)] && c.id == k;
        assert c in chains[Hashid(k)];
      }
    }

    lemma RestIsRest(chain: seq<Intlist<V>>, rest: seq<Intlist<V>>, i: int)
      requires 0 <= i < |chain| && rest == chain[..i] + chain[i + 1..]
      requires forall j, k :: 0 <= j < k < |chain| ==> chain[j].id != chain[k].id
      ensures forall c :: c in rest <==> c in chain && c.id != chain[i].id
      ensures forall j, k :: 0 <= j < k < |rest| ==> rest[j].id != rest[k].id
    {
      assert forall j :: 0 <= j < i ==> rest[j] == chain[j];
      assert forall j :: i <= j < |rest| ==> rest[j] == chain[j + 1];
      forall c | c in chain && c.id != chain[i].id ensures c in rest {
        var j :| 0 <= j < |chain| && chain[j] == c;
        assert rest[if j < i then j else j - 1] == c;
      }
    }

    lemma UnlinkKeeps(chain: seq<Intlist<V>>, rest: seq<Intlist<V>>, i: int)
      requires 0 <= i < |chain| && rest == chain[..i] + chain[i + 1..]
      requires forall k {:trigger chain[k].link} :: 0 <= k < |chain| && k != i - 1 ==> chain[k].link == Head(chain[k + 1..])
      requires i > 0 ==> chain[i - 1].link == Head(chain[i + 1..])
      ensures forall k {:trigger rest[k].link} :: 0 <= k < |rest| ==> rest[k].link == Head(rest[k + 1..])
      ensures Head(rest) == if i == 0 then Head(chain[1..]) else Head(chain)
    {
      forall k | 0 <= k < |rest| ensures rest[k].link == Head(rest[k + 1..]) {
        if k + 1 < i {
          assert rest[k + 1] == chain[k + 1];
        } else if k + 1 == i {
          assert rest[k + 1..] == chain[i + 1..];
        } else {
          assert rest[k + 1..] == chain[k + 2..] && rest[k] == chain[k + 1];
        }
      }
    }
  }
}
