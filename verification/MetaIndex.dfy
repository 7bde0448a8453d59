/** The volatile index of native/src/pmemkv.h: for each key a linked list of malloc'd block_meta.
    The C heap is explicit, so that what is freed is gone and cannot be freed twice. */
module MetaIndex {
  import opened PmemLog

  const SIZEOF_META: nat := 24
  const SIZEOF_LIST: nat := 32

  datatype Meta = Meta(next: nat, off: nat, size: nat)
  datatype MetaList = MetaList(head: nat, tail: nat, totalSize: nat, length: nat)

  /** The live objects, and which node is where. */
  datatype Heap = Heap(
    index: map<nat, nat>,           // key -> block_meta_list*
    lists: map<nat, MetaList>,      // the live block_meta_list objects
    metas: map<nat, Meta>,          // the live block_meta objects
    nodes: map<nat, seq<nat>>,      // key -> the nodes of its list
    place: map<nat, (nat, nat)>,    // node -> its key and position
    home: map<nat, nat>)            // list -> its key

  /** Node `i` of a list that spells out `es`. */
  predicate NodeOk(x: Heap, k: nat, ns: seq<nat>, es: seq<Entry>, i: nat)
    requires i < |ns| == |es|
  {
    && ns[i] != 0 && ns[i] in x.place && x.place[ns[i]] == (k, i)
    && ns[i] in x.metas
    && x.metas[ns[i]] == Meta(if i + 1 < |ns| then ns[i + 1] else 0, es[i].off, |es[i].bytes|)
  }

  /** The list of `k` is exactly `es`: its head, tail and totals, and node by node. */
  predicate KeyOk(x: Heap, k: nat, es: seq<Entry>) {
    && k in x.index && k in x.nodes && x.index[k] in x.lists && x.index[k] in x.home && x.home[x.index[k]] == k
    && var ns := x.nodes[k];
      && |ns| == |es| && ns != []
      && x.lists[x.index[k]] == MetaList(ns[0], ns[|ns| - 1], TotalSize(es), |es|)
      && forall i :: 0 <= i < |ns| ==> NodeOk(x, k, ns, es, i)
  }

  /** A live node is in the list of a key in `ks`. */
  predicate Placed(x: Heap, ks: set<nat>, p: nat) {
    && p in x.place && x.place[p].0 in ks && x.place[p].0 in x.nodes
    && x.place[p].1 < |x.nodes[x.place[p].0]| && x.nodes[x.place[p].0][x.place[p].1] == p
  }

  predicate Homed(x: Heap, ks: set<nat>, l: nat) {
    l in x.home && x.home[l] in ks && x.home[l] in x.index && x.index[x.home[l]] == l
  }

  /** The keys in `ks` have their lists and nothing else is live. */
  ghost predicate Holds(x: Heap, ks: set<nat>, log: seq<Entry>) {
    && (forall k :: k in ks ==> KeyOk(x, k, OfKey(log, k)))
    && (forall p :: p in x.metas ==> Placed(x, ks, p))
    && (forall l :: l in x.lists ==> Homed(x, ks, l))
  }

  /** `ks` are the keys that `log` has entries of. */
  ghost predicate KeysOf(ks: set<nat>, log: seq<Entry>) {
    forall k: nat :: k in ks <==> OfKey(log, k) != []
  }

  lemma KeysOfSnoc(ks: set<nat>, log: seq<Entry>, e: Entry)
    requires KeysOf(ks, log)
    ensures KeysOf(ks + {e.key}, log + [e])
  {
    forall k: nat
      ensures k in ks + {e.key} <==> OfKey(log + [e], k) != []
    {
      OfKeySnoc(log, e, k);
    }
  }

  // ---- update_meta on values ----

  function Added(x: Heap, key: nat, bm: nat, bml: nat, e: Entry): Heap {
    Heap(x.index[key := bml], x.lists[bml := MetaList(bm, bm, |e.bytes|, 1)],
         x.metas[bm := Meta(0, e.off, |e.bytes|)],
         x.nodes[key := [bm]], x.place[bm := (key, 0)], x.home[bml := key])
  }

  lemma {:induction false} AddedHolds(x: Heap, log: seq<Entry>, bm: nat, bml: nat, e: Entry)
    requires Holds(x, x.index.Keys, log) && e.key !in x.index && OfKey(log, e.key) == []
    requires bm != 0 && bm !in x.metas && bml !in x.lists
    ensures Holds(Added(x, e.key, bm, bml, e), x.index.Keys + {e.key}, log + [e])
  {
    var x' := Added(x, e.key, bm, bml, e);
    forall k | k in x.index.Keys + {e.key}
      ensures KeyOk(x', k, OfKey(log + [e], k))
    {
      OfKeySnoc(log, e, k);
      if k == e.key {
        assert OfKey(log, k) + [e] == [e];
        AddedOwn(x, bm, bml, e);
      } else {
        AddedKeeps(x, k, OfKey(log, k), bm, bml, e);
      }
    }
    forall p | p in x'.metas
      ensures Placed(x', x.index.Keys + {e.key}, p)
    {
      AddedPlaces(x, bm, bml, e, p);
    }
    forall l | l in x'.lists
      ensures Homed(x', x.index.Keys + {e.key}, l)
    {
      AddedHomes(x, bm, bml, e, l);
    }
  }

  lemma AddedOwn(x: Heap, bm: nat, bml: nat, e: Entry)
    requires bm != 0
    ensures KeyOk(Added(x, e.key, bm, bml, e), e.key, [e])
  {
    assert TotalSize([e]) == |e.bytes| + TotalSize([]);
  }

  lemma AddedPlaces(x: Heap, bm: nat, bml: nat, e: Entry, p: nat)
    requires p == bm || Placed(x, x.index.Keys, p)
    requires e.key !in x.index && bm !in x.metas && (p != bm ==> p in x.metas)
    ensures Placed(Added(x, e.key, bm, bml, e), x.index.Keys + {e.key}, p)
  {
  }

  lemma AddedHomes(x: Heap, bm: nat, bml: nat, e: Entry, l: nat)
    requires l == bml || Homed(x, x.index.Keys, l)
    requires e.key !in x.index && bml !in x.lists && (l != bml ==> l in x.lists)
    ensures Homed(Added(x, e.key, bm, bml, e), x.index.Keys + {e.key}, l)
  {
  }

  lemma AddedKeeps(x: Heap, k: nat, es: seq<Entry>, bm: nat, bml: nat, e: Entry)
    requires KeyOk(x, k, es) && k != e.key && bm !in x.metas && bml !in x.lists
    ensures KeyOk(Added(x, e.key, bm, bml, e), k, es)
  {
    forall i | 0 <= i < |x.nodes[k]|
      ensures NodeOk(Added(x, e.key, bm, bml, e), k, x.nodes[k], es, i)
    {
      assert NodeOk(x, k, x.nodes[k], es, i);
    }
  }

  function Extended(x: Heap, bm: nat, e: Entry): Heap
    requires e.key in x.index && x.index[e.key] in x.lists && e.key in x.nodes
    requires x.lists[x.index[e.key]].tail in x.metas
  {
    var l := x.lists[x.index[e.key]];
    Heap(x.index,
         x.lists[x.index[e.key] := MetaList(l.head, bm, l.totalSize + |e.bytes|, l.length + 1)],
         x.metas[bm := Meta(0, e.off, |e.bytes|)][l.tail := x.metas[l.tail].(next := bm)],
         x.nodes[e.key := x.nodes[e.key] + [bm]], x.place[bm := (e.key, |x.nodes[e.key]|)], x.home)
  }

  lemma TailIsLast(x: Heap, k: nat, es: seq<Entry>)
    requires KeyOk(x, k, es)
    ensures var t := x.lists[x.index[k]].tail;
      t in x.metas && t in x.place && x.place[t] == (k, |es| - 1) && t == x.nodes[k][|es| - 1]
  {
    assert NodeOk(x, k, x.nodes[k], es, |es| - 1);
  }

  lemma {:induction false} ExtendedHolds(x: Heap, log: seq<Entry>, bm: nat, e: Entry)
    requires Holds(x, x.index.Keys, log) && e.key in x.index && bm != 0 && bm !in x.metas
    ensures e.key in x.nodes && x.index[e.key] in x.lists && x.lists[x.index[e.key]].tail in x.metas
    ensures Holds(Extended(x, bm, e), x.index.Keys, log + [e])
  {
    assert KeyOk(x, e.key, OfKey(log, e.key));
    TailIsLast(x, e.key, OfKey(log, e.key));
    var x' := Extended(x, bm, e);
    forall k | k in x.index
      ensures KeyOk(x', k, OfKey(log + [e], k))
    {
      OfKeySnoc(log, e, k);
      if k == e.key {
        ExtendedGrows(x, OfKey(log, k), bm, e);
      } else {
        ExtendedKeeps(x, k, OfKey(log, k), OfKey(log, e.key), bm, e);
      }
    }
    forall p | p in x'.metas
      ensures Placed(x', x.index.Keys, p)
    {
      ExtendedPlaces(x, bm, e, p);
    }
    forall l | l in x'.lists
      ensures Homed(x', x.index.Keys, l)
    {
      assert Homed(x, x.index.Keys, l);
    }
  }

  lemma ExtendedPlaces(x: Heap, bm: nat, e: Entry, p: nat)
    requires e.key in x.index && x.index[e.key] in x.lists && e.key in x.nodes
    requires x.lists[x.index[e.key]].tail in x.metas && bm !in x.metas
    requires p == bm || (p in x.metas && Placed(x, x.index.Keys, p))
    ensures Placed(Extended(x, bm, e), x.index.Keys, p)
  {
  }

  lemma ExtendedGrows(x: Heap, es: seq<Entry>, bm: nat, e: Entry)
    requires KeyOk(x, e.key, es) && bm != 0 && bm !in x.metas && x.lists[x.index[e.key]].tail in x.metas
    ensures KeyOk(Extended(x, bm, e), e.key, es + [e])
  {
    var x' := Extended(x, bm, e);
    TailIsLast(x, e.key, es);
    TotalSizeAppend(es, [e]);
    assert TotalSize([e]) == |e.bytes| + TotalSize([]);
    forall i | 0 <= i < |es| + 1
      ensures NodeOk(x', e.key, x'.nodes[e.key], es + [e], i)
    {
      if i < |es| {
        assert NodeOk(x, e.key, x.nodes[e.key], es, i);
      }
    }
  }

  /** The lists of other keys do not share the node whose link changes. */
  lemma ExtendedKeeps(x: Heap, k: nat, es: seq<Entry>, own: seq<Entry>, bm: nat, e: Entry)
    requires KeyOk(x, k, es) && KeyOk(x, e.key, own) && k != e.key && bm !in x.metas
    requires x.lists[x.index[e.key]].tail in x.metas
    ensures KeyOk(Extended(x, bm, e), k, es)
  {
    TailIsLast(x, e.key, own);
    forall i | 0 <= i < |x.nodes[k]|
      ensures NodeOk(Extended(x, bm, e), k, x.nodes[k], es, i)
    {
      assert NodeOk(x, k, x.nodes[k], es, i);
    }
  }

  /** The index is exactly `log`, key by key. */
  ghost predicate Reflects(x: Heap, log: seq<Entry>) {
    Holds(x, x.index.Keys, log) && KeysOf(x.index.Keys, log)
  }

  lemma AddedReflects(x: Heap, log: seq<Entry>, bm: nat, bml: nat, e: Entry)
    requires Reflects(x, log) && e.key !in x.index && bm != 0 && bm !in x.metas && bml !in x.lists
    ensures Reflects(Added(x, e.key, bm, bml, e), log + [e])
  {
    AddedHolds(x, log, bm, bml, e);
    KeysOfSnoc(x.index.Keys, log, e);
    assert Added(x, e.key, bm, bml, e).index.Keys == x.index.Keys + {e.key};
  }

  lemma ExtendedReflects(x: Heap, log: seq<Entry>, bm: nat, e: Entry)
    requires Reflects(x, log) && e.key in x.index && bm != 0 && bm !in x.metas
    ensures e.key in x.nodes && x.index[e.key] in x.lists && x.lists[x.index[e.key]].tail in x.metas
    ensures Reflects(Extended(x, bm, e), log + [e])
  {
    ExtendedHolds(x, log, bm, e);
    KeysOfSnoc(x.index.Keys, log, e);
    assert x.index.Keys == x.index.Keys + {e.key};
  }

  // ---- free_meta on values ----

  function Without(metas: map<nat, Meta>, ns: seq<nat>): (r: map<nat, Meta>)
    ensures forall p :: p in r <==> p in metas && p !in ns
    ensures forall p :: p in r ==> r[p] == metas[p]
  {
    if ns == [] then metas
    else
      assert ns == ns[..|ns| - 1] + [ns[|ns| - 1]];
      Without(metas, ns[..|ns| - 1]) - {ns[|ns| - 1]}
  }

  function Dropped(x: Heap, k: nat): Heap
    requires k in x.index && k in x.nodes
  {
    x.(lists := x.lists - {x.index[k]}, metas := Without(x.metas, x.nodes[k]))
  }

  /** Freeing one list with its nodes leaves every other list whole. */
  lemma DroppedHolds(x: Heap, ks: set<nat>, log: seq<Entry>, k: nat)
    requires Holds(x, ks, log) && k in ks
    ensures KeyOk(x, k, OfKey(log, k)) && Holds(Dropped(x, k), ks - {k}, log)
  {
    assert KeyOk(x, k, OfKey(log, k));
    var x' := Dropped(x, k);
    forall h | h in ks - {k}
      ensures KeyOk(x', h, OfKey(log, h))
    {
      DroppedKeeps(x, k, OfKey(log, k), h, OfKey(log, h));
    }
    forall p | p in x'.metas
      ensures Placed(x', ks - {k}, p)
    {
      assert Placed(x, ks, p);
    }
    forall l | l in x'.lists
      ensures Homed(x', ks - {k}, l)
    {
      assert Homed(x, ks, l);
    }
  }

  lemma DroppedKeeps(x: Heap, k: nat, es: seq<Entry>, h: nat, fs: seq<Entry>)
    requires KeyOk(x, k, es) && KeyOk(x, h, fs) && h != k
    ensures KeyOk(Dropped(x, k), h, fs)
  {
    forall i | 0 <= i < |x.nodes[h]|
      ensures NodeOk(Dropped(x, k), h, x.nodes[h], fs, i)
    {
      assert NodeOk(x, h, x.nodes[h], fs, i);
      forall j | 0 <= j < |x.nodes[k]|
        ensures x.nodes[k][j] != x.nodes[h][i]
      {
        assert NodeOk(x, k, x.nodes[k], es, j);
      }
    }
  }

  /** The node the freeing walk has reached is still live, and its link unchanged. */
  lemma NodeLive(x: Heap, k: nat, es: seq<Entry>, i: nat)
    requires KeyOk(x, k, es) && i < |es|
    ensures var ns := x.nodes[k];
      && ns[i] != 0 && ns[i] in Without(x.metas, ns[..i])
      && Without(x.metas, ns[..i])[ns[i]].next == (if i + 1 < |ns| then ns[i + 1] else 0)
      && Without(x.metas, ns[..i + 1]) == Without(x.metas, ns[..i]) - {ns[i]}
      && (i + 1 < |ns| ==> ns[i + 1] != 0)
  {
    assert NodeOk(x, k, x.nodes[k], es, i);
    assert i + 1 < |es| ==> NodeOk(x, k, x.nodes[k], es, i + 1);
    assert x.nodes[k][..i + 1][..i] == x.nodes[k][..i];
    forall j | 0 <= j < i
      ensures x.nodes[k][j] != x.nodes[k][i]
    {
      NodesDistinct(x, k, es, i, j);
    }
  }

  lemma TailLive(x: Heap, log: seq<Entry>, k: nat)
    requires Holds(x, x.index.Keys, log) && k in x.index
    ensures x.index[k] in x.lists && k in x.nodes && x.lists[x.index[k]].tail in x.metas
  {
    assert KeyOk(x, k, OfKey(log, k));
    TailIsLast(x, k, OfKey(log, k));
  }

  lemma NodesDistinct(x: Heap, k: nat, es: seq<Entry>, i: nat, j: nat)
    requires KeyOk(x, k, es) && i < |x.nodes[k]| && j < |x.nodes[k]| && i != j
    ensures x.nodes[k][i] != x.nodes[k][j]
  {
    assert NodeOk(x, k, x.nodes[k], es, i) && NodeOk(x, k, x.nodes[k], es, j);
  }

  lemma EmptyReflects(x: Heap)
    requires x.index == map[] && x.lists == map[] && x.metas == map[]
    ensures Reflects(x, [])
  {
  }

  lemma NothingHeld(x: Heap, log: seq<Entry>)
    requires Holds(x, {}, log)
    ensures x.metas == map[] && x.lists == map[]
  {
    assert forall p :: p in x.metas ==> Placed(x, {}, p);
    assert forall l :: l in x.lists ==> Homed(x, {}, l);
  }

  // ---- the object ----

  class Index {
    var indexMap: map<nat, nat>
    var lists: map<nat, MetaList>
    var metas: map<nat, Meta>
    var brk: nat                   // every pointer malloc has returned is below
    var bytesAllocated: nat
    ghost var nodes: map<nat, seq<nat>>
    ghost var place: map<nat, (nat, nat)>
    ghost var home: map<nat, nat>

    ghost function View(): Heap
      reads this
    {
      Heap(indexMap, lists, metas, nodes, place, home)
    }

    /** bytes_allocated is the size of the live objects, and malloc will not return one of them. */
    ghost predicate Counted()
      reads `brk, `metas, `lists, `bytesAllocated
    {
      && brk > 0 && (forall p :: p in metas ==> p < brk) && (forall l :: l in lists ==> l < brk)
      && bytesAllocated == SIZEOF_META * |metas| + SIZEOF_LIST * |lists|
    }

    /** The index is exactly `log`, key by key. */
    ghost predicate Valid(log: seq<Entry>)
      reads this
    {
      Counted() && Reflects(View(), log)
    }

    constructor ()
      ensures Valid([]) && indexMap == map[] && bytesAllocated == 0
    {
      indexMap, lists, metas, brk, bytesAllocated := map[], map[], map[], 1, 0;
      nodes, place, home := map[], map[], map[];
    }

    method Malloc() returns (p: nat)
      requires brk > 0
      modifies `brk
      ensures p == old(brk) && brk == p + 1
    {
      p := brk;
      brk := brk + 1;
    }

    /** malloc of a block_meta, with its first contents. */
    method NewMeta(m: Meta) returns (p: nat)
      requires Counted()
      modifies `brk, `metas, `bytesAllocated
      ensures Counted() && p != 0 && p !in old(metas) && metas == old(metas)[p := m]
    {
      p := Malloc();
      bytesAllocated := bytesAllocated + SIZEOF_META;
      metas := metas[p := m];
    }

    method NewList(l: MetaList) returns (p: nat)
      requires Counted()
      modifies `brk, `lists, `bytesAllocated
      ensures Counted() && p != 0 && p !in old(lists) && lists == old(lists)[p := l]
    {
      p := Malloc();
      bytesAllocated := bytesAllocated + SIZEOF_LIST;
      lists := lists[p := l];
    }

    /** Stores into live objects. */
    method SetNext(p: nat, next: nat)
      requires Counted() && p in metas
      modifies `metas
      ensures Counted() && metas == old(metas)[p := old(metas)[p].(next := next)]
    {
      metas := metas[p := metas[p].(next := next)];
    }

    method SetList(p: nat, l: MetaList)
      requires Counted() && p in lists
      modifies `lists
      ensures Counted() && lists == old(lists)[p := l]
    {
      lists := lists[p := l];
    }

    /** free of a block_meta, which has to be live. */
    method FreeMetaNode(p: nat)
      requires Counted() && p in metas
      modifies `metas, `bytesAllocated
      ensures Counted() && metas == old(metas) - {p}
    {
      metas := metas - {p};
      bytesAllocated := bytesAllocated - SIZEOF_META;
    }

    /** free of a block_meta_list, which has to be live. */
    method FreeListNode(l: nat)
      requires Counted() && l in lists
      modifies `lists, `bytesAllocated
      ensures Counted() && lists == old(lists) - {l}
    {
      lists := lists - {l};
      bytesAllocated := bytesAllocated - SIZEOF_LIST;
    }

    /** update_meta on a key without blocks. */
    method AddList(key: nat, off: nat, size: nat, ghost e: Entry) returns (bm: nat, bml: nat)
      requires Counted() && e == Entry(key, off, e.bytes) && |e.bytes| == size
      modifies this
      ensures bm != 0 && bm !in old(metas) && bml !in old(lists)
      ensures Counted() && View() == Added(old(View()), key, bm, bml, e)
    {
      bm := NewMeta(Meta(0, off, size));
      bml := NewList(MetaList(bm, bm, size, 1));
      indexMap := indexMap[key := bml];
      nodes, place, home := nodes[key := [bm]], place[bm := (key, 0)], home[bml := key];
    }

    /** update_meta on a key that has blocks. */
    method ExtendList(key: nat, off: nat, size: nat, ghost e: Entry) returns (bm: nat)
      requires Counted() && e == Entry(key, off, e.bytes) && |e.bytes| == size
      requires key in indexMap && indexMap[key] in lists && key in nodes && lists[indexMap[key]].tail in metas
      modifies this
      ensures bm != 0 && bm !in old(metas)
      ensures Counted() && View() == Extended(old(View()), bm, e)
    {
      var bml := indexMap[key];
      bm := NewMeta(Meta(0, off, size));
      var l := lists[bml];
      SetNext(l.tail, bm);
      SetList(bml, MetaList(l.head, bm, l.totalSize + size, l.length + 1));
      nodes, place := nodes[key := nodes[key] + [bm]], place[bm := (key, |nodes[key]|)];
    }

    /** update_meta: one more block behind the others of its key. */
    method UpdateMeta(key: nat, off: nat, size: nat, ghost log: seq<Entry>, ghost e: Entry) returns (rc: int)
      requires Valid(log) && e == Entry(key, off, e.bytes) && |e.bytes| == size
      modifies this
      ensures Valid(log + [e]) && rc == 0
    {
      ghost var x := View();
      if key !in indexMap {
        var bm, bml := AddList(key, off, size, e);
        AddedReflects(x, log, bm, bml, e);
      } else {
        TailLive(x, log, key);
        var bm := ExtendList(key, off, size, e);
        ExtendedReflects(x, log, bm, e);
      }
      rc := 0;
    }

    /** The inner loop of free_meta. */
    method FreeNodes(key: nat, ghost es: seq<Entry>)
      requires Counted() && KeyOk(View(), key, es)
      modifies `metas, `bytesAllocated
      ensures Counted() && metas == Without(old(metas), nodes[key])
    {
      ghost var x := View();
      ghost var ns := nodes[key];
      var cur := lists[indexMap[key]].head;
      ghost var i := 0;
      assert NodeOk(x, key, ns, es, 0);
      while cur != 0
        invariant i <= |ns| && (cur == 0 <==> i == |ns|) && (i < |ns| ==> cur == ns[i])
        invariant metas == Without(x.metas, ns[..i])
        invariant Counted()
        decreases |ns| - i
      {
        NodeLive(x, key, es, i);
        var next := metas[cur].next;
        FreeMetaNode(cur);
        i := i + 1;
        cur := next;
      }
      assert ns[..i] == ns;
    }

    /** The body of free_meta's outer loop. */
    method FreeList(key: nat, ghost es: seq<Entry>)
      requires Counted() && KeyOk(View(), key, es)
      modifies `lists, `metas, `bytesAllocated
      ensures Counted() && View() == Dropped(old(View()), key)
    {
      FreeNodes(key, es);
      FreeListNode(indexMap[key]);
    }

    /** The outer loop of free_meta, over the keys in any order. */
    method FreeLists(ghost log: seq<Entry>)
      requires Counted() && Holds(View(), indexMap.Keys, log)
      modifies `lists, `metas, `bytesAllocated
      ensures Counted() && Holds(View(), {}, log)
    {
      var keys := indexMap.Keys;
      while keys != {}
        invariant keys <= indexMap.Keys
        invariant Counted() && Holds(View(), keys, log)
        decreases keys
      {
        var key :| key in keys;
        DroppedHolds(View(), keys, log, key);
        FreeList(key, OfKey(log, key));
        keys := keys - {key};
      }
    }

    /** free_meta: afterwards nothing is live, so a second call finds nothing to free. */
    method FreeMeta(ghost log: seq<Entry>) returns (rc: int)
      requires Valid(log)
      modifies this
      ensures Valid([]) && indexMap == map[] && lists == map[] && metas == map[] && bytesAllocated == 0 && rc == 0
    {
      FreeLists(log);
      NothingHeld(View(), log);
      indexMap := map[];
      EmptyReflects(View());
      rc := 0;
    }
  }
}
