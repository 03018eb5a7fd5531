/** The Linux plugin's conversions between Flutter values and values on the heap. */
module ValueCodec {
  import opened Common
  import opened ValueHeap
  import opened ValueStore
  import T = ValueTrees

  // ---- Releases stay inside a region that nothing leaves ----

  /** Slots of cells at or above `lo` only hold pointers at or above `lo`. */
  ghost predicate Closed(h: Heap, lo: nat) {
    forall q: Ptr, k: Ptr :: lo <= q && Edge(h, q, k) ==> lo <= k
  }

  lemma ClosedAfterUpdate(h: Heap, p: Ptr, c: Cell, lo: nat)
    requires Closed(h, lo) && p < |h| && (Kids(c) == [] || Kids(c) == Kids(h[p]))
    ensures Closed(h[p := c], lo)
  {
    var h1 := h[p := c];
    forall q: Ptr, k: Ptr | lo <= q && Edge(h1, q, k)
      ensures lo <= k
    {
      assert Edge(h, q, k);
    }
  }

  lemma {:induction false} UnrefLocal(h: Heap, p: Ptr, lo: nat)
    requires lo <= p && Closed(h, lo) && lo <= |h|
    ensures Unref(h, p).heap[..lo] == h[..lo] && Closed(Unref(h, p).heap, lo)
    decreases Total(h), 0
  {
    if Count(h, p) > 0 {
      var h1 := Recounted(h, p, h[p].count - 1);
      TotalUpdate(h, p, h1[p]);
      ClosedAfterUpdate(h, p, h1[p], lo);
      if h[p].count == 1 {
        forall i | 0 <= i < |Kids(h[p])|
          ensures lo <= Kids(h[p])[i]
        {
          assert Kids(h[p])[i] in multiset(Kids(h[p]));
          assert Edge(h, p, Kids(h[p])[i]);
        }
        UnrefAllLocal(h1, Kids(h[p]), lo);
        ClosedAfterUpdate(UnrefAll(h1, Kids(h[p])).heap, p, Freed, lo);
      }
    }
  }

  lemma {:induction false} UnrefAllLocal(h: Heap, ps: seq<Ptr>, lo: nat)
    requires Closed(h, lo) && lo <= |h| && forall i :: 0 <= i < |ps| ==> lo <= ps[i]
    ensures UnrefAll(h, ps).heap[..lo] == h[..lo] && Closed(UnrefAll(h, ps).heap, lo)
    decreases Total(h), 1 + |ps|
  {
    if ps != [] {
      UnrefLocal(h, ps[0], lo);
      UnrefAllLocal(Unref(h, ps[0]).heap, ps[1..], lo);
    }
  }

  // ---- What decoding builds ----

  ghost predicate AtMostOne(h: Heap, lo: nat) {
    forall q :: lo <= q < |h| ==> CellCount(h[q]) <= 1
  }

  /** Slots hold pointers to cells allocated later, so what was built has no cycle. */
  ghost predicate Later(h: Heap, lo: nat) {
    forall q: Ptr, k: Ptr :: lo <= q && Edge(h, q, k) ==> q < k
  }

  /** The heap `h` is `base` followed by what hangs on one new handle `p`, in which every cell
      that is alive has count one. */
  ghost predicate Built(h: Heap, base: Heap, p: Ptr, handles: multiset<Ptr>) {
    && p == |base| < |h| && h[..p] == base && h[p].Live?
    && Counted(h, handles + multiset{p}, -1) && Tidy(h)
    && AtMostOne(h, p) && Later(h, p)
  }

  lemma EmptyBuilt(base: Heap, body: Body, handles: multiset<Ptr>)
    requires Counted(base, handles, -1) && Tidy(base) && Kids(Live(1, body)) == []
    requires body.Map? ==> |body.keys| == |body.values|
    ensures Built(Alloc(base, body), base, |base|, handles)
  {
    var h := Alloc(base, body);
    AllocOk(base, body, handles);
    forall q | 0 <= q < |h| ensures Paired(h[q]) {
      assert q < |base| ==> Paired(base[q]);
    }
  }

  /** Where a heap differs from another only in one cell and by releases above `p`. */
  ghost predicate Grown(h: Heap, h': Heap, p: Ptr, body: Body) {
    && |h'| == |h| && p < |h| && h'[..p] == h[..p]
    && h'[p].Live? && h'[p].count > 0 && h'[p].body == body
    && (forall q :: p < q < |h| && h'[q].Live? ==>
          h[q].Live? && h'[q].body == h[q].body && (h'[q].count > 0 ==> h[q].count > 0))
  }

  lemma GrownLater(h: Heap, h': Heap, p: Ptr, body: Body)
    requires Later(h, p) && Grown(h, h', p, body)
    requires forall k :: k in Kids(Live(1, body)) ==> p < k
    ensures Later(h', p)
  {
    forall q: Ptr, k: Ptr | p <= q && Edge(h', q, k)
      ensures q < k
    {
      if q > p {
        assert Edge(h, q, k);
      } else {
        assert Kids(h'[p]) == Kids(Live(1, body)) && k in Kids(h'[p]);
      }
    }
  }

  /** A container that got new slots is built again, and its slots still spell their values. */
  lemma GrownBuilt(base: Heap, h: Heap, h': Heap, p: Ptr, body: Body, handles: multiset<Ptr>)
    requires p == |base| < |h| && h[..p] == base && Later(h, p)
    requires Grown(h, h', p, body) && Counted(h', handles + multiset{p}, -1) && Tidy(h') && AtMostOne(h', p)
    requires forall k :: k in Kids(Live(1, body)) ==> p < k
    ensures Built(h', base, p, handles)
  {
    GrownLater(h, h', p, body);
  }

  lemma SlotsStillSpell(h: Heap, h': Heap, p: Ptr, body: Body, handles: multiset<Ptr>, ps: seq<Ptr>, vs: seq<T.WValue>)
    requires Grown(h, h', p, body) && Counted(h', handles, -1) && RepresentsAll(h, p + 1, ps, vs)
    requires forall q :: q in ps ==> q in Kids(Live(1, body))
    ensures RepresentsAll(h', p + 1, ps, vs)
  {
    forall i | 0 <= i < |ps|
      ensures Represents(h', p + 1, ps[i], vs[i])
    {
      SlotIsCounted(h', handles, p, ps, i);
      StillRepresents(h, h', handles, p + 1, ps[i], vs[i]);
    }
  }

  lemma AppendThenRelease(h: Heap, list: Ptr, item: Ptr)
    requires IsLive(h, list) && h[list].body.List? && list != item && IsLive(h, item) && h[item].count == 1
    ensures
      var h2 := Append(h, list, item);
      && IsLive(h2, item) && h2[item].count == 2
      && Recounted(h2, item, 1) == Rebodied(h, list, List(h[list].body.items + [item])) == Unref(h2, item).heap
  {
    var h2 := Append(h, list, item);
    assert h2[item] == Live(2, h[item].body);
    assert Recounted(h2, item, 1) == Rebodied(h, list, List(h[list].body.items + [item]));
  }

  /** Appending a value just built and giving up its handle moves it into the list. */
  lemma ItemMoved(h: Heap, list: Ptr, item: Ptr, handles: multiset<Ptr>)
    requires Counted(h, handles + multiset{list} + multiset{item}, -1)
    requires IsLive(h, list) && h[list].body.List? && list != item && IsLive(h, item) && h[item].count == 1
    ensures
      var h' := Unref(Append(h, list, item), item).heap;
      h' == Rebodied(h, list, List(h[list].body.items + [item])) && Counted(h', handles + multiset{list}, -1)
  {
    HandleIsLive(h, handles + multiset{list} + multiset{item}, -1, list);
    AppendOk(h, list, item, handles + multiset{list} + multiset{item});
    AppendThenRelease(h, list, item);
    RecountedCounted(Append(h, list, item), item, handles + multiset{list}, -1);
  }

  /** The heap just before an item is appended that was just built. */
  ghost predicate ReadyToAppend(h: Heap, p: Ptr, item: Ptr, handles: multiset<Ptr>) {
    && Counted(h, handles + multiset{p} + multiset{item}, -1) && Tidy(h)
    && IsLive(h, p) && h[p].body.List? && p < item && IsLive(h, item) && h[item].count == 1
    && Later(h, p) && AtMostOne(h, p)
    && forall k: Ptr :: k in h[p].body.items + [item] ==> p < k
  }

  lemma ItemReady(base: Heap, h0: Heap, h1: Heap, p: Ptr, item: Ptr, handles: multiset<Ptr>)
    requires Built(h0, base, p, handles) && h0[p].body.List?
    requires Built(h1, h0, item, handles + multiset{p})
    ensures ReadyToAppend(h1, p, item, handles) && h1[p] == h0[p] && h1[..p] == base
  {
    assert h1[..item][p] == h0[p] && h1[..p] == h1[..item][..p];
    HandleIsLive(h1, handles + multiset{p} + multiset{item}, -1, item);
    TopLater(h0, h1, p, item, handles + multiset{p});
    HandleIsLive(h0, handles + multiset{p}, -1, p);
    forall k | k in h0[p].body.items ensures p < k {
      assert k in Kids(h0[p]);
      assert Edge(h0, p, k);
    }
  }

  lemma ItemSpelled(h0: Heap, h1: Heap, p: Ptr, item: Ptr, handles: multiset<Ptr>,
                    items: seq<Ptr>, vs: seq<T.WValue>, v: T.WValue)
    requires p < item && RepresentsAll(h0, p + 1, items, vs)
    requires Built(h1, h0, item, handles + multiset{p}) && Represents(h1, item, item, v)
    ensures RepresentsAll(h1, p + 1, items + [item], vs + [v])
  {
    TopRepresents(h0, h1, p, item, handles + multiset{p}, items, vs);
    LowerBound(h1, item, p + 1, item, v);
  }

  lemma ListGrown(h: Heap, p: Ptr, item: Ptr, handles: multiset<Ptr>)
    requires ReadyToAppend(h, p, item, handles)
    ensures
      var body := List(h[p].body.items + [item]);
      var h' := Rebodied(h, p, body);
      Grown(h, h', p, body) && Tidy(h') && AtMostOne(h', p)
  {
    HandleIsLive(h, handles + multiset{p} + multiset{item}, -1, p);
    assert forall q :: 0 <= q < |h| ==> Paired(h[q]);
  }

  /** One turn of the list loop: `h0` before, `h1` with the new item built on top. */
  lemma ItemAdded(base: Heap, h0: Heap, h1: Heap, p: Ptr, item: Ptr,
                  handles: multiset<Ptr>, vs: seq<T.WValue>, v: T.WValue)
    requires Built(h0, base, p, handles) && h0[p].body.List? && RepresentsAll(h0, p + 1, h0[p].body.items, vs)
    requires Built(h1, h0, item, handles + multiset{p}) && Represents(h1, item, item, v)
    ensures ReadyToAppend(h1, p, item, handles)
    ensures
      var h3 := Unref(Append(h1, p, item), item).heap;
      && Built(h3, base, p, handles) && h3[p].body == List(h0[p].body.items + [item])
      && RepresentsAll(h3, p + 1, h3[p].body.items, vs + [v])
  {
    ItemReady(base, h0, h1, p, item, handles);
    var items := h0[p].body.items + [item];
    ItemMoved(h1, p, item, handles);
    ListGrown(h1, p, item, handles);
    var h3 := Rebodied(h1, p, List(items));
    GrownBuilt(base, h1, h3, p, List(items), handles);
    ItemSpelled(h0, h1, p, item, handles, h0[p].body.items, vs, v);
    SlotsStillSpell(h1, h3, p, List(items), handles + multiset{p}, items, vs + [v]);
  }

  /** Building on top of a region keeps what was known about the region. */
  lemma TopLater(h0: Heap, h1: Heap, p: Ptr, top: Ptr, handles: multiset<Ptr>)
    requires p < |h0| && Later(h0, p) && AtMostOne(h0, p) && Built(h1, h0, top, handles)
    ensures Later(h1, p) && AtMostOne(h1, p)
  {
    forall q: Ptr, k: Ptr | p <= q && Edge(h1, q, k)
      ensures q < k
    {
      if q < top {
        assert h1[..top][q] == h0[q];
        assert Edge(h0, q, k);
      }
    }
    forall q | p <= q < |h1| ensures CellCount(h1[q]) <= 1 {
      assert q < top ==> h1[..top][q] == h0[q];
    }
  }

  lemma TopRepresents(h0: Heap, h1: Heap, p: Ptr, top: Ptr, handles: multiset<Ptr>, ps: seq<Ptr>, vs: seq<T.WValue>)
    requires Built(h1, h0, top, handles) && RepresentsAll(h0, p + 1, ps, vs)
    ensures RepresentsAll(h1, p + 1, ps, vs)
  {
    forall i | 0 <= i < |ps|
      ensures Represents(h1, p + 1, ps[i], vs[i])
    {
      assert forall q :: 0 <= q < |h0| ==> h1[q] == h1[..top][q];
      StillRepresents(h0, h1, handles + multiset{top}, p + 1, ps[i], vs[i]);
    }
  }

  // ---- Setting an entry with a key and a value just built ----

  lemma ClosedRebodied(h: Heap, m: Ptr, body: Body, lo: nat)
    requires Closed(h, lo) && m < |h| && h[m].Live?
    requires forall k: Ptr :: k in Kids(Live(1, body)) ==> lo <= k
    ensures Closed(Rebodied(h, m, body), lo)
  {
    var h1 := Rebodied(h, m, body);
    forall q: Ptr, k: Ptr | lo <= q && Edge(h1, q, k)
      ensures lo <= k
    {
      if q != m {
        assert Edge(h, q, k);
      } else {
        assert k in Kids(h1[m]) && Kids(h1[m]) == Kids(Live(1, body));
      }
    }
  }

  /** Slots that a closed container already had, and new ones, all lie in the region. */
  lemma SlotsInRegion(h: Heap, m: Ptr, key: Ptr, value: Ptr, lo: nat)
    requires IsMap(h, m) && lo <= m && lo <= key && lo <= value && Count(h, m) > 0 && Closed(h, lo)
    ensures forall k: Ptr :: k in h[m].body.keys + h[m].body.values ==> lo <= k
  {
    forall k: Ptr | k in h[m].body.keys + h[m].body.values
      ensures lo <= k
    {
      assert k in Kids(h[m]);
      assert Edge(h, m, k);
    }
  }

  lemma SetOverLocal(h: Heap, m: Ptr, key: Ptr, value: Ptr, i: nat, handles: multiset<Ptr>, lo: nat)
    requires Counted(h, handles + multiset{key, value}, -1) && m in handles && IsEntry(h, m, i)
    requires lo <= m && lo <= key && lo <= value && Closed(h, lo)
    ensures SetTake(h, m, key, value, Some(i)).heap[..lo] == h[..lo]
  {
    var keys, values := h[m].body.keys, h[m].body.values;
    HandleIsLive(h, handles + multiset{key, value}, -1, m);
    HandleReaches(h, handles + multiset{key, value}, m);
    SetTakeSteps(h, m, key, value, i, handles);
    SlotsInRegion(h, m, key, value, lo);
    assert keys[i] in keys + values && values[i] in keys + values;
    UnrefLocal(h, keys[i], lo);
    var body2 := Map(keys[i := key], values);
    forall k: Ptr | k in Kids(Live(1, body2)) ensures lo <= k {
      assert k == key || k in keys + values;
    }
    var h1 := Unref(h, keys[i]).heap;
    ClosedRebodied(h1, m, body2, lo);
    UnrefLocal(Rebodied(h1, m, body2), values[i], lo);
  }

  lemma LaterIsClosed(h: Heap, p: nat)
    requires Later(h, p)
    ensures Closed(h, p)
  {
  }

  lemma RefClosed(h: Heap, p: Ptr, lo: nat)
    requires Closed(h, lo) && Count(h, p) > 0
    ensures Closed(Ref(h, p), lo)
  {
    ClosedAfterUpdate(h, p, Ref(h, p)[p], lo);
  }

  lemma ReplacedClosed(h: Heap, h': Heap, m: Ptr, body: Body, lo: nat)
    requires Closed(h, lo) && ShrunkBut(h, h', m) && m < |h| && h'[m].Live? && h'[m].body == body
    requires forall k: Ptr :: k in Kids(Live(1, body)) ==> lo <= k
    ensures Closed(h', lo)
  {
    forall q: Ptr, k: Ptr | lo <= q && Edge(h', q, k)
      ensures lo <= k
    {
      if q != m {
        assert CellShrunk(h[q], h'[q]);
        assert Edge(h, q, k);
      } else {
        assert k in Kids(h'[m]) && Kids(h'[m]) == Kids(Live(1, body));
      }
    }
  }

  function NewBody(before: Body, key: Ptr, value: Ptr, index: Option<nat>): Body
    requires before.Map? && (index.Some? ==> index.value < |before.keys| && index.value < |before.values|)
  {
    if index.None? then Map(before.keys + [key], before.values + [value])
    else Map(before.keys[index.value := key], before.values[index.value := value])
  }

  /** The heap just before an entry is set from a key and a value that were just built. */
  ghost predicate ReadyToSet(h: Heap, p: Ptr, key: Ptr, value: Ptr, index: Option<nat>, handles: multiset<Ptr>) {
    && Counted(h, handles + multiset{p} + multiset{key} + multiset{value}, -1) && Tidy(h)
    && IsMap(h, p) && (index.Some? ==> IsEntry(h, p, index.value))
    && p < key < value && IsLive(h, key) && IsLive(h, value) && Later(h, p) && AtMostOne(h, p)
  }

  lemma NewBodyLater(h: Heap, p: Ptr, key: Ptr, value: Ptr, index: Option<nat>, handles: multiset<Ptr>)
    requires ReadyToSet(h, p, key, value, index, handles)
    ensures forall k: Ptr :: k in Kids(Live(1, NewBody(h[p].body, key, value, index))) ==> p < k
  {
    HandleIsLive(h, handles + multiset{p} + multiset{key} + multiset{value}, -1, p);
    forall k: Ptr | k in Kids(Live(1, NewBody(h[p].body, key, value, index)))
      ensures p < k
    {
      if k != key && k != value {
        assert k in Kids(h[p]);
        assert Edge(h, p, k);
      }
    }
  }

  function Taken(h: Heap, key: Ptr, value: Ptr): Heap
    requires IsLive(h, key) && IsLive(h, value)
  {
    Ref(Ref(h, key), value)
  }

  lemma TakenCounted(h: Heap, key: Ptr, value: Ptr, all: multiset<Ptr>)
    requires Counted(h, all, -1) && Count(h, key) > 0 && Count(h, value) > 0
    ensures Counted(Taken(h, key, value), all + multiset{key, value}, -1)
  {
    RefOk(h, key, all, -1);
    RefOk(Ref(h, key), value, all + multiset{key}, -1);
    assert all + multiset{key} + multiset{value} == all + multiset{key, value};
  }

  lemma TakenClosed(h: Heap, key: Ptr, value: Ptr, lo: nat)
    requires Closed(h, lo) && Count(h, key) > 0 && Count(h, value) > 0
    ensures Closed(Taken(h, key, value), lo)
  {
    RefClosed(h, key, lo);
    RefClosed(Ref(h, key), value, lo);
  }

  lemma TakenTidy(h: Heap, key: Ptr, value: Ptr)
    requires Tidy(h) && Count(h, key) > 0 && Count(h, value) > 0
    ensures Tidy(Taken(h, key, value))
  {
    RefTidy(h, key);
    RefTidy(Ref(h, key), value);
  }

  /** Setting the entry, before the handles of key and value are given up. */
  lemma EntrySet(h: Heap, p: Ptr, key: Ptr, value: Ptr, index: Option<nat>, handles: multiset<Ptr>, all: multiset<Ptr>)
    requires ReadyToSet(h, p, key, value, index, handles)
    requires all == handles + multiset{p} + multiset{key} + multiset{value}
    ensures
      var h3 := Set(h, p, key, value, index).heap;
      && Counted(h3, all, -1) && Tidy(h3)
      && ShrunkBut(Taken(h, key, value), h3, p)
      && h3[p].Live? && h3[p].body == NewBody(h[p].body, key, value, index) && h3[p].count <= 1
  {
    HandleIsLive(h, all, -1, key);
    HandleIsLive(h, all, -1, value);
    assert Paired(h[p]);
    HandleReaches(h, all, p);
    SetOk(h, p, key, value, index, all);
    TakenTidy(h, key, value);
    ReplacedTidy(Taken(h, key, value), Set(h, p, key, value, index), p, NewBody(h[p].body, key, value, index));
  }

  lemma EntrySetLocal(h: Heap, p: Ptr, key: Ptr, value: Ptr, index: Option<nat>,
                      handles: multiset<Ptr>, all: multiset<Ptr>)
    requires ReadyToSet(h, p, key, value, index, handles)
    requires all == handles + multiset{p} + multiset{key} + multiset{value}
    ensures
      var h3 := Set(h, p, key, value, index).heap;
      |h3| == |h| && h3[..p] == h[..p] && Closed(h3, p)
  {
    HandleIsLive(h, all, -1, key);
    HandleIsLive(h, all, -1, value);
    EntrySet(h, p, key, value, index, handles, all);
    LaterIsClosed(h, p);
    TakenClosed(h, key, value, p);
    NewBodyLater(h, p, key, value, index, handles);
    var body := NewBody(h[p].body, key, value, index);
    ReplacedClosed(Taken(h, key, value), Set(h, p, key, value, index).heap, p, body, p);
    if index.Some? {
      TakenCounted(h, key, value, all);
      SetOverLocal(Taken(h, key, value), p, key, value, index.value, all, p);
    }
  }

  /** The whole turn: set the entry, then give up both handles. */
  function AfterEntry(h: Heap, p: Ptr, key: Ptr, value: Ptr, index: Option<nat>): Heap
    requires IsMap(h, p) && IsLive(h, key) && IsLive(h, value) && (index.Some? ==> IsEntry(h, p, index.value))
  {
    Unref(Unref(Set(h, p, key, value, index).heap, key).heap, value).heap
  }

  lemma GiveUp(h: Heap, p: Ptr, q: Ptr, kept: multiset<Ptr>)
    requires Counted(h, kept + multiset{q}, -1) && Tidy(h) && Closed(h, p) && p <= q && p < |h|
    ensures
      var h' := Unref(h, q).heap;
      && Counted(h', kept, -1) && Tidy(h') && Shrunk(h, h') && h'[..p] == h[..p] && Closed(h', p)
      && Count(h', q) < Count(h, q)
  {
    HandleIsLive(h, kept + multiset{q}, -1, q);
    UnrefOk(h, q, kept, -1);
    ShrunkTidy(h, Unref(h, q).heap);
    UnrefLocal(h, q, p);
  }

  lemma CollectGrown(h: Heap, p: Ptr, key: Ptr, value: Ptr, index: Option<nat>,
                     handles: multiset<Ptr>, h3: Heap, h4: Heap, h5: Heap)
    requires ReadyToSet(h, p, key, value, index, handles)
    requires ShrunkBut(Taken(h, key, value), h3, p) && h3[p].Live? && h3[p].count <= 1 && h3[..p] == h[..p]
    requires h3[p].body == NewBody(h[p].body, key, value, index)
    requires Shrunk(h3, h4) && h4[..p] == h3[..p] && Count(h4, key) < Count(h3, key)
    requires Shrunk(h4, h5) && h5[..p] == h4[..p] && Count(h5, value) < Count(h4, value) && Count(h5, p) > 0
    ensures Grown(h, h5, p, NewBody(h[p].body, key, value, index)) && AtMostOne(h5, p)
  {
    var hr := Taken(h, key, value);
    assert CellShrunk(h3[p], h4[p]) && CellShrunk(h4[p], h5[p]);
    forall q | p < q < |h|
      ensures h5[q].Live? ==> h[q].Live? && h5[q].body == h[q].body && (h5[q].count > 0 ==> h[q].count > 0)
      ensures CellCount(h5[q]) <= 1
    {
      assert CellShrunk(hr[q], h3[q]) && CellShrunk(h3[q], h4[q]) && CellShrunk(h4[q], h5[q]);
      assert CellCount(hr[q]) <= CellCount(h[q]) + if q == key || q == value then 1 else 0;
    }
  }

  lemma EntryGrown(h: Heap, p: Ptr, key: Ptr, value: Ptr, index: Option<nat>, handles: multiset<Ptr>)
    requires ReadyToSet(h, p, key, value, index, handles)
    ensures
      var h5 := AfterEntry(h, p, key, value, index);
      && Grown(h, h5, p, NewBody(h[p].body, key, value, index))
      && Counted(h5, handles + multiset{p}, -1) && Tidy(h5) && AtMostOne(h5, p)
  {
    var kept := handles + multiset{p};
    var all := kept + multiset{key} + multiset{value};
    EntrySet(h, p, key, value, index, handles, all);
    EntrySetLocal(h, p, key, value, index, handles, all);
    var h3 := Set(h, p, key, value, index).heap;
    assert all == kept + multiset{value} + multiset{key};
    GiveUp(h3, p, key, kept + multiset{value});
    var h4 := Unref(h3, key).heap;
    GiveUp(h4, p, value, kept);
    HandleIsLive(Unref(h4, value).heap, kept, -1, p);
    CollectGrown(h, p, key, value, index, handles, h3, h4, Unref(h4, value).heap);
  }

  /** One turn of the map loop: `h0` before, then the key and the value built on top of it. */
  lemma EntryAdded(base: Heap, h0: Heap, h1: Heap, h: Heap, p: Ptr, key: Ptr, value: Ptr, index: Option<nat>,
                   handles: multiset<Ptr>, m: T.WValue, k: T.WValue, v: T.WValue)
    requires Built(h0, base, p, handles) && IsMap(h0, p) && SpellsEntries(h0, p, m)
    requires Built(h1, h0, key, handles + multiset{p}) && Represents(h1, key, key, k)
    requires Built(h, h1, value, handles + multiset{p} + multiset{key}) && Represents(h, value, value, v)
    requires h[p] == h0[p] && index == T.FindKey(T.ScalarEq, m.keys, k)
    ensures IsMap(h, p) && IsLive(h, key) && IsLive(h, value) && (index.Some? ==> IsEntry(h, p, index.value))
    ensures Built(AfterEntry(h, p, key, value, index), base, p, handles)
    ensures IsMap(AfterEntry(h, p, key, value, index), p)
    ensures SpellsEntries(AfterEntry(h, p, key, value, index), p, T.SetEntry(T.ScalarEq, m, k, v))
  {
    EntryReady(base, h0, h1, h, p, key, value, index, handles, m, k, v);
    EntryGrown(h, p, key, value, index, handles);
    NewBodyLater(h, p, key, value, index, handles);
    var h5 := AfterEntry(h, p, key, value, index);
    var body := NewBody(h[p].body, key, value, index);
    GrownBuilt(base, h, h5, p, body, handles);
    var m' := T.SetEntry(T.ScalarEq, m, k, v);
    SlotsStillSpell(h, h5, p, body, handles + multiset{p}, body.keys, m'.keys);
    SlotsStillSpell(h, h5, p, body, handles + multiset{p}, body.values, m'.values);
  }

  /** The slots of the map at `p` spell the entries of `m`. */
  ghost predicate SpellsEntries(h: Heap, p: Ptr, m: T.WValue) {
    && IsMap(h, p) && m.Entries? && |m.keys| == |m.values|
    && RepresentsAll(h, p + 1, h[p].body.keys, m.keys) && RepresentsAll(h, p + 1, h[p].body.values, m.values)
  }

  lemma EntryReady(base: Heap, h0: Heap, h1: Heap, h: Heap, p: Ptr, key: Ptr, value: Ptr, index: Option<nat>,
                   handles: multiset<Ptr>, m: T.WValue, k: T.WValue, v: T.WValue)
    requires Built(h0, base, p, handles) && IsMap(h0, p) && SpellsEntries(h0, p, m)
    requires Built(h1, h0, key, handles + multiset{p}) && Represents(h1, key, key, k)
    requires Built(h, h1, value, handles + multiset{p} + multiset{key}) && Represents(h, value, value, v)
    requires h[p] == h0[p] && index == T.FindKey(T.ScalarEq, m.keys, k)
    ensures ReadyToSet(h, p, key, value, index, handles) && h[..p] == base
    ensures
      var body, m' := NewBody(h[p].body, key, value, index), T.SetEntry(T.ScalarEq, m, k, v);
      RepresentsAll(h, p + 1, body.keys, m'.keys) && RepresentsAll(h, p + 1, body.values, m'.values)
  {
    TopLater(h0, h1, p, key, handles + multiset{p});
    TopLater(h1, h, p, value, handles + multiset{p} + multiset{key});
    assert h1[..p] == h1[..key][..p] && h[..p] == h[..value][..p];
    assert h1[key] == h[..value][key];
    var keys, values := h0[p].body.keys, h0[p].body.values;
    TopRepresents(h0, h1, p, key, handles + multiset{p}, keys, m.keys);
    TopRepresents(h0, h1, p, key, handles + multiset{p}, values, m.values);
    TopRepresents(h1, h, p, value, handles + multiset{p} + multiset{key}, keys, m.keys);
    TopRepresents(h1, h, p, value, handles + multiset{p} + multiset{key}, values, m.values);
    LowerBound(h1, key, p + 1, key, k);
    TopRepresents(h1, h, p, value, handles + multiset{p} + multiset{key}, [key], [k]);
    LowerBound(h, value, p + 1, value, v);
    assert Represents(h, p + 1, [key][0], [k][0]);
  }

  // ---- The conversions ----

  lemma ListSpelled(h: Heap, p: Ptr, v: T.WValue)
    requires p < |h| && h[p].Live? && h[p].count > 0 && h[p].body.List? && v.Items?
    requires RepresentsAll(h, p + 1, h[p].body.items, v.items)
    ensures Represents(h, p, p, v)
  {
    forall i | 0 <= i < |v.items| ensures Represents(h, p, h[p].body.items[i], v.items[i]) {
      LowerBound(h, p + 1, p, h[p].body.items[i], v.items[i]);
    }
  }

  lemma MapSpelled(h: Heap, p: Ptr, v: T.WValue)
    requires SpellsEntries(h, p, v) && h[p].count > 0
    ensures Represents(h, p, p, v)
  {
    forall i | 0 <= i < |v.keys|
      ensures Represents(h, p, h[p].body.keys[i], v.keys[i]) && Represents(h, p, h[p].body.values[i], v.values[i])
    {
      LowerBound(h, p + 1, p, h[p].body.keys[i], v.keys[i]);
      LowerBound(h, p + 1, p, h[p].body.values[i], v.values[i]);
    }
  }

  ghost predicate KeysMapFree(m: T.WValue) {
    m.Entries? && forall j :: 0 <= j < |m.keys| ==> T.MapFree(m.keys[j])
  }

  /** Keys decoded so far contain no map. */
  lemma DecodedKeysMapFree(fl: T.FlValue, i: nat)
    requires T.Proper(fl) && fl.Entries? && i <= |fl.keys|
    ensures KeysMapFree(T.SetAll(T.ScalarEq, T.DecodeAll(fl.keys)[..i], T.DecodeAll(fl.values)[..i]))
    ensures i < |fl.keys| ==> T.MapFree(T.Decode(fl.keys[i]))
  {
    forall j | 0 <= j < |fl.keys| ensures T.MapFree(T.Decode(fl.keys[j])) {
      T.DecodeProper(fl.keys[j]);
    }
    T.SetAllStores(T.ScalarEq, T.DecodeAll(fl.keys)[..i], T.DecodeAll(fl.values)[..i]);
  }

  /** The key search can read what was built so far and the new key. */
  lemma SearchReady(h0: Heap, h1: Heap, h: Heap, p: Ptr, key: Ptr, value: Ptr,
                    handles: multiset<Ptr>, m: T.WValue, k: T.WValue)
    requires p < |h0| && IsMap(h0, p) && SpellsEntries(h0, p, m)
    requires Built(h1, h0, key, handles + multiset{p}) && Represents(h1, key, key, k)
    requires Built(h, h1, value, handles + multiset{p} + multiset{key}) && h[p] == h0[p]
    ensures RepresentsAll(h, 0, h[p].body.keys, m.keys) && Represents(h, 0, key, k)
  {
    TopRepresents(h0, h1, p, key, handles + multiset{p}, h0[p].body.keys, m.keys);
    TopRepresents(h1, h, p, value, handles + multiset{p} + multiset{key}, h0[p].body.keys, m.keys);
    LowerBound(h1, key, p + 1, key, k);
    TopRepresents(h1, h, p, value, handles + multiset{p} + multiset{key}, [key], [k]);
    forall i | 0 <= i < |m.keys| ensures Represents(h, 0, h[p].body.keys[i], m.keys[i]) {
      LowerBound(h, p + 1, 0, h[p].body.keys[i], m.keys[i]);
    }
    assert Represents(h, p + 1, [key][0], [k][0]);
    LowerBound(h, p + 1, 0, key, k);
  }

  /** `encode_flvalue_to_wvalue`: builds the value on fresh cells above everything that was
      there, every one of them with count one, and hands out the only reference to it. */
  method DecodeFl(store: Store, fl: T.FlValue, ghost handles: multiset<Ptr>) returns (p: Ptr)
    requires T.Proper(fl) && Counted(store.cells, handles, -1) && Tidy(store.cells)
    modifies store
    ensures Built(store.cells, old(store.cells), p, handles)
    ensures Represents(store.cells, p, p, T.Decode(fl))
    decreases fl, 2
  {
    match fl {
      case Leaf(f) =>
        p := store.New(Atom(T.ToScalar(f)));
        EmptyBuilt(old(store.cells), Atom(T.ToScalar(f)), handles);
      case Items(items) =>
        p := DecodeItems(store, fl, handles);
        HandleIsLive(store.cells, handles + multiset{p}, -1, p);
        ListSpelled(store.cells, p, T.Decode(fl));
      case Entries(keys, values) =>
        p := DecodeEntries(store, fl, handles);
        T.DecodeEntries(keys, values);
        HandleIsLive(store.cells, handles + multiset{p}, -1, p);
        MapSpelled(store.cells, p, T.Decode(fl));
    }
  }

  method DecodeItems(store: Store, fl: T.FlValue, ghost handles: multiset<Ptr>) returns (p: Ptr)
    requires T.Proper(fl) && fl.Items? && Counted(store.cells, handles, -1) && Tidy(store.cells)
    modifies store
    ensures Built(store.cells, old(store.cells), p, handles)
    ensures store.cells[p].body.List?
    ensures RepresentsAll(store.cells, p + 1, store.cells[p].body.items, T.Decode(fl).items)
    decreases fl, 1
  {
    ghost var base := store.cells;
    ghost var done := T.Decode(fl).items;
    p := store.New(List([]));
    EmptyBuilt(base, List([]), handles);
    for i := 0 to |fl.items|
      invariant Built(store.cells, base, p, handles) && store.cells[p].body.List?
      invariant RepresentsAll(store.cells, p + 1, store.cells[p].body.items, done[..i])
    {
      ghost var h0 := store.cells;
      var item := DecodeFl(store, fl.items[i], handles + multiset{p});
      ghost var h1 := store.cells;
      assert h1[..item][p] == h0[p];
      ItemAdded(base, h0, h1, p, item, handles, done[..i], done[i]);
      store.AppendValue(p, item);
      store.Release(item);
      assert done[..i + 1] == done[..i] + [done[i]];
    }
    assert done[..|fl.items|] == done;
  }

  method DecodeEntries(store: Store, fl: T.FlValue, ghost handles: multiset<Ptr>) returns (p: Ptr)
    requires T.Proper(fl) && fl.Entries? && Counted(store.cells, handles, -1) && Tidy(store.cells)
    modifies store
    ensures Built(store.cells, old(store.cells), p, handles)
    ensures SpellsEntries(store.cells, p, T.SetAll(T.ScalarEq, T.DecodeAll(fl.keys), T.DecodeAll(fl.values)))
    decreases fl, 1
  {
    ghost var base := store.cells;
    ghost var dk, dv := T.DecodeAll(fl.keys), T.DecodeAll(fl.values);
    p := store.New(Map([], []));
    EmptyBuilt(base, Map([], []), handles);
    for i := 0 to |fl.keys|
      invariant Built(store.cells, base, p, handles)
      invariant SpellsEntries(store.cells, p, T.SetAll(T.ScalarEq, dk[..i], dv[..i]))
    {
      ghost var m := T.SetAll(T.ScalarEq, dk[..i], dv[..i]);
      DecodedKeysMapFree(fl, i);
      AddEntry(store, p, fl, i, base, handles, m);
      T.SetAllNext(T.ScalarEq, dk, dv, i);
    }
    assert dk[..|fl.keys|] == dk && dv[..|fl.keys|] == dv;
  }

  /** One turn of the map loop. */
  method AddEntry(store: Store, p: Ptr, fl: T.FlValue, i: nat, ghost base: Heap,
                  ghost handles: multiset<Ptr>, ghost m: T.WValue)
    requires T.Proper(fl) && fl.Entries? && i < |fl.keys|
    requires Built(store.cells, base, p, handles) && SpellsEntries(store.cells, p, m)
    requires T.MapFree(T.Decode(fl.keys[i])) && KeysMapFree(m)
    modifies store
    ensures Built(store.cells, base, p, handles)
    ensures SpellsEntries(store.cells, p, T.SetEntry(T.ScalarEq, m, T.Decode(fl.keys[i]), T.Decode(fl.values[i])))
    decreases fl, 0
  {
    ghost var k, v := T.Decode(fl.keys[i]), T.Decode(fl.values[i]);
    ghost var h0 := store.cells;
    var key := DecodeFl(store, fl.keys[i], handles + multiset{p});
    ghost var h1 := store.cells;
    assert h1[..key][p] == h0[p];
    var value := DecodeFl(store, fl.values[i], handles + multiset{p} + multiset{key});
    ghost var h := store.cells;
    assert h[..value][p] == h1[p];
    SearchReady(h0, h1, h, p, key, value, handles, m, k);
    HandleIsLive(h, handles + multiset{p} + multiset{key} + multiset{value}, -1, key);
    HandleIsLive(h, handles + multiset{p} + multiset{key} + multiset{value}, -1, value);
    HandleReaches(h, handles + multiset{p} + multiset{key} + multiset{value}, p);
    var index := store.SetEntry(p, key, value, handles + multiset{p} + multiset{key} + multiset{value}, m.keys, k);
    EntryAdded(base, h0, h1, h, p, key, value, index, handles, m, k, v);
    store.Release(key);
    store.Release(value);
  }

  /** `encode_wavlue_to_flvalue`: reads the heap and builds the Flutter value bottom-up. */
  method EncodeFl(store: Store, p: Ptr, ghost v: T.WValue) returns (fl: T.FlValue)
    requires Represents(store.cells, 0, p, v) && T.Proper(v)
    ensures fl == T.Encode(v)
    decreases v, 1
  {
    match store.cells[p].body {
      case Atom(s) =>
        fl := T.Leaf(T.FromScalar(s));
      case List(items) =>
        var parts := EncodeSlots(store, items, v, v.items);
        fl := T.Items(parts);
      case Map(keys, values) =>
        fl := EncodeMap(store, keys, values, v);
    }
  }

  method EncodeMap(store: Store, keys: seq<Ptr>, values: seq<Ptr>, ghost v: T.WValue) returns (fl: T.FlValue)
    requires v.Entries? && T.Proper(v)
    requires RepresentsAll(store.cells, 0, keys, v.keys) && RepresentsAll(store.cells, 0, values, v.values)
    ensures fl == T.Encode(v)
    decreases v, 0
  {
    ghost var ks, vs := T.EncodeAll(v.keys), T.EncodeAll(v.values);
    T.EncodeEntries(v.keys, v.values);
    fl := T.Entries([], []);
    for i := 0 to |keys|
      invariant fl == T.SetAll(T.FlScalarEq, ks[..i], vs[..i])
    {
      var key := EncodeFl(store, keys[i], v.keys[i]);
      var value := EncodeFl(store, values[i], v.values[i]);
      T.SetAllNext(T.FlScalarEq, ks, vs, i);
      fl := T.SetEntry(T.FlScalarEq, fl, key, value);
    }
    assert ks[..|keys|] == ks && vs[..|keys|] == vs;
  }

  method EncodeSlots(store: Store, slots: seq<Ptr>, ghost whole: T.WValue, ghost vs: seq<T.WValue>)
    returns (parts: seq<T.FlValue>)
    requires whole.Items? && vs == whole.items && RepresentsAll(store.cells, 0, slots, vs)
    requires forall i :: 0 <= i < |vs| ==> T.Proper(vs[i])
    ensures |parts| == |vs| && forall i :: 0 <= i < |vs| ==> parts[i] == T.Encode(vs[i])
    decreases whole, 0
  {
    parts := [];
    for i := 0 to |slots|
      invariant |parts| == i && forall j :: 0 <= j < i ==> parts[j] == T.Encode(vs[j])
    {
      var part := EncodeFl(store, slots[i], vs[i]);
      parts := parts + [part];
    }
  }

  // ---- Releasing what was decoded ----

  /** After the only handle on a decoded value is gone, none of its cells is left: what is left
      would be held by an older cell of its own region, or by a cell from before. */
  lemma {:induction false} NothingLeft(base: Heap, h: Heap, h': Heap, p: Ptr, handles: multiset<Ptr>, q: Ptr)
    requires Built(h, base, p, handles) && Counted(base, handles, -1)
    requires Shrunk(h, h') && Counted(h', handles, -1) && NoZombies(h') && h'[..p] == base
    requires p <= q < |h|
    ensures h'[q].Freed?
    decreases q
  {
    assert Count(base, q) == handles[q] + Slots(base, -1, q);
    assert Count(h', q) == handles[q] + Slots(h', -1, q);
    if h'[q].Live? {
      var owner := SlotHasOwner(h', q);
      if owner < p {
        assert base[owner] == h'[..p][owner];
        SlotCounts(base, owner, q, -1);
      } else {
        EdgeWasThere(h, h', owner, q);
        NothingLeft(base, h, h', p, handles, owner);
      }
      assert false;
    }
  }

  /** Main result 1: releasing the root of a decoded value frees every cell that decoding
      allocated and nothing else. */
  lemma ReleaseFreesWhatWasBuilt(base: Heap, h: Heap, p: Ptr, handles: multiset<Ptr>)
    requires Built(h, base, p, handles) && Counted(base, handles, -1)
    ensures
      var r := Unref(h, p);
      && r.sound && r.heap == base + seq(|h| - p, _ => Freed) && FreedOnce(h, r)
      && Counted(r.heap, handles, -1)
  {
    var r := Unref(h, p);
    UnrefOk(h, p, handles, -1);
    LaterIsClosed(h, p);
    UnrefLocal(h, p, p);
    ShrunkNoZombies(h, r.heap);
    forall q | p <= q < |h| ensures r.heap[q] == Freed {
      NothingLeft(base, h, r.heap, p, handles, q);
    }
    assert r.heap == r.heap[..p] + r.heap[p..];
    assert r.heap[p..] == seq(|h| - p, _ => Freed);
  }

  /** Main result 2: a method call that is answered with its own arguments gives the caller the
      same value back exactly when it is clean, and leaves the heap as it found it except
      for cells that were allocated and freed on the way. */
  method AnswerWithArguments(store: Store, fl: T.FlValue, ghost handles: multiset<Ptr>) returns (back: T.FlValue)
    requires T.Proper(fl) && Counted(store.cells, handles, -1) && Tidy(store.cells)
    modifies store
    ensures back == T.RoundTrip(fl) && (back == fl <==> T.Clean(fl))
    ensures old(store.cells) <= store.cells && Counted(store.cells, handles, -1)
    ensures forall q :: |old(store.cells)| <= q < |store.cells| ==> store.cells[q] == Freed
  {
    ghost var base := store.cells;
    var args := DecodeFl(store, fl, handles);
    T.DecodeProper(fl);
    LowerBound(store.cells, args, 0, args, T.Decode(fl));
    back := EncodeFl(store, args, T.Decode(fl));
    T.RoundTripExactly(fl);
    ReleaseFreesWhatWasBuilt(base, store.cells, args, handles);
    store.Release(args);
  }

  // ---- Reading the arguments of a call ----

  /** The number that Flutter sent at a place of a list, or zero. */
  function SentNumber(fl: T.FlValue, i: nat): Number {
    if fl.Items? && i < |fl.items| && fl.items[i].Leaf? && fl.items[i].value.FlFloat? then fl.items[i].value.d
    else Real(0.0)
  }

  function SentInt(fl: T.FlValue, i: nat): int {
    if fl.Items? && i < |fl.items| && fl.items[i].Leaf? && fl.items[i].value.FlInt? then fl.items[i].value.i else 0
  }

  /** How `setSize` reads its arguments: exactly the numbers that were sent. */
  method SizeArguments(store: Store, values: Ptr, ghost fl: T.FlValue)
    returns (id: int, dpi: Number, width: Number, height: Number)
    requires T.Proper(fl) && Represents(store.cells, 0, values, T.Decode(fl))
    ensures id == SentInt(fl, 0) && dpi == SentNumber(fl, 1)
    ensures width == SentNumber(fl, 2) && height == SentNumber(fl, 3)
  {
    id := IntArgument(store, values, 0, fl);
    dpi := NumberArgument(store, values, 1, fl);
    width := NumberArgument(store, values, 2, fl);
    height := NumberArgument(store, values, 3, fl);
  }

  method IntArgument(store: Store, values: Ptr, i: nat, ghost fl: T.FlValue) returns (value: int)
    requires T.Proper(fl) && Represents(store.cells, 0, values, T.Decode(fl))
    ensures value == SentInt(fl, i)
  {
    var item := store.GetListValue(Some(values), i, Some(T.Decode(fl)));
    T.DecodedItems(fl, i);
    if fl.Items? && i < |fl.items| {
      T.DecodedReadsAsSent(fl.items[i]);
    }
    value := store.GetInt(item, T.GetListValue(Some(T.Decode(fl)), i));
  }

  method NumberArgument(store: Store, values: Ptr, i: nat, ghost fl: T.FlValue) returns (value: Number)
    requires T.Proper(fl) && Represents(store.cells, 0, values, T.Decode(fl))
    ensures value == SentNumber(fl, i)
  {
    var item := store.GetListValue(Some(values), i, Some(T.Decode(fl)));
    T.DecodedItems(fl, i);
    if fl.Items? && i < |fl.items| {
      T.DecodedReadsAsSent(fl.items[i]);
    }
    value := store.GetDouble(item, T.GetListValue(Some(T.Decode(fl)), i));
  }
}
