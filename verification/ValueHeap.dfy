/** Reference-counted values of the browser plugin, on an explicit heap.

    A heap is a sequence of cells; a pointer is an index and is never used again after its
    cell was freed, so a double free or a use after free shows as an access to a freed cell. */
module ValueHeap {
  import opened Common

  type Ptr = nat

  /** A floating-point number as far as `==` can tell. */
  datatype Number = Real(r: real) | NegZero | PosInf | NegInf | NaN

  datatype Scalar =
    | Null
    | Bool(b: bool)
    | Int(i: int)
    | Float(f: Number)
    | Double(d: Number)
    | Text(chars: string)
    | Uint8List(bytes: seq<int>)
    | Int32List(ints: seq<int>)
    | Int64List(longs: seq<int>)
    | FloatList(floats: seq<Number>)
    | DoubleList(doubles: seq<Number>)

  datatype Body = Atom(value: Scalar) | List(items: seq<Ptr>) | Map(keys: seq<Ptr>, values: seq<Ptr>)

  datatype Cell = Live(count: nat, body: Body) | Freed

  type Heap = seq<Cell>

  function CellCount(c: Cell): nat {
    if c.Live? then c.count else 0
  }

  function Count(h: Heap, p: Ptr): nat {
    if p < |h| then CellCount(h[p]) else 0
  }

  /** The slots of a container, in the order in which freeing it releases them.  A cell whose
      count has reached zero is being freed and no longer speaks for its slots. */
  function Kids(c: Cell): seq<Ptr> {
    if CellCount(c) == 0 then []
    else match c.body
      case Atom(_) => []
      case List(items) => items
      case Map(keys, values) => keys + values
  }

  // ---- Taking and releasing references ----

  function Total(h: Heap): nat {
    if h == [] then 0 else Total(h[..|h| - 1]) + CellCount(h[|h| - 1])
  }

  lemma {:induction false} TotalUpdate(h: Heap, p: Ptr, c: Cell)
    requires p < |h|
    ensures Total(h[p := c]) + CellCount(h[p]) == Total(h) + CellCount(c)
  {
    if p == |h| - 1 {
      assert h[p := c][..p] == h[..p];
    } else {
      assert h[p := c][..|h| - 1] == h[..|h| - 1][p := c];
      TotalUpdate(h[..|h| - 1], p, c);
    }
  }

  /** The heap after a release, the cells it freed in order, and whether every pointer it
      followed led to a cell that had not been freed. */
  datatype Released = Released(heap: Heap, freed: seq<Ptr>, sound: bool)

  function Recounted(h: Heap, p: Ptr, count: nat): Heap
    requires p < |h| && h[p].Live?
  {
    h[p := Live(count, h[p].body)]
  }

  /** `webview_value_unref`.  It terminates on every heap, cyclic ones included, because
      each call that goes on takes one reference away. */
  function Unref(h: Heap, p: Ptr): (r: Released)
    ensures |r.heap| == |h| && Total(r.heap) <= Total(h)
    decreases Total(h), 0
  {
    if p >= |h| || h[p].Freed? then Released(h, [], false)
    else if h[p].count == 0 then Released(h, [], true)
    else
      TotalUpdate(h, p, Live(h[p].count - 1, h[p].body));
      var h1 := Recounted(h, p, h[p].count - 1);
      if h[p].count > 1 then Released(h1, [], true)
      else
        var r := UnrefAll(h1, Kids(h[p]));
        TotalUpdate(r.heap, p, Freed);
        Released(r.heap[p := Freed], r.freed + [p], r.sound)
  }

  /** `webview_ptr_array_free` on one or two arrays: release the slots from the front. */
  function UnrefAll(h: Heap, ps: seq<Ptr>): (r: Released)
    ensures |r.heap| == |h| && Total(r.heap) <= Total(h)
    decreases Total(h), 1 + |ps|
  {
    if ps == [] then Released(h, [], true)
    else
      var first := Unref(h, ps[0]);
      var rest := UnrefAll(first.heap, ps[1..]);
      Released(rest.heap, first.freed + rest.freed, first.sound && rest.sound)
  }

  // ---- The counting invariant ----

  /** In how many slots of the heap a pointer stands, leaving out one cell that is being
      changed (or none, -1). */
  function Slots(h: Heap, skip: int, q: Ptr): nat {
    if h == [] then 0
    else Slots(h[..|h| - 1], skip, q) + SlotsIn(h[|h| - 1], |h| - 1 == skip, q)
  }

  function SlotsIn(c: Cell, skipped: bool, q: Ptr): nat {
    if skipped then 0 else multiset(Kids(c))[q]
  }

  lemma SlotsLast(h: Heap, c: Cell, skip: int, q: Ptr)
    ensures Slots(h + [c], skip, q) == Slots(h, skip, q) + SlotsIn(c, |h| == skip, q)
  {
    var all := h + [c];
    assert all[..|all| - 1] == h && all[|all| - 1] == c;
  }

  lemma {:induction false} SlotsUpdate(h: Heap, p: Ptr, c: Cell, skip: int, q: Ptr)
    requires p < |h|
    ensures Slots(h[p := c], skip, q) + SlotsIn(h[p], p == skip, q) == Slots(h, skip, q) + SlotsIn(c, p == skip, q)
  {
    var front, last := h[..|h| - 1], h[|h| - 1];
    assert h == front + [last];
    SlotsLast(front, last, skip, q);
    if p == |front| {
      assert h[p := c] == front + [c];
      SlotsLast(front, c, skip, q);
    } else {
      assert h[p := c] == front[p := c] + [last];
      SlotsUpdate(front, p, c, skip, q);
      SlotsLast(front[p := c], last, skip, q);
    }
  }

  lemma {:induction false} SlotsOpen(h: Heap, m: Ptr, q: Ptr)
    requires m < |h|
    ensures Slots(h, -1, q) == Slots(h, m, q) + multiset(Kids(h[m]))[q]
  {
    if m == |h| - 1 {
      SlotsBeyond(h[..m], m, q);
    } else {
      SlotsOpen(h[..|h| - 1], m, q);
    }
  }

  lemma {:induction false} SlotsBeyond(h: Heap, m: Ptr, q: Ptr)
    requires |h| <= m
    ensures Slots(h, m, q) == Slots(h, -1, q)
  {
    if h != [] {
      SlotsBeyond(h[..|h| - 1], m, q);
    }
  }

  /** One of the owner's slots holds the kid. */
  ghost predicate Edge(h: Heap, owner: Ptr, kid: Ptr) {
    owner < |h| && multiset(Kids(h[owner]))[kid] > 0
  }

  lemma {:induction false} SlotHasOwner(h: Heap, p: Ptr) returns (owner: Ptr)
    requires Slots(h, -1, p) > 0
    ensures Edge(h, owner, p)
  {
    if multiset(Kids(h[|h| - 1]))[p] > 0 {
      owner := |h| - 1;
    } else {
      owner := SlotHasOwner(h[..|h| - 1], p);
    }
  }

  /** Every cell's count is the number of handles on it plus the number of slots that hold it.
      A pointer that is a handle or in a slot therefore never leads to a freed cell. */
  ghost predicate Counted(h: Heap, handles: multiset<Ptr>, skip: int) {
    forall p: Ptr :: Count(h, p) == handles[p] + Slots(h, skip, p)
  }

  /** What a release leaves alone: bodies never change, counts only go down, freed cells stay
      freed, cells already being freed are not touched, and a cell whose count reaches
      zero is freed. */
  ghost predicate Shrunk(h: Heap, h': Heap) {
    |h'| == |h| && forall q :: 0 <= q < |h| ==> CellShrunk(h[q], h'[q])
  }

  ghost predicate CellShrunk(c: Cell, c': Cell) {
    && (c.Freed? || CellCount(c) == 0 ==> c' == c)
    && (c'.Live? ==> c.Live? && c'.body == c.body && c'.count <= c.count)
    && (c'.Live? && c'.count == 0 ==> c' == c)
  }

  /** The freed cells are listed once each. */
  ghost predicate FreedOnce(h: Heap, r: Released) {
    && |r.heap| == |h|
    && (forall q :: 0 <= q < |h| ==> (q in r.freed <==> h[q].Live? && r.heap[q].Freed?))
    && (forall q :: q in r.freed ==> q < |h|)
    && (forall i, j :: 0 <= i < j < |r.freed| ==> r.freed[i] != r.freed[j])
  }

  ghost predicate ReleaseOk(h: Heap, r: Released, handles: multiset<Ptr>, skip: int) {
    r.sound && Counted(r.heap, handles, skip) && Shrunk(h, r.heap) && FreedOnce(h, r)
  }

  lemma ReleaseOkTrans(h: Heap, r1: Released, r2: Released, handles1: multiset<Ptr>, handles: multiset<Ptr>, skip: int)
    requires ReleaseOk(h, r1, handles1, skip) && ReleaseOk(r1.heap, r2, handles, skip)
    ensures ReleaseOk(h, Released(r2.heap, r1.freed + r2.freed, r1.sound && r2.sound), handles, skip)
  {
    forall q | 0 <= q < |h|
      ensures CellShrunk(h[q], r2.heap[q]) && (q in r1.freed + r2.freed <==> h[q].Live? && r2.heap[q].Freed?)
    {
      assert CellShrunk(h[q], r1.heap[q]) && CellShrunk(r1.heap[q], r2.heap[q]);
    }
    forall i, j | 0 <= i < |r1.freed| && 0 <= j < |r2.freed|
      ensures r1.freed[i] != r2.freed[j]
    {
      assert r1.freed[i] in r1.freed && r2.freed[j] in r2.freed;
    }
  }

  /** Taking one reference away from a cell, on both sides of the invariant. */
  lemma RecountedCounted(h: Heap, p: Ptr, handles: multiset<Ptr>, skip: int)
    requires Counted(h, handles + multiset{p}, skip) && Count(h, p) > 1
    ensures Counted(Recounted(h, p, h[p].count - 1), handles, skip)
  {
    var h1 := Recounted(h, p, h[p].count - 1);
    assert Kids(h1[p]) == Kids(h[p]);
    forall q: Ptr
      ensures Count(h1, q) == handles[q] + Slots(h1, skip, q)
    {
      SlotsUpdate(h, p, h1[p], skip, q);
      assert Count(h, q) == (handles + multiset{p})[q] + Slots(h, skip, q);
    }
  }

  /** Taking the last reference away hands the slots of the cell to whoever frees it. */
  lemma EmptiedCounted(h: Heap, p: Ptr, handles: multiset<Ptr>, skip: int)
    requires Counted(h, handles + multiset{p}, skip) && Count(h, p) == 1 && p != skip
    ensures Counted(Recounted(h, p, 0), handles + multiset(Kids(h[p])), skip)
  {
    var h1, more: multiset<Ptr> := Recounted(h, p, 0), handles + multiset(Kids(h[p]));
    forall q: Ptr
      ensures Count(h1, q) == more[q] + Slots(h1, skip, q)
    {
      SlotsUpdate(h, p, h1[p], skip, q);
      assert Count(h, q) == (handles + multiset{p})[q] + Slots(h, skip, q);
    }
  }

  // ---- Ways through the heap ----

  /** A way from a handle down the slots to `path`'s last cell. */
  ghost predicate IsPath(h: Heap, handles: multiset<Ptr>, path: seq<Ptr>) {
    && path != [] && path[0] in handles
    && (forall i :: 0 <= i < |path| ==> path[i] < |h|)
    && (forall i :: 0 < i < |path| ==> Edge(h, path[i - 1], path[i]))
  }

  ghost predicate Reachable(h: Heap, handles: multiset<Ptr>, p: Ptr) {
    exists path :: IsPath(h, handles, path) && path[|path| - 1] == p
  }

  /** A way that uses none of `m`'s own slots. */
  ghost predicate IsPathPast(h: Heap, handles: multiset<Ptr>, path: seq<Ptr>, m: int) {
    IsPath(h, handles, path) && forall i :: 0 <= i < |path| - 1 ==> path[i] != m
  }

  /** The cell left out of the slot count, if any, is reached without its own slots. */
  ghost predicate Reached(h: Heap, handles: multiset<Ptr>, m: int) {
    m >= 0 ==> exists path :: IsPathPast(h, handles, path, m) && path[|path| - 1] == m
  }

  /** Whatever way leads to a cell, its beginning up to the first visit uses none of the cell's slots. */
  lemma {:induction false} FirstVisit(h: Heap, handles: multiset<Ptr>, path: seq<Ptr>, m: Ptr)
    requires IsPath(h, handles, path) && path[|path| - 1] == m
    ensures Reached(h, handles, m)
    decreases |path|
  {
    if i :| 0 <= i < |path| - 1 && path[i] == m {
      FirstVisit(h, handles, path[..i + 1], m);
    } else {
      assert IsPathPast(h, handles, path, m);
    }
  }

  lemma ReachableIsReached(h: Heap, handles: multiset<Ptr>, all: multiset<Ptr>, m: Ptr)
    requires Reachable(h, handles, m) && handles <= all
    ensures Reached(h, all, m)
  {
    var path :| IsPath(h, handles, path) && path[|path| - 1] == m;
    assert IsPath(h, all, path);
    FirstVisit(h, all, path, m);
  }

  lemma {:induction false} SlotCounts(h: Heap, owner: Ptr, p: Ptr, skip: int)
    requires Edge(h, owner, p) && owner != skip
    ensures Slots(h, skip, p) > 0
  {
    if owner < |h| - 1 {
      SlotCounts(h[..|h| - 1], owner, p, skip);
    }
  }

  /** What some handles reached before a release is alive after it, and reached in the same way. */
  lemma {:induction false} PathSurvives(h: Heap, h': Heap, handles: multiset<Ptr>, all: multiset<Ptr>,
                                        path: seq<Ptr>, skip: int)
    requires Counted(h', all, skip) && handles <= all && Shrunk(h, h') && IsPathPast(h, handles, path, skip)
    ensures Count(h', path[|path| - 1]) > 0 && IsPathPast(h', handles, path, skip)
  {
    var last := path[|path| - 1];
    assert Count(h', last) == all[last] + Slots(h', skip, last);
    if |path| > 1 {
      var before := path[..|path| - 1];
      PathSurvives(h, h', handles, all, before, skip);
      var owner := before[|before| - 1];
      assert CellShrunk(h[owner], h'[owner]);
      assert Edge(h, path[|path| - 1 - 1], path[|path| - 1]);
      SlotCounts(h', owner, last, skip);
      forall i | 0 < i < |path|
        ensures Edge(h', path[i - 1], path[i])
      {
        assert i < |before| ==> Edge(h', before[i - 1], before[i]);
      }
    }
  }

  lemma ReachedAfter(h: Heap, h': Heap, handles: multiset<Ptr>, all: multiset<Ptr>, skip: int)
    requires Counted(h', all, skip) && handles <= all && Shrunk(h, h') && Reached(h, handles, skip)
    ensures Reached(h', handles, skip) && (skip >= 0 ==> Count(h', skip) > 0)
  {
    if skip >= 0 {
      var path :| IsPathPast(h, handles, path, skip) && path[|path| - 1] == skip;
      PathSurvives(h, h', handles, all, path, skip);
    }
  }

  lemma ReachedMore(h: Heap, handles: multiset<Ptr>, all: multiset<Ptr>, skip: int)
    requires handles <= all && Reached(h, handles, skip)
    ensures Reached(h, all, skip)
  {
    if skip >= 0 {
      var path :| IsPathPast(h, handles, path, skip) && path[|path| - 1] == skip;
      assert IsPathPast(h, all, path, skip);
    }
  }

  /** A way to another cell does not go through one whose only reference is given up. */
  lemma LastReferenceIsOff(h: Heap, p: Ptr, handles: multiset<Ptr>, skip: int)
    requires Counted(h, handles + multiset{p}, skip) && Reached(h, handles, skip) && Count(h, p) == 1
    ensures p != skip && Reached(Recounted(h, p, 0), handles, skip)
  {
    assert Count(h, p) == (handles + multiset{p})[p] + Slots(h, skip, p);
    if skip >= 0 {
      var path :| IsPathPast(h, handles, path, skip) && path[|path| - 1] == skip;
      forall i | 0 <= i < |path|
        ensures path[i] != p
      {
        if i > 0 && path[i] == p {
          SlotCounts(h, path[i - 1], path[i], skip);
        }
      }
      assert IsPathPast(Recounted(h, p, 0), handles, path, skip);
    }
  }

  // ---- Releases keep the counting invariant ----

  /** Releasing one reference that the caller owns keeps the invariant without it. */
  lemma {:induction false} UnrefOk(h: Heap, p: Ptr, handles: multiset<Ptr>, skip: int)
    requires Counted(h, handles + multiset{p}, skip) && Reached(h, handles, skip)
    ensures ReleaseOk(h, Unref(h, p), handles, skip)
    decreases Total(h), 0
  {
    assert Count(h, p) == (handles + multiset{p})[p] + Slots(h, skip, p);
    if h[p].count > 1 {
      RecountedCounted(h, p, handles, skip);
    } else {
      LastReferenceIsOff(h, p, handles, skip);
      EmptiedCounted(h, p, handles, skip);
      TotalUpdate(h, p, Live(0, h[p].body));
      UnrefAllOk(Recounted(h, p, 0), Kids(h[p]), handles, skip);
      FreeCellOk(h, p, UnrefAll(Recounted(h, p, 0), Kids(h[p])), handles, skip);
    }
  }

  /** The last step of a release: the emptied cell itself goes. */
  lemma FreeCellOk(h: Heap, p: Ptr, r: Released, handles: multiset<Ptr>, skip: int)
    requires p < |h| && h[p].Live? && h[p].count == 1
    requires ReleaseOk(Recounted(h, p, 0), r, handles, skip)
    ensures ReleaseOk(h, Released(r.heap[p := Freed], r.freed + [p], r.sound), handles, skip)
  {
    var h1, h2 := Recounted(h, p, 0), r.heap[p := Freed];
    assert CellShrunk(h1[p], r.heap[p]);
    FreedCounted(r.heap, p, handles, skip);
    forall q | 0 <= q < |h|
      ensures CellShrunk(h[q], h2[q])
    {
      assert CellShrunk(h1[q], r.heap[q]);
    }
    FreedListed(h, h1, p, r);
  }

  /** Freeing a cell whose count is zero takes nothing out of the counts. */
  lemma FreedCounted(h: Heap, p: Ptr, handles: multiset<Ptr>, skip: int)
    requires Counted(h, handles, skip) && p < |h| && CellCount(h[p]) == 0
    ensures Counted(h[p := Freed], handles, skip)
  {
    var h1 := h[p := Freed];
    assert Kids(h[p]) == Kids(Freed);
    forall q: Ptr
      ensures Count(h1, q) == handles[q] + Slots(h1, skip, q)
    {
      SlotsUpdate(h, p, Freed, skip, q);
      assert Count(h, q) == handles[q] + Slots(h, skip, q);
    }
  }

  lemma FreedListed(h: Heap, h1: Heap, p: Ptr, r: Released)
    requires p < |h| && h[p].Live? && h1 == Recounted(h, p, 0) && FreedOnce(h1, r) && r.heap[p] == h1[p]
    ensures FreedOnce(h, Released(r.heap[p := Freed], r.freed + [p], r.sound))
  {
    assert p !in r.freed;
    forall i | 0 <= i < |r.freed|
      ensures r.freed[i] != p
    {
      assert r.freed[i] in r.freed;
    }
  }

  lemma {:induction false} UnrefAllOk(h: Heap, ps: seq<Ptr>, handles: multiset<Ptr>, skip: int)
    requires Counted(h, handles + multiset(ps), skip) && Reached(h, handles, skip)
    ensures ReleaseOk(h, UnrefAll(h, ps), handles, skip)
    decreases Total(h), 1 + |ps|
  {
    if ps == [] {
      assert handles + multiset(ps) == handles;
    } else {
      assert ps == [ps[0]] + ps[1..];
      var others := handles + multiset(ps[1..]);
      assert handles + multiset(ps) == others + multiset{ps[0]};
      var r1 := Unref(h, ps[0]);
      ReachedMore(h, handles, others, skip);
      UnrefOk(h, ps[0], others, skip);
      ReachedAfter(h, r1.heap, handles, others, skip);
      UnrefAllOk(r1.heap, ps[1..], handles, skip);
      ReleaseOkTrans(h, r1, UnrefAll(r1.heap, ps[1..]), others, handles, skip);
    }
  }

  // ---- Dropping a handle frees exactly what is no longer reachable ----

  /** Outside a release no cell is half freed. */
  ghost predicate NoZombies(h: Heap) {
    forall q :: 0 <= q < |h| && h[q].Live? ==> h[q].count > 0
  }

  /** A witness that the graph has no cycle: ranks fall along every slot. */
  ghost predicate Ranked(h: Heap, rank: seq<nat>) {
    && |rank| == |h|
    && forall q: Ptr, k: Ptr :: Edge(h, q, k) ==> k < |h| && rank[k] < rank[q]
  }

  lemma LongerPath(h: Heap, handles: multiset<Ptr>, path: seq<Ptr>, p: Ptr)
    requires IsPath(h, handles, path) && p < |h| && Edge(h, path[|path| - 1], p)
    ensures Reachable(h, handles, p)
  {
    var longer := path + [p];
    assert forall i :: 0 <= i < |path| ==> longer[i] == path[i];
    forall i | 0 < i < |longer|
      ensures Edge(h, longer[i - 1], longer[i])
    {
      assert i < |path| ==> Edge(h, path[i - 1], path[i]);
    }
    assert IsPath(h, handles, longer) && longer[|longer| - 1] == p;
  }

  /** In an acyclic heap whatever has a count can be reached: climb owners until a handle. */
  lemma {:induction false} CountedIsReachable(h: Heap, handles: multiset<Ptr>, rank: seq<nat>, bound: nat, p: Ptr)
    requires Counted(h, handles, -1) && Ranked(h, rank) && Count(h, p) > 0
    requires forall q :: 0 <= q < |rank| ==> rank[q] < bound
    ensures Reachable(h, handles, p)
    decreases bound - rank[p]
  {
    if p in handles {
      assert IsPath(h, handles, [p]) && [p][0] == p;
    } else {
      assert Count(h, p) == handles[p] + Slots(h, -1, p);
      var owner := SlotHasOwner(h, p);
      assert CellCount(h[owner]) > 0;
      CountedIsReachable(h, handles, rank, bound, owner);
      var path :| IsPath(h, handles, path) && path[|path| - 1] == owner;
      LongerPath(h, handles, path, p);
    }
  }

  lemma EdgeWasThere(h: Heap, h': Heap, owner: Ptr, kid: Ptr)
    requires Shrunk(h, h') && Edge(h', owner, kid)
    ensures Edge(h, owner, kid)
  {
    assert CellShrunk(h[owner], h'[owner]);
  }

  lemma ShrunkStaysRanked(h: Heap, h': Heap, rank: seq<nat>)
    requires Shrunk(h, h') && Ranked(h, rank)
    ensures Ranked(h', rank)
  {
    forall q: Ptr, k: Ptr | Edge(h', q, k)
      ensures k < |h'| && rank[k] < rank[q]
    {
      EdgeWasThere(h, h', q, k);
    }
  }

  function Highest(rank: seq<nat>): (bound: nat)
    ensures forall q :: 0 <= q < |rank| ==> rank[q] < bound
  {
    if rank == [] then 0
    else
      var rest := Highest(rank[..|rank| - 1]);
      if rest > rank[|rank| - 1] then rest else rank[|rank| - 1] + 1
  }

  /** Main result 1: in an acyclic heap, dropping a handle never follows a dangling pointer,
      leaves alive exactly the cells that the other handles reach, frees every other one once,
      and changes no body. */
  lemma DropFreesExactlyTheUnreachable(h: Heap, p: Ptr, handles: multiset<Ptr>, rank: seq<nat>)
    requires Counted(h, handles + multiset{p}, -1) && NoZombies(h) && Ranked(h, rank)
    ensures
      var r := Unref(h, p);
      && r.sound && FreedOnce(h, r) && Shrunk(h, r.heap)
      && Counted(r.heap, handles, -1) && NoZombies(r.heap) && Ranked(r.heap, rank)
      && forall q: Ptr :: q < |h| ==> (r.heap[q].Live? <==> Reachable(h, handles, q))
  {
    var h' := Unref(h, p).heap;
    UnrefOk(h, p, handles, -1);
    ShrunkStaysRanked(h, h', rank);
    ShrunkNoZombies(h, h');
    forall q: Ptr | q < |h|
      ensures h'[q].Live? <==> Reachable(h, handles, q)
    {
      if h'[q].Live? {
        CountedIsReachable(h', handles, rank, Highest(rank), q);
        var path :| IsPath(h', handles, path) && path[|path| - 1] == q;
        PathWasThere(h, h', handles, path);
      }
      if Reachable(h, handles, q) {
        var path :| IsPath(h, handles, path) && path[|path| - 1] == q;
        PathSurvives(h, h', handles, handles, path, -1);
      }
    }
  }

  lemma ShrunkNoZombies(h: Heap, h': Heap)
    requires Shrunk(h, h') && NoZombies(h)
    ensures NoZombies(h')
  {
    forall q | 0 <= q < |h'| && h'[q].Live?
      ensures h'[q].count > 0
    {
      assert CellShrunk(h[q], h'[q]);
    }
  }

  lemma PathWasThere(h: Heap, h': Heap, handles: multiset<Ptr>, path: seq<Ptr>)
    requires Shrunk(h, h') && IsPath(h', handles, path)
    ensures IsPath(h, handles, path)
  {
    forall i | 0 < i < |path|
      ensures Edge(h, path[i - 1], path[i])
    {
      EdgeWasThere(h, h', path[i - 1], path[i]);
    }
  }

  // ---- The operations callers use ----

  function Rebodied(h: Heap, p: Ptr, body: Body): Heap
    requires p < |h| && h[p].Live?
  {
    h[p := Live(h[p].count, body)]
  }

  predicate IsLive(h: Heap, p: Ptr) {
    p < |h| && h[p].Live?
  }

  function Ref(h: Heap, p: Ptr): Heap
    requires IsLive(h, p)
  {
    Recounted(h, p, h[p].count + 1)
  }

  /** The constructors: a new cell with one reference, its own handle. */
  function Alloc(h: Heap, body: Body): Heap {
    h + [Live(1, body)]
  }

  /** `webview_value_append`: nothing happens to a receiver that is not a list. */
  function Append(h: Heap, list: Ptr, value: Ptr): Heap
    requires IsLive(h, list) && IsLive(h, value)
  {
    if !h[list].body.List? then h
    else
      var h1 := Ref(h, value);
      Rebodied(h1, list, List(h1[list].body.items + [value]))
  }

  predicate IsMap(h: Heap, m: Ptr) {
    IsLive(h, m) && h[m].body.Map?
  }

  predicate IsEntry(h: Heap, m: Ptr, i: nat) {
    IsMap(h, m) && i < |h[m].body.keys| && i < |h[m].body.values|
  }

  /** `webview_value_set_take` with the outcome of its key search: it takes over one reference
      to the key and one to the value.  An equal key is released before its slot is
      overwritten, then the value likewise. */
  function SetTake(h: Heap, m: Ptr, key: Ptr, value: Ptr, index: Option<nat>): Released
    requires IsMap(h, m) && (index.Some? ==> IsEntry(h, m, index.value))
  {
    var keys, values := h[m].body.keys, h[m].body.values;
    match index
    case None => Released(Rebodied(h, m, Map(keys + [key], values + [value])), [], true)
    case Some(i) =>
      var r1 := Unref(h, keys[i]);
      if !IsEntry(r1.heap, m, i) then r1.(sound := false)
      else
        var r2 := Unref(Rebodied(r1.heap, m, Map(r1.heap[m].body.keys[i := key], r1.heap[m].body.values)),
                        r1.heap[m].body.values[i]);
        if !IsEntry(r2.heap, m, i) then Released(r2.heap, r1.freed + r2.freed, false)
        else Released(Rebodied(r2.heap, m, Map(r2.heap[m].body.keys, r2.heap[m].body.values[i := value])),
                      r1.freed + r2.freed, r1.sound && r2.sound)
  }

  /** `webview_value_set`: both references are taken before anything is released. */
  function Set(h: Heap, m: Ptr, key: Ptr, value: Ptr, index: Option<nat>): Released
    requires IsMap(h, m) && IsLive(h, key) && IsLive(h, value)
    requires index.Some? ==> IsEntry(h, m, index.value)
  {
    SetTake(Ref(Ref(h, key), value), m, key, value, index)
  }

  /** `webview_value_set_string`: the key is a new value that nobody else holds. */
  function SetString(h: Heap, m: Ptr, key: string, value: Ptr, index: Option<nat>): Released
    requires IsMap(h, m) && IsLive(h, value) && (index.Some? ==> IsEntry(h, m, index.value))
  {
    SetTake(Ref(Alloc(h, Atom(Text(key))), value), m, |h|, value, index)
  }

  // ---- They keep the counting invariant ----

  lemma HandleIsLive(h: Heap, handles: multiset<Ptr>, skip: int, p: Ptr)
    requires Counted(h, handles, skip) && p in handles
    ensures Count(h, p) > 0
  {
    assert Count(h, p) == handles[p] + Slots(h, skip, p);
  }

  lemma HandleReaches(h: Heap, handles: multiset<Ptr>, p: Ptr)
    requires p in handles && p < |h|
    ensures Reachable(h, handles, p)
  {
    assert IsPath(h, handles, [p]) && [p][0] == p;
  }

  lemma RefOk(h: Heap, p: Ptr, handles: multiset<Ptr>, skip: int)
    requires Counted(h, handles, skip) && Count(h, p) > 0
    ensures Counted(Ref(h, p), handles + multiset{p}, skip)
  {
    var h1, more := Ref(h, p), handles + multiset{p};
    assert Kids(h1[p]) == Kids(h[p]);
    forall q: Ptr
      ensures Count(h1, q) == more[q] + Slots(h1, skip, q)
    {
      SlotsUpdate(h, p, h1[p], skip, q);
      assert Count(h, q) == handles[q] + Slots(h, skip, q);
    }
  }

  lemma AllocOk(h: Heap, body: Body, handles: multiset<Ptr>)
    requires Counted(h, handles, -1) && Kids(Live(1, body)) == []
    ensures Counted(Alloc(h, body), handles + multiset{|h|}, -1)
  {
    var h1, more := Alloc(h, body), handles + multiset{|h|};
    assert h1[..|h|] == h;
    forall q: Ptr
      ensures Count(h1, q) == more[q] + Slots(h1, -1, q)
    {
      assert Count(h, q) == handles[q] + Slots(h, -1, q);
    }
  }

  /** Changing the slots of a live cell is paid for with handles: the references in its new
      slots must have been handles, and those in its old slots become handles. */
  lemma RebodyOk(h: Heap, p: Ptr, body: Body, before: multiset<Ptr>, after: multiset<Ptr>)
    requires Counted(h, before, -1) && Count(h, p) > 0
    requires before + multiset(Kids(h[p])) == after + multiset(Kids(Live(1, body)))
    ensures Counted(Rebodied(h, p, body), after, -1)
  {
    var h1 := Rebodied(h, p, body);
    assert Kids(h1[p]) == Kids(Live(1, body));
    var oldSlots, newSlots := multiset(Kids(h[p])), multiset(Kids(h1[p]));
    forall q: Ptr
      ensures Count(h1, q) == after[q] + Slots(h1, -1, q)
    {
      SlotsUpdate(h, p, h1[p], -1, q);
      assert Count(h, q) == before[q] + Slots(h, -1, q);
      assert (before + oldSlots)[q] == (after + newSlots)[q];
    }
  }

  /** While a cell is left out of the slot count its slots count as handles, and its body
      may be changed freely. */
  lemma OpenCell(h: Heap, m: Ptr, handles: multiset<Ptr>)
    requires m < |h|
    ensures Counted(h, handles, -1) <==> Counted(h, handles + multiset(Kids(h[m])), m)
  {
    var more := handles + multiset(Kids(h[m]));
    forall q: Ptr
      ensures Count(h, q) == handles[q] + Slots(h, -1, q) <==> Count(h, q) == more[q] + Slots(h, m, q)
    {
      SlotsOpen(h, m, q);
    }
  }

  lemma RebodyOpen(h: Heap, m: Ptr, body: Body, handles: multiset<Ptr>)
    requires m < |h| && h[m].Live? && Counted(h, handles, m)
    ensures Counted(Rebodied(h, m, body), handles, m)
  {
    var h1 := Rebodied(h, m, body);
    forall q: Ptr
      ensures Count(h1, q) == handles[q] + Slots(h1, m, q)
    {
      SlotsUpdate(h, m, h1[m], m, q);
      assert Count(h, q) == handles[q] + Slots(h, m, q);
    }
  }

  lemma AppendOk(h: Heap, list: Ptr, value: Ptr, handles: multiset<Ptr>)
    requires Counted(h, handles, -1) && Count(h, list) > 0 && Count(h, value) > 0
    ensures Counted(Append(h, list, value), handles, -1)
  {
    if h[list].body.List? {
      var h1 := Ref(h, value);
      RefOk(h, value, handles, -1);
      var items := h1[list].body.items;
      assert multiset(items + [value]) == multiset(items) + multiset{value};
      RebodyOk(h1, list, List(items + [value]), handles + multiset{value}, handles);
    }
  }

  /** As Shrunk, except that one cell may have another body. */
  ghost predicate ShrunkBut(h: Heap, h': Heap, m: Ptr) {
    |h'| == |h| && forall q :: 0 <= q < |h| && q != m ==> CellShrunk(h[q], h'[q])
  }

  lemma ReplacedSlots(keys: seq<Ptr>, values: seq<Ptr>, i: nat, key: Ptr, value: Ptr)
    requires i < |keys| && i < |values|
    ensures
      multiset(keys + values) + multiset{key, value}
      == multiset(keys[i := key] + values[i := value]) + multiset{keys[i], values[i]}
  {
    assert keys == keys[..i] + ([keys[i]] + keys[i + 1..]);
    assert keys[i := key] == keys[..i] + ([key] + keys[i + 1..]);
    assert values == values[..i] + ([values[i]] + values[i + 1..]);
    assert values[i := value] == values[..i] + ([value] + values[i + 1..]);
  }

  /** What a replacement did, as far as callers can see. */
  ghost predicate Replaced(h: Heap, r: Released, m: Ptr, body: Body) {
    && r.sound && ShrunkBut(h, r.heap, m) && FreedOnce(h, r)
    && m < |h| && h[m].Live? && r.heap[m].Live? && 0 < r.heap[m].count <= h[m].count
    && r.heap[m].body == body
  }

  /** Two releases on either side of a change to one cell that survives both. */
  lemma TwoReleases(h: Heap, r1: Released, r2: Released, m: Ptr, body2: Body, body4: Body)
    requires m < |h| && r1.sound && Shrunk(h, r1.heap) && FreedOnce(h, r1)
    requires r1.heap[m].Live?
    requires r2.sound && Shrunk(Rebodied(r1.heap, m, body2), r2.heap) && FreedOnce(Rebodied(r1.heap, m, body2), r2)
    requires r2.heap[m].Live? && r2.heap[m].count > 0
    ensures Replaced(h, Released(Rebodied(r2.heap, m, body4), r1.freed + r2.freed, true), m, body4)
  {
    var h2, h4 := Rebodied(r1.heap, m, body2), Rebodied(r2.heap, m, body4);
    forall q | 0 <= q < |h|
      ensures q != m ==> CellShrunk(h[q], h4[q])
      ensures q in r1.freed + r2.freed <==> h[q].Live? && h4[q].Freed?
    {
      assert CellShrunk(h[q], r1.heap[q]) && CellShrunk(h2[q], r2.heap[q]);
    }
    assert CellShrunk(h[m], r1.heap[m]) && CellShrunk(h2[m], r2.heap[m]);
    forall i, j | 0 <= i < |r1.freed| && 0 <= j < |r2.freed|
      ensures r1.freed[i] != r2.freed[j]
    {
      assert r1.freed[i] in r1.freed && r2.freed[j] in r2.freed;
    }
  }

  lemma RebodiedReached(h: Heap, m: Ptr, body: Body, roots: multiset<Ptr>)
    requires Reached(h, roots, m) && IsLive(h, m)
    ensures Reached(Rebodied(h, m, body), roots, m)
  {
    var path :| IsPathPast(h, roots, path, m) && path[|path| - 1] == m;
    assert IsPathPast(Rebodied(h, m, body), roots, path, m);
  }

  /** Releasing what stood in a slot of an opened cell, then writing the slot. */
  lemma ReleaseThenWrite(h: Heap, m: Ptr, p: Ptr, body: Body, held: multiset<Ptr>, roots: multiset<Ptr>)
    requires Counted(h, held + multiset{p}, m) && roots <= held && Reached(h, roots, m) && m < |h|
    ensures
      var r := Unref(h, p);
      && ReleaseOk(h, r, held, m)
      && h[m].Live? && r.heap[m].Live? && r.heap[m].count > 0 && r.heap[m].body == h[m].body
      && Counted(Rebodied(r.heap, m, body), held, m) && Reached(Rebodied(r.heap, m, body), roots, m)
  {
    var r := Unref(h, p);
    ReachedMore(h, roots, held, m);
    UnrefOk(h, p, held, m);
    ReachedAfter(h, r.heap, roots, held, m);
    assert CellShrunk(h[m], r.heap[m]);
    RebodyOpen(r.heap, m, body, held);
    RebodiedReached(r.heap, m, body, roots);
  }

  /** The two steps of a replacement when the map survives both. */
  lemma SetTakeOverIs(h: Heap, m: Ptr, key: Ptr, value: Ptr, i: nat, r1: Released,
                      r2: Released, body2: Body, body4: Body)
    requires IsEntry(h, m, i)
    requires body2 == Map(h[m].body.keys[i := key], h[m].body.values)
    requires body4 == Map(h[m].body.keys[i := key], h[m].body.values[i := value])
    requires r1 == Unref(h, h[m].body.keys[i]) && r1.sound && IsLive(r1.heap, m) && r1.heap[m].body == h[m].body
    requires r2 == Unref(Rebodied(r1.heap, m, body2), h[m].body.values[i])
    requires r2.sound && IsLive(r2.heap, m) && r2.heap[m].body == body2
    ensures SetTake(h, m, key, value, Some(i)) == Released(Rebodied(r2.heap, m, body4), r1.freed + r2.freed, true)
  {
  }

  /** The handles that stand for a map's slots while it is open, before and after. */
  lemma OpenForReplacement(h: Heap, m: Ptr, key: Ptr, value: Ptr, i: nat, handles: multiset<Ptr>, held: multiset<Ptr>)
    requires Counted(h, handles + multiset{key, value}, -1) && IsEntry(h, m, i) && h[m].count > 0
    requires held == handles + multiset(h[m].body.keys[i := key] + h[m].body.values[i := value])
    ensures Counted(h, held + multiset{h[m].body.values[i]} + multiset{h[m].body.keys[i]}, m)
  {
    var keys, values := h[m].body.keys, h[m].body.values;
    OpenCell(h, m, handles + multiset{key, value});
    ReplacedSlots(keys, values, i, key, value);
    SlotsSwapped(handles, multiset(keys + values), multiset(keys[i := key] + values[i := value]),
                 key, value, keys[i], values[i]);
  }

  lemma SlotsSwapped(handles: multiset<Ptr>, slots: multiset<Ptr>, slots': multiset<Ptr>,
                     key: Ptr, value: Ptr, oldKey: Ptr, oldValue: Ptr)
    requires slots + multiset{key, value} == slots' + multiset{oldKey, oldValue}
    ensures handles + multiset{key, value} + slots == handles + slots' + multiset{oldValue} + multiset{oldKey}
  {
    assert handles + multiset{key, value} + slots == handles + (slots + multiset{key, value});
  }

  /** Both slots released and written while the map is open. */
  lemma BothSlotsWritten(h: Heap, m: Ptr, i: nat, body2: Body, body4: Body, held: multiset<Ptr>)
    requires IsEntry(h, m, i) && Reached(h, held, m)
    requires Counted(h, held + multiset{h[m].body.values[i]} + multiset{h[m].body.keys[i]}, m)
    ensures
      var r1 := Unref(h, h[m].body.keys[i]);
      && r1.sound && Shrunk(h, r1.heap) && FreedOnce(h, r1)
      && IsLive(r1.heap, m) && r1.heap[m].body == h[m].body
      && var h2 := Rebodied(r1.heap, m, body2);
         var r2 := Unref(h2, h[m].body.values[i]);
         && r2.sound && Shrunk(h2, r2.heap) && FreedOnce(h2, r2)
         && Count(r2.heap, m) > 0 && r2.heap[m].body == body2
         && Counted(Rebodied(r2.heap, m, body4), held, m)
  {
    var keys, values := h[m].body.keys, h[m].body.values;
    ReleaseThenWrite(h, m, keys[i], body2, held + multiset{values[i]}, held);
    ReleaseThenWrite(Rebodied(Unref(h, keys[i]).heap, m, body2), m, values[i], body4, held, held);
  }

  /** While the map is open, the new slots hold all that was handed over, so they reach the map. */
  lemma HandedOverReaches(h: Heap, m: Ptr, key: Ptr, value: Ptr, i: nat, handles: multiset<Ptr>, held: multiset<Ptr>)
    requires Reachable(h, handles + multiset{key, value}, m) && IsEntry(h, m, i)
    requires held == handles + multiset(h[m].body.keys[i := key] + h[m].body.values[i := value])
    ensures Reached(h, held, m)
  {
    var keys, values := h[m].body.keys[i := key], h[m].body.values[i := value];
    assert keys[i] in multiset(keys) && values[i] in multiset(values);
    assert multiset(keys + values) == multiset(keys) + multiset(values);
    ReachableIsReached(h, handles + multiset{key, value}, held, m);
  }

  lemma ReachableIsLive(h: Heap, handles: multiset<Ptr>, m: Ptr)
    requires Counted(h, handles, -1) && Reachable(h, handles, m)
    ensures Count(h, m) > 0
  {
    var path :| IsPath(h, handles, path) && path[|path| - 1] == m;
    PathSurvives(h, h, handles, handles, path, -1);
  }

  /** So both slots can be released and written, and the map is still there after each. */
  lemma EntryWritten(h: Heap, m: Ptr, key: Ptr, value: Ptr, i: nat, handles: multiset<Ptr>, body2: Body, body4: Body)
    requires Counted(h, handles + multiset{key, value}, -1) && IsEntry(h, m, i)
    requires Reachable(h, handles + multiset{key, value}, m)
    requires body2 == Map(h[m].body.keys[i := key], h[m].body.values)
    requires body4 == Map(h[m].body.keys[i := key], h[m].body.values[i := value])
    ensures
      var r1 := Unref(h, h[m].body.keys[i]);
      && r1.sound && Shrunk(h, r1.heap) && FreedOnce(h, r1)
      && IsLive(r1.heap, m) && r1.heap[m].body == h[m].body
      && var h2 := Rebodied(r1.heap, m, body2);
         var r2 := Unref(h2, h[m].body.values[i]);
         && r2.sound && Shrunk(h2, r2.heap) && FreedOnce(h2, r2)
         && Count(r2.heap, m) > 0 && r2.heap[m].body == body2
         && Counted(Rebodied(r2.heap, m, body4), handles, -1)
  {
    var held: multiset<Ptr> := handles + multiset(Kids(Live(1, body4)));
    ReachableIsLive(h, handles + multiset{key, value}, m);
    OpenForReplacement(h, m, key, value, i, handles, held);
    HandedOverReaches(h, m, key, value, i, handles, held);
    BothSlotsWritten(h, m, i, body2, body4, held);
    var r1 := Unref(h, h[m].body.keys[i]);
    CloseCell(Unref(Rebodied(r1.heap, m, body2), h[m].body.values[i]).heap, m, body4, handles, held);
  }

  /** `set_take` over an equal key.  The map itself survives because something other than its own slots
      leads to it; the new key and value survive because they are counted even if they are the old ones. */
  lemma SetTakeOverOk(h: Heap, m: Ptr, key: Ptr, value: Ptr, i: nat, handles: multiset<Ptr>)
    requires Counted(h, handles + multiset{key, value}, -1) && IsEntry(h, m, i)
    requires Reachable(h, handles + multiset{key, value}, m)
    ensures Counted(SetTake(h, m, key, value, Some(i)).heap, handles, -1)
    ensures Replaced(h, SetTake(h, m, key, value, Some(i)), m,
                     Map(h[m].body.keys[i := key], h[m].body.values[i := value]))
  {
    var keys, values := h[m].body.keys, h[m].body.values;
    var body2, body4 := Map(keys[i := key], values), Map(keys[i := key], values[i := value]);
    EntryWritten(h, m, key, value, i, handles, body2, body4);
    var r1 := Unref(h, keys[i]);
    var r2 := Unref(Rebodied(r1.heap, m, body2), values[i]);
    TwoReleases(h, r1, r2, m, body2, body4);
    SetTakeOverIs(h, m, key, value, i, r1, r2, body2, body4);
  }

  lemma CloseCell(h: Heap, m: Ptr, body: Body, handles: multiset<Ptr>, held: multiset<Ptr>)
    requires Count(h, m) > 0 && Counted(Rebodied(h, m, body), held, m)
    requires held == handles + multiset(Kids(Live(1, body)))
    ensures Counted(Rebodied(h, m, body), handles, -1)
  {
    OpenCell(Rebodied(h, m, body), m, handles);
  }

  /** `set_take` of a new key: the references taken over become the new slots. */
  lemma SetTakeNewOk(h: Heap, m: Ptr, key: Ptr, value: Ptr, handles: multiset<Ptr>)
    requires Counted(h, handles + multiset{key, value}, -1) && IsMap(h, m) && Count(h, m) > 0
    ensures Counted(Rebodied(h, m, Map(h[m].body.keys + [key], h[m].body.values + [value])), handles, -1)
  {
    var keys, values := h[m].body.keys, h[m].body.values;
    assert multiset((keys + [key]) + (values + [value])) == multiset(keys + values) + multiset{key, value};
    RebodyOk(h, m, Map(keys + [key], values + [value]), handles + multiset{key, value}, handles);
  }

  lemma SetTakeOk(h: Heap, m: Ptr, key: Ptr, value: Ptr, index: Option<nat>, handles: multiset<Ptr>)
    requires Counted(h, handles + multiset{key, value}, -1) && Reachable(h, handles + multiset{key, value}, m)
    requires IsMap(h, m) && |h[m].body.keys| == |h[m].body.values|
    requires index.Some? ==> IsEntry(h, m, index.value)
    ensures Counted(SetTake(h, m, key, value, index).heap, handles, -1)
    ensures
      var keys, values := h[m].body.keys, h[m].body.values;
      Replaced(h, SetTake(h, m, key, value, index), m,
               if index.None? then Map(keys + [key], values + [value])
               else Map(keys[index.value := key], values[index.value := value]))
  {
    ReachableIsLive(h, handles + multiset{key, value}, m);
    match index
    case None =>
      SetTakeNewOk(h, m, key, value, handles);
    case Some(i) =>
      SetTakeOverOk(h, m, key, value, i, handles);
  }

  /** No slot is lost from one heap to the next. */
  ghost predicate EdgesKept(h: Heap, h': Heap) {
    |h| <= |h'| && forall q: Ptr, k: Ptr :: Edge(h, q, k) ==> Edge(h', q, k)
  }

  lemma ReachableStays(h: Heap, h': Heap, handles: multiset<Ptr>, all: multiset<Ptr>, m: Ptr)
    requires EdgesKept(h, h') && handles <= all && Reachable(h, handles, m)
    ensures Reachable(h', all, m)
  {
    var path :| IsPath(h, handles, path) && path[|path| - 1] == m;
    assert IsPath(h', all, path);
  }

  lemma RefKeepsEdges(h: Heap, p: Ptr)
    requires Count(h, p) > 0
    ensures EdgesKept(h, Ref(h, p))
  {
    assert Kids(Ref(h, p)[p]) == Kids(h[p]);
  }

  lemma RefReaches(h: Heap, p: Ptr, handles: multiset<Ptr>, m: Ptr)
    requires Reachable(h, handles, m) && Count(h, p) > 0
    ensures Reachable(Ref(h, p), handles + multiset{p}, m)
  {
    RefKeepsEdges(h, p);
    ReachableStays(h, Ref(h, p), handles, handles + multiset{p}, m);
  }

  lemma BothRefsReach(h: Heap, key: Ptr, value: Ptr, handles: multiset<Ptr>, m: Ptr)
    requires Reachable(h, handles, m) && Count(h, key) > 0 && Count(h, value) > 0
    ensures Reachable(Ref(Ref(h, key), value), handles + multiset{key, value}, m)
  {
    RefReaches(h, key, handles, m);
    RefReaches(Ref(h, key), value, handles + multiset{key}, m);
    assert handles + multiset{key} + multiset{value} == handles + multiset{key, value};
  }

  lemma AllocReaches(h: Heap, body: Body, handles: multiset<Ptr>, m: Ptr)
    requires Reachable(h, handles, m)
    ensures Reachable(Alloc(h, body), handles + multiset{|h|}, m)
  {
    assert EdgesKept(h, Alloc(h, body));
    ReachableStays(h, Alloc(h, body), handles, handles + multiset{|h|}, m);
  }

  lemma SetOk(h: Heap, m: Ptr, key: Ptr, value: Ptr, index: Option<nat>, handles: multiset<Ptr>)
    requires Counted(h, handles, -1) && Reachable(h, handles, m) && Count(h, key) > 0 && Count(h, value) > 0
    requires IsMap(h, m) && |h[m].body.keys| == |h[m].body.values|
    requires index.Some? ==> IsEntry(h, m, index.value)
    ensures Counted(Set(h, m, key, value, index).heap, handles, -1)
    ensures
      var keys, values := h[m].body.keys, h[m].body.values;
      Replaced(Ref(Ref(h, key), value), Set(h, m, key, value, index), m,
               if index.None? then Map(keys + [key], values + [value])
               else Map(keys[index.value := key], values[index.value := value]))
  {
    RefOk(h, key, handles, -1);
    RefOk(Ref(h, key), value, handles + multiset{key}, -1);
    assert handles + multiset{key} + multiset{value} == handles + multiset{key, value};
    BothRefsReach(h, key, value, handles, m);
    SetTakeOk(Ref(Ref(h, key), value), m, key, value, index, handles);
  }

  lemma SetStringOk(h: Heap, m: Ptr, key: string, value: Ptr, index: Option<nat>, handles: multiset<Ptr>)
    requires Counted(h, handles, -1) && Reachable(h, handles, m) && Count(h, value) > 0
    requires IsMap(h, m) && |h[m].body.keys| == |h[m].body.values|
    requires index.Some? ==> IsEntry(h, m, index.value)
    ensures Counted(SetString(h, m, key, value, index).heap, handles, -1)
    ensures
      var keys, values := h[m].body.keys, h[m].body.values;
      Replaced(Ref(Alloc(h, Atom(Text(key))), value), SetString(h, m, key, value, index), m,
               if index.None? then Map(keys + [|h|], values + [value])
               else Map(keys[index.value := |h|], values[index.value := value]))
  {
    var h1 := Alloc(h, Atom(Text(key)));
    AllocOk(h, Atom(Text(key)), handles);
    RefOk(h1, value, handles + multiset{|h|}, -1);
    assert handles + multiset{|h|} + multiset{value} == handles + multiset{|h|, value};
    AllocReaches(h, Atom(Text(key)), handles, m);
    RefReaches(h1, value, handles + multiset{|h|}, m);
    SetTakeOk(Ref(h1, value), m, |h|, value, index, handles);
  }

  // ---- Whole programs over the heap ----

  /** A program's view: the heap, the references it holds, and everything freed so far. */
  datatype Client = Client(heap: Heap, handles: multiset<Ptr>, freed: seq<Ptr>, sound: bool)

  datatype Op =
    | New(body: Body)
    | Take(p: Ptr)
    | Drop(p: Ptr)
    | Put(list: Ptr, value: Ptr)
    | Assign(m: Ptr, key: Ptr, value: Ptr, index: Option<nat>)
    | AssignString(m: Ptr, name: string, value: Ptr, index: Option<nat>)

  /** What callers owe: new containers are empty, pointers passed on are alive, a reference that is
      dropped is one they hold, and a map in which an entry is set is one they can get to. */
  ghost predicate Allowed(c: Client, op: Op) {
    match op
    case New(body) => Kids(Live(1, body)) == []
    case Take(p) => Count(c.heap, p) > 0
    case Drop(p) => p in c.handles
    case Put(list, value) => Count(c.heap, list) > 0 && Count(c.heap, value) > 0
    case Assign(m, key, value, index) =>
      && Reachable(c.heap, c.handles, m) && IsMap(c.heap, m) && Count(c.heap, key) > 0 && Count(c.heap, value) > 0
      && (index.Some? ==> IsEntry(c.heap, m, index.value))
    case AssignString(m, name, value, index) =>
      && Reachable(c.heap, c.handles, m) && IsMap(c.heap, m) && Count(c.heap, value) > 0
      && (index.Some? ==> IsEntry(c.heap, m, index.value))
  }

  function After(c: Client, r: Released, handles: multiset<Ptr>): Client {
    Client(r.heap, handles, c.freed + r.freed, c.sound && r.sound)
  }

  function Step(c: Client, op: Op): Client
    requires Allowed(c, op)
  {
    match op
    case New(body) => c.(heap := Alloc(c.heap, body), handles := c.handles + multiset{|c.heap|})
    case Take(p) => c.(heap := Ref(c.heap, p), handles := c.handles + multiset{p})
    case Drop(p) => After(c, Unref(c.heap, p), c.handles - multiset{p})
    case Put(list, value) => c.(heap := Append(c.heap, list, value))
    case Assign(m, key, value, index) => After(c, Set(c.heap, m, key, value, index), c.handles)
    case AssignString(m, name, value, index) => After(c, SetString(c.heap, m, name, value, index), c.handles)
  }

  ghost predicate Paired(c: Cell) {
    c.Live? && c.body.Map? ==> |c.body.keys| == |c.body.values|
  }

  ghost predicate Tidy(h: Heap) {
    NoZombies(h) && forall q :: 0 <= q < |h| ==> Paired(h[q])
  }

  /** The log names every freed cell exactly once. */
  ghost predicate Logged(h: Heap, freed: seq<Ptr>) {
    && (forall q :: 0 <= q < |h| ==> (q in freed <==> h[q].Freed?))
    && (forall q :: q in freed ==> q < |h|)
    && (forall i, j :: 0 <= i < j < |freed| ==> freed[i] != freed[j])
  }

  ghost predicate Good(c: Client) {
    c.sound && Counted(c.heap, c.handles, -1) && Tidy(c.heap) && Logged(c.heap, c.freed)
  }

  lemma LogExtends(h: Heap, freed: seq<Ptr>, r: Released)
    requires Logged(h, freed) && FreedOnce(h, r)
    requires forall q :: 0 <= q < |h| && h[q].Freed? ==> r.heap[q].Freed?
    ensures Logged(r.heap, freed + r.freed)
  {
    forall i, j | 0 <= i < |freed| && 0 <= j < |r.freed|
      ensures freed[i] != r.freed[j]
    {
      assert freed[i] in freed && r.freed[j] in r.freed;
    }
  }

  lemma ShrunkTidy(h: Heap, h': Heap)
    requires Shrunk(h, h') && Tidy(h)
    ensures Tidy(h')
  {
    ShrunkNoZombies(h, h');
    forall q | 0 <= q < |h'|
      ensures Paired(h'[q])
    {
      assert CellShrunk(h[q], h'[q]) && Paired(h[q]);
    }
  }

  lemma ReplacedTidy(h: Heap, r: Released, m: Ptr, body: Body)
    requires Tidy(h) && Replaced(h, r, m, body) && body.Map? && |body.keys| == |body.values|
    ensures Tidy(r.heap)
    ensures forall q :: 0 <= q < |h| && h[q].Freed? ==> r.heap[q].Freed?
  {
    forall q | 0 <= q < |h|
      ensures Paired(r.heap[q]) && (r.heap[q].Live? ==> r.heap[q].count > 0)
      ensures h[q].Freed? ==> r.heap[q].Freed?
    {
      assert q != m ==> CellShrunk(h[q], r.heap[q]);
      assert Paired(h[q]);
    }
  }

  lemma RefTidy(h: Heap, p: Ptr)
    requires Tidy(h) && IsLive(h, p)
    ensures Tidy(Ref(h, p))
    ensures forall freed :: Logged(h, freed) ==> Logged(Ref(h, p), freed)
  {
    assert Paired(h[p]);
  }

  lemma AllocTidy(h: Heap, body: Body, freed: seq<Ptr>)
    requires Tidy(h) && Logged(h, freed) && Kids(Live(1, body)) == []
    ensures Tidy(Alloc(h, body)) && Logged(Alloc(h, body), freed)
  {
    forall q | 0 <= q < |h| + 1
      ensures Paired(Alloc(h, body)[q])
    {
      assert q < |h| ==> Paired(h[q]);
    }
  }

  lemma DropGood(c: Client, p: Ptr)
    requires Good(c) && Allowed(c, Drop(p))
    ensures Good(Step(c, Drop(p)))
  {
    var r := Unref(c.heap, p);
    assert c.handles == c.handles - multiset{p} + multiset{p};
    UnrefOk(c.heap, p, c.handles - multiset{p}, -1);
    ShrunkTidy(c.heap, r.heap);
    assert forall q :: 0 <= q < |c.heap| ==> CellShrunk(c.heap[q], r.heap[q]);
    LogExtends(c.heap, c.freed, r);
  }

  lemma PutGood(c: Client, list: Ptr, value: Ptr)
    requires Good(c) && Allowed(c, Put(list, value))
    ensures Good(Step(c, Put(list, value)))
  {
    AppendOk(c.heap, list, value, c.handles);
    RefTidy(c.heap, value);
    assert forall q :: 0 <= q < |c.heap| ==> Paired(Ref(c.heap, value)[q]);
  }

  /** A replacement after the references were taken, whatever the heap `h` they were taken in. */
  lemma AfterReplacement(c: Client, h: Heap, r: Released, m: Ptr, body: Body)
    requires c.sound && Tidy(h) && Logged(h, c.freed) && Replaced(h, r, m, body)
    requires body.Map? && |body.keys| == |body.values| && Counted(r.heap, c.handles, -1)
    ensures Good(After(c, r, c.handles))
  {
    ReplacedTidy(h, r, m, body);
    LogExtends(h, c.freed, r);
  }

  lemma AssignGood(c: Client, m: Ptr, key: Ptr, value: Ptr, index: Option<nat>)
    requires Good(c) && Allowed(c, Assign(m, key, value, index))
    ensures Good(Step(c, Assign(m, key, value, index)))
  {
    var h1 := Ref(c.heap, key);
    var r := Set(c.heap, m, key, value, index);
    assert Paired(c.heap[m]);
    SetOk(c.heap, m, key, value, index, c.handles);
    RefTidy(c.heap, key);
    RefTidy(h1, value);
    AfterReplacement(c, Ref(h1, value), r, m, r.heap[m].body);
  }

  lemma NamedTidy(h: Heap, name: string, value: Ptr, freed: seq<Ptr>)
    requires Tidy(h) && Logged(h, freed) && Count(h, value) > 0
    ensures
      var h2 := Ref(Alloc(h, Atom(Text(name))), value);
      Tidy(h2) && Logged(h2, freed)
  {
    AllocTidy(h, Atom(Text(name)), freed);
    RefTidy(Alloc(h, Atom(Text(name))), value);
  }

  lemma AssignStringGood(c: Client, m: Ptr, name: string, value: Ptr, index: Option<nat>)
    requires Good(c) && Allowed(c, AssignString(m, name, value, index))
    ensures Good(Step(c, AssignString(m, name, value, index)))
  {
    var r := SetString(c.heap, m, name, value, index);
    assert Paired(c.heap[m]);
    SetStringOk(c.heap, m, name, value, index, c.handles);
    NamedTidy(c.heap, name, value, c.freed);
    AfterReplacement(c, Ref(Alloc(c.heap, Atom(Text(name))), value), r, m, r.heap[m].body);
  }

  lemma StepGood(c: Client, op: Op)
    requires Good(c) && Allowed(c, op)
    ensures Good(Step(c, op))
  {
    match op
    case New(body) =>
      AllocOk(c.heap, body, c.handles);
      AllocTidy(c.heap, body, c.freed);
    case Take(p) =>
      RefOk(c.heap, p, c.handles, -1);
      RefTidy(c.heap, p);
    case Drop(p) => DropGood(c, p);
    case Put(list, value) => PutGood(c, list, value);
    case Assign(m, key, value, index) => AssignGood(c, m, key, value, index);
    case AssignString(m, name, value, index) => AssignStringGood(c, m, name, value, index);
  }

  ghost predicate AllowedRun(c: Client, ops: seq<Op>)
    decreases |ops|
  {
    ops == [] || (Allowed(c, ops[0]) && AllowedRun(Step(c, ops[0]), ops[1..]))
  }

  ghost function Run(c: Client, ops: seq<Op>): Client
    requires AllowedRun(c, ops)
    decreases |ops|
  {
    if ops == [] then c else Run(Step(c, ops[0]), ops[1..])
  }

  const Start := Client([], multiset{}, [], true)

  lemma StartIsGood()
    ensures Good(Start)
  {
  }

  lemma {:induction false} RunGood(c: Client, ops: seq<Op>)
    requires Good(c) && AllowedRun(c, ops)
    ensures Good(Run(c, ops))
    decreases |ops|
  {
    if ops != [] {
      StepGood(c, ops[0]);
      RunGood(Step(c, ops[0]), ops[1..]);
    }
  }

  /** Main result 2: whatever program is run, no operation follows a dangling pointer, every
      count is handles plus slots, and every freed cell was freed exactly once. */
  lemma EveryProgramIsSound(ops: seq<Op>)
    requires AllowedRun(Start, ops)
    ensures Good(Run(Start, ops))
  {
    StartIsGood();
    RunGood(Start, ops);
  }

  // ---- Cycles ----

  ghost predicate Acyclic(h: Heap) {
    exists rank :: Ranked(h, rank)
  }

  ghost predicate LeadsTo(h: Heap, p: Ptr, q: Ptr) {
    Reachable(h, multiset{p}, q)
  }

  lemma EdgeLeads(h: Heap, q: Ptr, k: Ptr, m: Ptr)
    requires Edge(h, q, k) && LeadsTo(h, k, m)
    ensures LeadsTo(h, q, m)
  {
    var path :| IsPath(h, multiset{k}, path) && path[|path| - 1] == m;
    var longer := [q] + path;
    forall i | 0 < i < |longer|
      ensures Edge(h, longer[i - 1], longer[i])
    {
      assert longer[i] == path[i - 1] && (i > 1 ==> longer[i - 1] == path[i - 2] && Edge(h, path[i - 2], path[i - 1]));
    }
    assert IsPath(h, multiset{q}, longer) && longer[|longer| - 1] == m;
  }

  /** Ranks never grow along a way. */
  lemma {:induction false} RanksFall(h: Heap, rank: seq<nat>, handles: multiset<Ptr>, path: seq<Ptr>)
    requires Ranked(h, rank) && IsPath(h, handles, path)
    ensures rank[path[|path| - 1]] <= rank[path[0]]
    decreases |path|
  {
    if |path| > 1 {
      RanksFall(h, rank, handles, path[..|path| - 1]);
      assert Edge(h, path[|path| - 1 - 1], path[|path| - 1]);
    }
  }

  /** A slot of `m` that leads back to `m` is a cycle. */
  lemma SlotBackIsCycle(h: Heap, m: Ptr, k: Ptr)
    requires Edge(h, m, k) && LeadsTo(h, k, m)
    ensures !Acyclic(h)
  {
    var path :| IsPath(h, multiset{k}, path) && path[|path| - 1] == m;
    if rank :| Ranked(h, rank) {
      RanksFall(h, rank, multiset{k}, path);
      assert rank[k] < rank[m];
    }
  }

  /** Ranks after new slots of `m`: whatever led to `m` is lifted above everything else. */
  ghost function Lifted(h: Heap, rank: seq<nat>, m: Ptr, bound: nat): seq<nat>
    requires |rank| == |h|
  {
    seq(|h|, q requires 0 <= q < |h| => if LeadsTo(h, q, m) then rank[q] + bound else rank[q])
  }

  /** Slots were only taken away, except for new ones of `m` in `added`. */
  ghost predicate OnlyAdded(h: Heap, h': Heap, m: Ptr, added: set<Ptr>) {
    && |h'| == |h| && m < |h|
    && forall q: Ptr, k: Ptr :: Edge(h', q, k) ==> Edge(h, q, k) || (q == m && k in added)
  }

  lemma AddedStaysAcyclic(h: Heap, h': Heap, m: Ptr, added: set<Ptr>)
    requires Acyclic(h) && OnlyAdded(h, h', m, added)
    requires forall k :: k in added ==> k < |h| && !LeadsTo(h, k, m)
    ensures Acyclic(h')
  {
    var rank :| Ranked(h, rank);
    var bound := Highest(rank);
    var lifted := Lifted(h, rank, m, bound);
    forall q: Ptr, k: Ptr | Edge(h', q, k)
      ensures k < |h'| && lifted[k] < lifted[q]
    {
      if Edge(h, q, k) {
        if LeadsTo(h, k, m) {
          EdgeLeads(h, q, k, m);
        }
      } else {
        HandleReaches(h, multiset{m}, m);
      }
    }
    assert Ranked(h', lifted);
  }

  // ---- Which operations close a cycle ----

  /** The operation stores nothing that leads to the container it is stored in. */
  ghost predicate ClosesNoCycle(h: Heap, op: Op) {
    match op
    case Put(list, value) => IsLive(h, list) && h[list].body.List? ==> !LeadsTo(h, value, list)
    case Assign(m, key, value, _) => !LeadsTo(h, key, m) && !LeadsTo(h, value, m)
    case AssignString(m, _, value, _) => !LeadsTo(h, value, m)
    case _ => true
  }

  lemma PutIsExact(h: Heap, list: Ptr, value: Ptr)
    requires Acyclic(h) && Count(h, list) > 0 && Count(h, value) > 0
    ensures Acyclic(Append(h, list, value)) <==> ClosesNoCycle(h, Put(list, value))
  {
    if h[list].body.List? {
      var h' := Append(h, list, value);
      AppendEdges(h, list, value);
      if LeadsTo(h, value, list) {
        ReachableStays(h, h', multiset{value}, multiset{value}, list);
        SlotBackIsCycle(h', list, value);
      } else {
        AddedStaysAcyclic(h, h', list, {value});
      }
    }
  }

  lemma AppendEdges(h: Heap, list: Ptr, value: Ptr)
    requires Count(h, list) > 0 && Count(h, value) > 0 && h[list].body.List?
    ensures
      var h' := Append(h, list, value);
      EdgesKept(h, h') && OnlyAdded(h, h', list, {value}) && Edge(h', list, value)
  {
    var h', items := Append(h, list, value), h[list].body.items;
    assert Kids(h'[list]) == items + [value];
    assert multiset(items + [value]) == multiset(items) + multiset{value};
    forall q: Ptr, k: Ptr
      ensures Edge(h, q, k) ==> Edge(h', q, k)
      ensures Edge(h', q, k) ==> Edge(h, q, k) || (q == list && k == value)
    {
      assert q < |h| && q != list ==> Kids(h'[q]) == Kids(h[q]);
    }
  }

  /** The body of a map after an entry was set. */
  function EntryBody(keys: seq<Ptr>, values: seq<Ptr>, key: Ptr, value: Ptr, index: Option<nat>): Body
    requires index.Some? ==> index.value < |keys| && index.value < |values|
  {
    if index.None? then Map(keys + [key], values + [value])
    else Map(keys[index.value := key], values[index.value := value])
  }

  lemma EntrySlots(keys: seq<Ptr>, values: seq<Ptr>, key: Ptr, value: Ptr, index: Option<nat>)
    requires |keys| == |values| && (index.Some? ==> index.value < |keys|)
    ensures
      var slots := Kids(Live(1, EntryBody(keys, values, key, value, index)));
      && key in slots && value in slots
      && forall k :: k in slots ==> k in keys + values || k == key || k == value
  {
    var body := EntryBody(keys, values, key, value, index);
    var i := if index.None? then |keys| else index.value;
    assert body.keys[i] == key && body.values[i] == value;
    assert (body.keys + body.values)[i] == key && (body.keys + body.values)[|body.keys| + i] == value;
  }

  lemma ReplacedOnlyAdds(h: Heap, r: Released, m: Ptr, key: Ptr, value: Ptr, index: Option<nat>)
    requires IsMap(h, m) && |h[m].body.keys| == |h[m].body.values| && (index.Some? ==> IsEntry(h, m, index.value))
    requires Replaced(h, r, m, EntryBody(h[m].body.keys, h[m].body.values, key, value, index))
    ensures OnlyAdded(h, r.heap, m, {key, value}) && Edge(r.heap, m, key) && Edge(r.heap, m, value)
  {
    var old', slots := Kids(h[m]), Kids(r.heap[m]);
    EntrySlots(h[m].body.keys, h[m].body.values, key, value, index);
    assert key in multiset(slots) && value in multiset(slots);
    forall q: Ptr, k: Ptr | Edge(r.heap, q, k)
      ensures Edge(h, q, k) || (q == m && k in {key, value})
    {
      if q != m {
        OtherEdge(h, r.heap, m, q, k);
      } else {
        assert k in slots;
        assert k in old' ==> k in multiset(old');
      }
    }
  }

  lemma OtherEdge(h: Heap, h': Heap, m: Ptr, q: Ptr, k: Ptr)
    requires ShrunkBut(h, h', m) && q != m && Edge(h', q, k)
    ensures Edge(h, q, k)
  {
    assert CellShrunk(h[q], h'[q]);
  }

  /** As PathSurvives, when one cell got another body and the way does not use its slots. */
  lemma {:induction false} PathSurvivesBut(h: Heap, h': Heap, roots: multiset<Ptr>, all: multiset<Ptr>,
                                           path: seq<Ptr>, m: Ptr)
    requires Counted(h', all, -1) && ShrunkBut(h, h', m) && IsPathPast(h, roots, path, m)
    requires Count(h', path[0]) > 0
    ensures Count(h', path[|path| - 1]) > 0 && IsPath(h', roots, path)
    decreases |path|
  {
    if |path| > 1 {
      var last, before := path[|path| - 1], path[..|path| - 1];
      PathSurvivesBut(h, h', roots, all, before, m);
      var owner := before[|before| - 1];
      assert owner == path[|path| - 1 - 1] && CellShrunk(h[owner], h'[owner]);
      assert Edge(h', owner, last);
      SlotCounts(h', owner, last, -1);
      assert Count(h', last) == all[last] + Slots(h', -1, last);
      forall i | 0 < i < |path|
        ensures Edge(h', path[i - 1], path[i])
      {
        assert i < |before| ==> Edge(h', before[i - 1], before[i]);
      }
    }
  }

  /** A slot in which a map stands that it is stored in makes a cycle, whatever was released. */
  lemma StoredBackIsCycle(h: Heap, h': Heap, all: multiset<Ptr>, m: Ptr, k: Ptr)
    requires Counted(h', all, -1) && ShrunkBut(h, h', m) && Edge(h', m, k) && LeadsTo(h, k, m)
    ensures !Acyclic(h')
  {
    var path :| IsPath(h, multiset{k}, path) && path[|path| - 1] == m;
    FirstVisit(h, multiset{k}, path, m);
    var short :| IsPathPast(h, multiset{k}, short, m) && short[|short| - 1] == m;
    SlotCounts(h', m, k, -1);
    assert Count(h', k) == all[k] + Slots(h', -1, k);
    assert short[0] == k;
    PathSurvivesBut(h, h', multiset{k}, all, short, m);
    SlotBackIsCycle(h', m, k);
  }

  /** A replacement keeps the heap acyclic exactly when neither new slot leads back to the map. */
  lemma ReplacementIsExact(h: Heap, h': Heap, all: multiset<Ptr>, m: Ptr, key: Ptr, value: Ptr)
    requires Acyclic(h) && Counted(h', all, -1) && ShrunkBut(h, h', m) && OnlyAdded(h, h', m, {key, value})
    requires Edge(h', m, key) && Edge(h', m, value) && key < |h| && value < |h|
    ensures Acyclic(h') <==> !LeadsTo(h, key, m) && !LeadsTo(h, value, m)
  {
    if LeadsTo(h, key, m) {
      StoredBackIsCycle(h, h', all, m, key);
    } else if LeadsTo(h, value, m) {
      StoredBackIsCycle(h, h', all, m, value);
    } else {
      AddedStaysAcyclic(h, h', m, {key, value});
    }
  }

  lemma SetTakeIsExact(h: Heap, m: Ptr, key: Ptr, value: Ptr, index: Option<nat>, handles: multiset<Ptr>)
    requires Counted(h, handles + multiset{key, value}, -1) && Reachable(h, handles + multiset{key, value}, m)
    requires IsMap(h, m) && |h[m].body.keys| == |h[m].body.values|
    requires index.Some? ==> IsEntry(h, m, index.value)
    requires Acyclic(h)
    ensures Acyclic(SetTake(h, m, key, value, index).heap) <==> !LeadsTo(h, key, m) && !LeadsTo(h, value, m)
  {
    var r := SetTake(h, m, key, value, index);
    SetTakeOk(h, m, key, value, index, handles);
    ReplacedOnlyAdds(h, r, m, key, value, index);
    HandleIsLive(h, handles + multiset{key, value}, -1, key);
    HandleIsLive(h, handles + multiset{key, value}, -1, value);
    ReplacementIsExact(h, r.heap, handles, m, key, value);
  }

  // ---- Whole steps and runs ----

  lemma RefChangesNoEdge(h: Heap, p: Ptr)
    requires Count(h, p) > 0
    ensures Acyclic(h) ==> Acyclic(Ref(h, p))
    ensures forall q: Ptr, m: Ptr :: LeadsTo(Ref(h, p), q, m) <==> LeadsTo(h, q, m)
  {
    RefKeepsEdges(h, p);
    assert EdgesKept(Ref(h, p), h) by {
      assert Kids(Ref(h, p)[p]) == Kids(h[p]);
    }
    forall q: Ptr, m: Ptr
      ensures LeadsTo(Ref(h, p), q, m) <==> LeadsTo(h, q, m)
    {
      if LeadsTo(h, q, m) {
        ReachableStays(h, Ref(h, p), multiset{q}, multiset{q}, m);
      }
      if LeadsTo(Ref(h, p), q, m) {
        ReachableStays(Ref(h, p), h, multiset{q}, multiset{q}, m);
      }
    }
    if rank :| Ranked(h, rank) {
      assert Ranked(Ref(h, p), rank);
    }
  }

  lemma AllocStaysAcyclic(h: Heap, body: Body)
    requires Acyclic(h) && Kids(Live(1, body)) == []
    ensures Acyclic(Alloc(h, body))
  {
    var rank :| Ranked(h, rank);
    forall q: Ptr, k: Ptr | Edge(Alloc(h, body), q, k)
      ensures k < |h| + 1 && (rank + [0])[k] < (rank + [0])[q]
    {
      assert q < |h| ==> Edge(h, q, k);
    }
    assert Ranked(Alloc(h, body), rank + [0]);
  }

  lemma NoSlotsNoWay(h: Heap, p: Ptr, m: Ptr)
    requires p < |h| && Kids(h[p]) == [] && p != m
    ensures !LeadsTo(h, p, m)
  {
    forall path | IsPath(h, multiset{p}, path)
      ensures path[|path| - 1] == p
    {
      assert |path| > 1 ==> Edge(h, path[1 - 1], path[1]);
    }
  }

  /** A new cell without slots leads nowhere, and no way changes. */
  lemma AllocLeadsNowhere(h: Heap, body: Body, m: Ptr)
    requires Kids(Live(1, body)) == [] && m < |h|
    ensures !LeadsTo(Alloc(h, body), |h|, m)
    ensures forall q: Ptr :: q < |h| ==> (LeadsTo(Alloc(h, body), q, m) <==> LeadsTo(h, q, m))
  {
    var h' := Alloc(h, body);
    assert EdgesKept(h, h');
    NoSlotsNoWay(h', |h|, m);
    forall q: Ptr | q < |h|
      ensures LeadsTo(h', q, m) <==> LeadsTo(h, q, m)
    {
      if LeadsTo(h, q, m) {
        ReachableStays(h, h', multiset{q}, multiset{q}, m);
      }
      if LeadsTo(h', q, m) {
        var path :| IsPath(h', multiset{q}, path) && path[|path| - 1] == m;
        OldWay(h, body, path, q);
      }
    }
  }

  /** A way that ends at an old cell has only old cells. */
  lemma OldWay(h: Heap, body: Body, path: seq<Ptr>, q: Ptr)
    requires Kids(Live(1, body)) == [] && IsPath(Alloc(h, body), multiset{q}, path)
    requires path[|path| - 1] < |h|
    ensures IsPath(h, multiset{q}, path)
  {
    var h' := Alloc(h, body);
    forall i | 0 <= i < |path|
      ensures path[i] < |h|
    {
      assert i + 1 < |path| ==> Edge(h', path[i + 1 - 1], path[i + 1]);
    }
    forall i | 0 < i < |path|
      ensures Edge(h, path[i - 1], path[i])
    {
      assert Edge(h', path[i - 1], path[i]);
    }
  }

  lemma AssignIsExact(c: Client, m: Ptr, key: Ptr, value: Ptr, index: Option<nat>)
    requires Good(c) && Allowed(c, Assign(m, key, value, index)) && Acyclic(c.heap)
    ensures Acyclic(Step(c, Assign(m, key, value, index)).heap)
       <==> ClosesNoCycle(c.heap, Assign(m, key, value, index))
  {
    var h1 := Ref(c.heap, key);
    assert Paired(c.heap[m]);
    RefChangesNoEdge(c.heap, key);
    RefChangesNoEdge(h1, value);
    RefOk(c.heap, key, c.handles, -1);
    RefOk(h1, value, c.handles + multiset{key}, -1);
    assert c.handles + multiset{key} + multiset{value} == c.handles + multiset{key, value};
    BothRefsReach(c.heap, key, value, c.handles, m);
    SetTakeIsExact(Ref(h1, value), m, key, value, index, c.handles);
  }

  lemma AssignStringIsExact(c: Client, m: Ptr, name: string, value: Ptr, index: Option<nat>)
    requires Good(c) && Allowed(c, AssignString(m, name, value, index)) && Acyclic(c.heap)
    ensures Acyclic(Step(c, AssignString(m, name, value, index)).heap)
       <==> ClosesNoCycle(c.heap, AssignString(m, name, value, index))
  {
    var h, key, body := c.heap, |c.heap|, Atom(Text(name));
    var h1 := Alloc(h, body);
    assert Paired(h[m]);
    AllocStaysAcyclic(h, body);
    AllocLeadsNowhere(h, body, m);
    RefChangesNoEdge(h1, value);
    AllocOk(h, body, c.handles);
    RefOk(h1, value, c.handles + multiset{key}, -1);
    assert c.handles + multiset{key} + multiset{value} == c.handles + multiset{key, value};
    AllocReaches(h, body, c.handles, m);
    RefReaches(h1, value, c.handles + multiset{key}, m);
    SetTakeIsExact(Ref(h1, value), m, key, value, index, c.handles);
  }

  /** Main result 3: in a heap without cycles an operation closes one exactly when what it stores leads to
      the container it is stored in. */
  lemma StepStaysAcyclicExactly(c: Client, op: Op)
    requires Good(c) && Allowed(c, op) && Acyclic(c.heap)
    ensures Acyclic(Step(c, op).heap) <==> ClosesNoCycle(c.heap, op)
  {
    match op
    case New(body) => AllocStaysAcyclic(c.heap, body);
    case Take(p) => RefChangesNoEdge(c.heap, p);
    case Drop(p) =>
      var rank :| Ranked(c.heap, rank);
      assert c.handles == c.handles - multiset{p} + multiset{p};
      UnrefOk(c.heap, p, c.handles - multiset{p}, -1);
      ShrunkStaysRanked(c.heap, Unref(c.heap, p).heap, rank);
    case Put(list, value) => PutIsExact(c.heap, list, value);
    case Assign(m, key, value, index) => AssignIsExact(c, m, key, value, index);
    case AssignString(m, name, value, index) => AssignStringIsExact(c, m, name, value, index);
  }

  /** Without cycles nothing leaks: exactly what the handles reach is alive. */
  ghost predicate NothingLeaks(c: Client) {
    forall p: Ptr :: p < |c.heap| ==> (c.heap[p].Live? <==> Reachable(c.heap, c.handles, p))
  }

  lemma AcyclicLeaksNothing(c: Client)
    requires Good(c) && Acyclic(c.heap)
    ensures NothingLeaks(c)
  {
    var rank :| Ranked(c.heap, rank);
    forall p: Ptr | p < |c.heap|
      ensures c.heap[p].Live? <==> Reachable(c.heap, c.handles, p)
    {
      if c.heap[p].Live? {
        CountedIsReachable(c.heap, c.handles, rank, Highest(rank), p);
      }
      if Reachable(c.heap, c.handles, p) {
        ReachableIsLive(c.heap, c.handles, p);
      }
    }
  }

  /** No operation of the run stores what leads to its container. */
  ghost predicate NoCycleClosed(c: Client, ops: seq<Op>)
    requires AllowedRun(c, ops)
    decreases |ops|
  {
    ops == [] || (ClosesNoCycle(c.heap, ops[0]) && NoCycleClosed(Step(c, ops[0]), ops[1..]))
  }

  ghost predicate AcyclicThroughout(c: Client, ops: seq<Op>)
    requires AllowedRun(c, ops)
    decreases |ops|
  {
    Acyclic(c.heap) && (ops == [] || AcyclicThroughout(Step(c, ops[0]), ops[1..]))
  }

  lemma {:induction false} RunStaysAcyclicExactly(c: Client, ops: seq<Op>)
    requires Good(c) && AllowedRun(c, ops) && Acyclic(c.heap)
    ensures AcyclicThroughout(c, ops) <==> NoCycleClosed(c, ops)
    ensures NoCycleClosed(c, ops) ==> Acyclic(Run(c, ops).heap)
    decreases |ops|
  {
    if ops != [] {
      StepGood(c, ops[0]);
      StepStaysAcyclicExactly(c, ops[0]);
      if ClosesNoCycle(c.heap, ops[0]) {
        RunStaysAcyclicExactly(Step(c, ops[0]), ops[1..]);
      }
    }
  }

  /** Main result 4: a program that never stores a container below itself leaks nothing: after every run
      exactly the cells its handles reach are alive, so none is once all handles are dropped. */
  lemma TreeProgramsLeakNothing(ops: seq<Op>)
    requires AllowedRun(Start, ops) && NoCycleClosed(Start, ops)
    ensures NothingLeaks(Run(Start, ops))
    ensures Run(Start, ops).handles == multiset{} ==>
      forall p: Ptr :: p < |Run(Start, ops).heap| ==> Run(Start, ops).heap[p].Freed?
  {
    var c := Run(Start, ops);
    StartIsGood();
    assert Ranked(Start.heap, []);
    RunStaysAcyclicExactly(Start, ops);
    RunGood(Start, ops);
    AcyclicLeaksNothing(c);
  }

  lemma OneStep(c: Client, op: Op, rest: seq<Op>, c': Client)
    requires Allowed(c, op) && c' == Step(c, op) && AllowedRun(c', rest)
    ensures AllowedRun(c, [op] + rest) && Run(c, [op] + rest) == Run(c', rest)
    ensures NoCycleClosed(c, [op] + rest) <==> ClosesNoCycle(c.heap, op) && NoCycleClosed(c', rest)
  {
    assert ([op] + rest)[1..] == rest;
  }

  lemma DropShared(c: Client, p: Ptr)
    requires p in c.handles && Count(c.heap, p) > 1
    ensures Step(c, Drop(p))
         == c.(heap := c.heap[p := Live(c.heap[p].count - 1, c.heap[p].body)], handles := c.handles - multiset{p})
  {
    assert c.freed + [] == c.freed;
  }

  /** A map with itself under a key: how many references it and the key have is left open. */
  function SelfMap(m: Ptr, key: Ptr, count: nat, keyCount: nat): Heap {
    [Live(count, Map([key], [m])), Live(keyCount, Atom(Null))]
  }

  /** A new map and a new key: the first two cells that a program allocates. */
  function TwoCells(m: Ptr, key: Ptr): Client {
    Client([Live(1, Map([], [])), Live(1, Atom(Null))], multiset{m, key}, [], true)
  }

  /** What a program does to store a map in itself and give it up. */
  function StoreInItself(m: Ptr, key: Ptr): seq<Op> {
    [New(Map([], []))] + ([New(Atom(Null))] + ([Assign(m, key, m, None)] + [Drop(m)]))
  }

  lemma SelfAssigned(m: Ptr, key: Ptr)
    requires m == 0 && key == 1
    ensures
      var c := TwoCells(m, key);
      && Allowed(c, Assign(m, key, m, None)) && !ClosesNoCycle(c.heap, Assign(m, key, m, None))
      && Step(c, Assign(m, key, m, None)) == Client(SelfMap(m, key, 2, 2), multiset{m, key}, [], true)
  {
    var h := [Live(1, Map([], [])), Live(1, Atom(Null))];
    HandleReaches(h, multiset{m, key}, m);
    HandleReaches(h, multiset{m}, m);
    assert Ref(Ref(h, key), m) == [Live(2, Map([], [])), Live(2, Atom(Null))];
    assert [] + [key] == [key] && [] + [m] == [m];
  }

  lemma SelfDropped(m: Ptr, key: Ptr)
    requires m == 0 && key == 1
    ensures
      var c := Client(SelfMap(m, key, 2, 2), multiset{m, key}, [], true);
      Allowed(c, Drop(m)) && Step(c, Drop(m)) == Client(SelfMap(m, key, 1, 2), multiset{key}, [], true)
  {
    DropShared(Client(SelfMap(m, key, 2, 2), multiset{m, key}, [], true), m);
    assert SelfMap(m, key, 2, 2)[m := Live(1, Map([key], [m]))] == SelfMap(m, key, 1, 2);
  }

  lemma TwoNewCells(m: Ptr, key: Ptr, rest: seq<Op>)
    requires m == 0 && key == 1 && AllowedRun(TwoCells(m, key), rest)
    ensures
      var ops := [New(Map([], []))] + ([New(Atom(Null))] + rest);
      && AllowedRun(Start, ops) && Run(Start, ops) == Run(TwoCells(m, key), rest)
      && (NoCycleClosed(Start, ops) <==> NoCycleClosed(TwoCells(m, key), rest))
  {
    var c1 := Client([Live(1, Map([], []))], multiset{m}, [], true);
    OneStep(c1, New(Atom(Null)), rest, TwoCells(m, key));
    OneStep(Start, New(Map([], [])), [New(Atom(Null))] + rest, c1);
  }

  lemma AssignedAndDropped(m: Ptr, key: Ptr)
    requires m == 0 && key == 1
    ensures
      var c, ops := TwoCells(m, key), [Assign(m, key, m, None)] + [Drop(m)];
      && AllowedRun(c, ops) && !NoCycleClosed(c, ops)
      && Run(c, ops) == Client(SelfMap(m, key, 1, 2), multiset{key}, [], true)
  {
    var c3 := Client(SelfMap(m, key, 2, 2), multiset{m, key}, [], true);
    SelfDropped(m, key);
    OneStep(c3, Drop(m), [], Client(SelfMap(m, key, 1, 2), multiset{key}, [], true));
    assert [Drop(m)] + [] == [Drop(m)];
    SelfAssigned(m, key);
    OneStep(TwoCells(m, key), Assign(m, key, m, None), [Drop(m)], c3);
  }

  lemma StoreInItselfRuns(m: Ptr, key: Ptr)
    requires m == 0 && key == 1
    ensures AllowedRun(Start, StoreInItself(m, key)) && !NoCycleClosed(Start, StoreInItself(m, key))
    ensures Run(Start, StoreInItself(m, key)) == Client(SelfMap(m, key, 1, 2), multiset{key}, [], true)
  {
    AssignedAndDropped(m, key);
    TwoNewCells(m, key, [Assign(m, key, m, None)] + [Drop(m)]);
  }

  lemma SettingFreesIt(m: Ptr, key: Ptr)
    requires m == 0 && key == 1
    ensures !Set(SelfMap(m, key, 1, 2), m, key, key, Some(0)).sound
  {
    var h := Ref(Ref(SelfMap(m, key, 1, 2), key), key);
    assert h == SelfMap(m, key, 1, 4);
    assert Unref(h, key).heap == SelfMap(m, key, 1, 3);
    assert [key][0 := key] == [key];
    assert Rebodied(SelfMap(m, key, 1, 3), m, Map([key], [m])) == SelfMap(m, key, 1, 3);
    assert Kids(SelfMap(m, key, 1, 3)[m]) == [key, m];
  }

  /** A map stored in itself outlives its last handle; and setting its entry anew, by somebody who kept the
      pointer, frees the very map that is being changed.  So what is stored must not lead back to
      its container, and a map in which an entry is set must be reached from outside. */
  lemma StoredInItselfLeaks(m: Ptr, key: Ptr)
    requires m == 0 && key == 1
    ensures AllowedRun(Start, StoreInItself(m, key)) && !NoCycleClosed(Start, StoreInItself(m, key))
    ensures Run(Start, StoreInItself(m, key)) == Client(SelfMap(m, key, 1, 2), multiset{key}, [], true)
    ensures !NothingLeaks(Client(SelfMap(m, key, 1, 2), multiset{key}, [], true))
    ensures !Reachable(SelfMap(m, key, 1, 2), multiset{key}, m)
    ensures !Set(SelfMap(m, key, 1, 2), m, key, key, Some(0)).sound
  {
    var h := SelfMap(m, key, 1, 2);
    StoreInItselfRuns(m, key);
    SettingFreesIt(m, key);
    NoSlotsNoWay(h, key, m);
    assert h[m].Live? && !Reachable(h, multiset{key}, m);
  }
}
