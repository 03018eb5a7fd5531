/** The value heap as the code works on it: counts and slots are changed in place, freeing is
    a loop over slots inside a recursion, and conversion to and from Flutter values is a
    recursion that appends and sets entries one by one. */
module ValueStore {
  import opened Common
  import opened ValueHeap
  import T = ValueTrees

  /** The cell at `p` and everything below it is alive, lies at or above `lo`, and spells `v`. */
  ghost predicate Represents(h: Heap, lo: nat, p: Ptr, v: T.WValue)
    decreases v
  {
    && lo <= p < |h| && h[p].Live? && h[p].count > 0
    && match v
       case Leaf(s) => h[p].body == Atom(s)
       case Items(vs) =>
         && h[p].body.List? && |h[p].body.items| == |vs|
         && forall i :: 0 <= i < |vs| ==> Represents(h, lo, h[p].body.items[i], vs[i])
       case Entries(ks, vs) =>
         && h[p].body.Map? && |h[p].body.keys| == |ks| && |h[p].body.values| == |vs|
         && (forall i :: 0 <= i < |ks| ==> Represents(h, lo, h[p].body.keys[i], ks[i]))
         && (forall i :: 0 <= i < |vs| ==> Represents(h, lo, h[p].body.values[i], vs[i]))
  }

  ghost predicate RepresentsAll(h: Heap, lo: nat, ps: seq<Ptr>, vs: seq<T.WValue>) {
    |ps| == |vs| && forall i :: 0 <= i < |ps| ==> Represents(h, lo, ps[i], vs[i])
  }

  /** A pointer that may be missing, and the value it stands for. */
  ghost predicate Spells(h: Heap, p: Option<Ptr>, v: Option<T.WValue>) {
    p.Some? == v.Some? && (p.Some? ==> Represents(h, 0, p.value, v.value))
  }

  /** Cells from `lo` on that are still alive have kept their bodies. */
  ghost predicate BodiesKept(h: Heap, h': Heap, lo: nat) {
    |h| <= |h'| && forall q :: lo <= q < |h| && h'[q].Live? && h'[q].count > 0 ==> h[q].Live? && h'[q].body == h[q].body
  }

  lemma {:induction false} LowerBound(h: Heap, lo: nat, lo': nat, p: Ptr, v: T.WValue)
    requires Represents(h, lo, p, v) && lo' <= lo
    ensures Represents(h, lo', p, v)
    decreases v
  {
    match v
    case Leaf(_) =>
    case Items(vs) =>
      forall i | 0 <= i < |vs| ensures Represents(h, lo', h[p].body.items[i], vs[i]) {
        LowerBound(h, lo, lo', h[p].body.items[i], vs[i]);
      }
    case Entries(ks, vs) =>
      forall i | 0 <= i < |ks| ensures Represents(h, lo', h[p].body.keys[i], ks[i]) {
        LowerBound(h, lo, lo', h[p].body.keys[i], ks[i]);
      }
      forall i | 0 <= i < |vs| ensures Represents(h, lo', h[p].body.values[i], vs[i]) {
        LowerBound(h, lo, lo', h[p].body.values[i], vs[i]);
      }
  }

  /** A value is spelled as before wherever its root is still counted: the invariant keeps
      alive whatever a counted cell has in its slots. */
  lemma {:induction false} StillRepresents(h: Heap, h': Heap, handles: multiset<Ptr>, lo: nat, p: Ptr, v: T.WValue)
    requires Represents(h, lo, p, v) && BodiesKept(h, h', lo)
    requires Counted(h', handles, -1) && Count(h', p) > 0
    ensures Represents(h', lo, p, v)
    decreases v
  {
    match v
    case Leaf(_) =>
    case Items(vs) =>
      forall i | 0 <= i < |vs| ensures Represents(h', lo, h'[p].body.items[i], vs[i]) {
        SlotIsCounted(h', handles, p, h'[p].body.items, i);
        StillRepresents(h, h', handles, lo, h[p].body.items[i], vs[i]);
      }
    case Entries(ks, vs) =>
      forall i | 0 <= i < |ks| ensures Represents(h', lo, h'[p].body.keys[i], ks[i]) {
        SlotIsCounted(h', handles, p, h'[p].body.keys, i);
        StillRepresents(h, h', handles, lo, h[p].body.keys[i], ks[i]);
      }
      forall i | 0 <= i < |vs| ensures Represents(h', lo, h'[p].body.values[i], vs[i]) {
        SlotIsCounted(h', handles, p, h'[p].body.values, i);
        StillRepresents(h, h', handles, lo, h[p].body.values[i], vs[i]);
      }
  }

  lemma SlotIsCounted(h: Heap, handles: multiset<Ptr>, owner: Ptr, slots: seq<Ptr>, i: nat)
    requires Counted(h, handles, -1) && Count(h, owner) > 0 && i < |slots|
    requires forall q :: q in slots ==> q in Kids(h[owner])
    ensures Count(h, slots[i]) > 0
  {
    assert slots[i] in Kids(h[owner]);
    assert Edge(h, owner, slots[i]);
    SlotCounts(h, owner, slots[i], -1);
    assert Count(h, slots[i]) == handles[slots[i]] + Slots(h, -1, slots[i]);
  }

  lemma {:induction false} UnrefAllSplits(h: Heap, a: seq<Ptr>, b: seq<Ptr>)
    ensures UnrefAll(h, a + b).heap == UnrefAll(UnrefAll(h, a).heap, b).heap
    decreases |a|
  {
    if a == [] {
      assert a + b == b;
    } else {
      assert (a + b)[1..] == a[1..] + b;
      UnrefAllSplits(Unref(h, a[0]).heap, a[1..], b);
    }
  }

  class Store {
    var cells: Heap

    constructor ()
      ensures cells == []
    {
      cells := [];
    }

    method New(body: Body) returns (p: Ptr)
      modifies this
      ensures p == |old(cells)| && cells == Alloc(old(cells), body)
    {
      p := |cells|;
      cells := cells + [Live(1, body)];
    }

    method Retain(p: Ptr)
      requires IsLive(cells, p)
      modifies this
      ensures cells == Ref(old(cells), p)
    {
      cells := cells[p := cells[p].(count := cells[p].count + 1)];
    }

    method Release(p: Ptr)
      modifies this
      ensures cells == Unref(old(cells), p).heap
      decreases Total(cells), 0
    {
      if p >= |cells| || cells[p].Freed? || cells[p].count == 0 {
        return;
      }
      TotalUpdate(cells, p, Live(cells[p].count - 1, cells[p].body));
      cells := cells[p := cells[p].(count := cells[p].count - 1)];
      if cells[p].count != 0 {
        return;
      }
      match cells[p].body {
        case Atom(_) =>
        case List(items) =>
          FreeArray(items);
        case Map(keys, values) =>
          UnrefAllSplits(cells, keys, values);
          FreeArray(keys);
          FreeArray(values);
      }
      cells := cells[p := Freed];
    }

    /** `webview_ptr_array_free`. */
    method FreeArray(slots: seq<Ptr>)
      modifies this
      ensures cells == UnrefAll(old(cells), slots).heap
      decreases Total(cells), 1
    {
      for i := 0 to |slots|
        invariant cells == UnrefAll(old(cells), slots[..i]).heap
      {
        assert slots[..i + 1] == slots[..i] + [slots[i]];
        UnrefAllSplits(old(cells), slots[..i], [slots[i]]);
        assert UnrefAll(cells, [slots[i]]).heap == Unref(cells, slots[i]).heap;
        Release(slots[i]);
      }
      assert slots[..|slots|] == slots;
    }

    /** `webview_value_append`. */
    method AppendValue(list: Ptr, value: Ptr)
      requires IsLive(cells, list) && IsLive(cells, value)
      modifies this
      ensures cells == Append(old(cells), list, value)
    {
      if cells[list].body.List? {
        Retain(value);
        var items := cells[list].body.items;
        cells := cells[list := cells[list].(body := List(items + [value]))];
      }
    }

    /** `webview_value_equals` on values without maps. */
    method Equal(a: Ptr, b: Ptr, ghost va: T.WValue, ghost vb: T.WValue) returns (equal: bool)
      requires Represents(cells, 0, a, va) && Represents(cells, 0, b, vb) && T.MapFree(va) && T.MapFree(vb)
      ensures equal == T.TreeEq(T.ScalarEq, va, vb)
      decreases va
    {
      var x, y := cells[a].body, cells[b].body;
      if x.Atom? && y.Atom? {
        return T.ScalarEq(x.value, y.value);
      }
      if !x.List? || !y.List? || |x.items| != |y.items| {
        return false;
      }
      for i := 0 to |x.items|
        invariant forall j :: 0 <= j < i ==> T.TreeEq(T.ScalarEq, va.items[j], vb.items[j])
      {
        var same := Equal(x.items[i], y.items[i], va.items[i], vb.items[i]);
        if !same {
          return false;
        }
      }
      return true;
    }

    /** `webview_value_lookup_index`. */
    method Lookup(keys: seq<Ptr>, key: Ptr, ghost ks: seq<T.WValue>, ghost k: T.WValue) returns (index: Option<nat>)
      requires RepresentsAll(cells, 0, keys, ks) && Represents(cells, 0, key, k)
      requires T.MapFree(k) && forall i :: 0 <= i < |ks| ==> T.MapFree(ks[i])
      ensures index == T.FindKey(T.ScalarEq, ks, k)
    {
      for i := 0 to |keys|
        invariant forall j :: 0 <= j < i ==> !T.TreeEq(T.ScalarEq, ks[j], k)
      {
        var same := Equal(keys[i], key, ks[i], k);
        if same {
          return Some(i);
        }
      }
      return None;
    }

    // ---- The readers, each with its type test; no pointer reads as the default ----

    method GetBool(p: Option<Ptr>, ghost v: Option<T.WValue>) returns (value: bool)
      requires Spells(cells, p, v)
      ensures value == T.GetBool(v)
    {
      if p.None? {
        return false;
      }
      match cells[p.value].body {
        case Atom(Bool(b)) => value := b;
        case _ => value := false;
      }
    }

    method GetInt(p: Option<Ptr>, ghost v: Option<T.WValue>) returns (value: int)
      requires Spells(cells, p, v)
      ensures value == T.GetInt(v)
    {
      if p.None? {
        return 0;
      }
      match cells[p.value].body {
        case Atom(Int(i)) => value := i;
        case _ => value := 0;
      }
    }

    method GetFloat(p: Option<Ptr>, ghost v: Option<T.WValue>) returns (value: Number)
      requires Spells(cells, p, v)
      ensures value == T.GetFloat(v)
    {
      if p.None? {
        return Real(0.0);
      }
      match cells[p.value].body {
        case Atom(Float(f)) => value := f;
        case _ => value := Real(0.0);
      }
    }

    method GetDouble(p: Option<Ptr>, ghost v: Option<T.WValue>) returns (value: Number)
      requires Spells(cells, p, v)
      ensures value == T.GetDouble(v)
    {
      if p.None? {
        return Real(0.0);
      }
      match cells[p.value].body {
        case Atom(Double(d)) => value := d;
        case _ => value := Real(0.0);
      }
    }

    method GetString(p: Option<Ptr>, ghost v: Option<T.WValue>) returns (value: Option<string>)
      requires Spells(cells, p, v)
      ensures value == T.GetString(v)
    {
      if p.None? {
        return None;
      }
      match cells[p.value].body {
        case Atom(Text(chars)) => value := Some(chars);
        case _ => value := None;
      }
    }

    method GetUint8List(p: Option<Ptr>, ghost v: Option<T.WValue>) returns (value: Option<seq<int>>)
      requires Spells(cells, p, v)
      ensures value == T.GetUint8List(v)
    {
      if p.None? {
        return None;
      }
      match cells[p.value].body {
        case Atom(Uint8List(bytes)) => value := Some(bytes);
        case _ => value := None;
      }
    }

    method GetInt32List(p: Option<Ptr>, ghost v: Option<T.WValue>) returns (value: Option<seq<int>>)
      requires Spells(cells, p, v)
      ensures value == T.GetInt32List(v)
    {
      if p.None? {
        return None;
      }
      match cells[p.value].body {
        case Atom(Int32List(ints)) => value := Some(ints);
        case _ => value := None;
      }
    }

    method GetInt64List(p: Option<Ptr>, ghost v: Option<T.WValue>) returns (value: Option<seq<int>>)
      requires Spells(cells, p, v)
      ensures value == T.GetInt64List(v)
    {
      if p.None? {
        return None;
      }
      match cells[p.value].body {
        case Atom(Int64List(longs)) => value := Some(longs);
        case _ => value := None;
      }
    }

    method GetFloatList(p: Option<Ptr>, ghost v: Option<T.WValue>) returns (value: Option<seq<Number>>)
      requires Spells(cells, p, v)
      ensures value == T.GetFloatList(v)
    {
      if p.None? {
        return None;
      }
      match cells[p.value].body {
        case Atom(FloatList(floats)) => value := Some(floats);
        case _ => value := None;
      }
    }

    method GetDoubleList(p: Option<Ptr>, ghost v: Option<T.WValue>) returns (value: Option<seq<Number>>)
      requires Spells(cells, p, v)
      ensures value == T.GetDoubleList(v)
    {
      if p.None? {
        return None;
      }
      match cells[p.value].body {
        case Atom(DoubleList(doubles)) => value := Some(doubles);
        case _ => value := None;
      }
    }

    method GetListValue(p: Option<Ptr>, i: nat, ghost v: Option<T.WValue>) returns (item: Option<Ptr>)
      requires Spells(cells, p, v)
      ensures Spells(cells, item, T.GetListValue(v, i))
    {
      if p.None? {
        return None;
      }
      match cells[p.value].body {
        case List(items) => item := if i < |items| then Some(items[i]) else None;
        case _ => item := None;
      }
    }

    method GetByKey(p: Option<Ptr>, key: Ptr, ghost v: Option<T.WValue>, ghost k: T.WValue) returns (value: Option<Ptr>)
      requires Spells(cells, p, v) && Represents(cells, 0, key, k) && T.MapFree(k)
      requires v.Some? && v.value.Entries? ==>
        |v.value.keys| == |v.value.values| && forall i :: 0 <= i < |v.value.keys| ==> T.MapFree(v.value.keys[i])
      ensures Spells(cells, value, T.GetByKey(v, k))
    {
      if p.None? {
        return None;
      }
      match cells[p.value].body {
        case Map(keys, values) =>
          var index := Lookup(keys, key, v.value.keys, k);
          value := if index.Some? then Some(values[index.value]) else None;
        case _ => value := None;
      }
    }

    /** `webview_value_set_take` once the key search has answered. */
    method SetTakeAt(m: Ptr, key: Ptr, value: Ptr, index: Option<nat>, ghost handles: multiset<Ptr>)
      requires Counted(cells, handles + multiset{key, value}, -1) && Reachable(cells, handles + multiset{key, value}, m)
      requires IsMap(cells, m) && |cells[m].body.keys| == |cells[m].body.values|
      requires index.Some? ==> IsEntry(cells, m, index.value)
      modifies this
      ensures cells == SetTake(old(cells), m, key, value, index).heap
    {
      SetTakeOk(cells, m, key, value, index, handles);
      var keys, values := cells[m].body.keys, cells[m].body.values;
      if index.None? {
        cells := cells[m := cells[m].(body := Map(keys + [key], values + [value]))];
        return;
      }
      var i := index.value;
      SetTakeSteps(cells, m, key, value, i, handles);
      Release(keys[i]);
      cells := cells[m := cells[m].(body := Map(cells[m].body.keys[i := key], cells[m].body.values))];
      Release(cells[m].body.values[i]);
      cells := cells[m := cells[m].(body := Map(cells[m].body.keys, cells[m].body.values[i := value]))];
    }

    /** `webview_value_set`: take both references, search, then hand them to `set_take`. */
    method SetEntry(m: Ptr, key: Ptr, value: Ptr, ghost handles: multiset<Ptr>,
                    ghost ks: seq<T.WValue>, ghost k: T.WValue)
      returns (index: Option<nat>)
      requires Counted(cells, handles, -1) && Reachable(cells, handles, m)
      requires Count(cells, key) > 0 && Count(cells, value) > 0
      requires IsMap(cells, m) && |cells[m].body.keys| == |cells[m].body.values|
      requires RepresentsAll(cells, 0, cells[m].body.keys, ks) && Represents(cells, 0, key, k)
      requires T.MapFree(k) && forall i :: 0 <= i < |ks| ==> T.MapFree(ks[i])
      modifies this
      ensures index == T.FindKey(T.ScalarEq, ks, k)
      ensures index.Some? ==> IsEntry(old(cells), m, index.value)
      ensures cells == Set(old(cells), m, key, value, index).heap
    {
      var keys := cells[m].body.keys;
      BothRetained(cells, key, value, handles, keys, ks, k);
      BothRefsReach(cells, key, value, handles, m);
      ghost var taken := Ref(Ref(cells, key), value);
      Retain(key);
      Retain(value);
      assert cells == taken && cells[m].body.keys == keys;
      index := Lookup(keys, key, ks, k);
      SetTakeAt(m, key, value, index, handles);
    }
  }

  lemma RetainedRepresents(h: Heap, q: Ptr, handles: multiset<Ptr>, p: Ptr, v: T.WValue)
    requires Counted(h, handles, -1) && Count(h, q) > 0 && Represents(h, 0, p, v)
    ensures Represents(Ref(h, q), 0, p, v)
  {
    RefOk(h, q, handles, -1);
    StillRepresents(h, Ref(h, q), handles + multiset{q}, 0, p, v);
  }

  lemma RetainedRepresentsAll(h: Heap, q: Ptr, handles: multiset<Ptr>, ps: seq<Ptr>, vs: seq<T.WValue>)
    requires Counted(h, handles, -1) && Count(h, q) > 0 && RepresentsAll(h, 0, ps, vs)
    ensures RepresentsAll(Ref(h, q), 0, ps, vs)
  {
    forall i | 0 <= i < |ps| ensures Represents(Ref(h, q), 0, ps[i], vs[i]) {
      RetainedRepresents(h, q, handles, ps[i], vs[i]);
    }
  }

  /** Taking the references to the key and the value that will be stored. */
  lemma BothRetained(h: Heap, key: Ptr, value: Ptr, handles: multiset<Ptr>,
                     keys: seq<Ptr>, ks: seq<T.WValue>, k: T.WValue)
    requires Counted(h, handles, -1) && Count(h, key) > 0 && Count(h, value) > 0
    requires RepresentsAll(h, 0, keys, ks) && Represents(h, 0, key, k)
    ensures
      var h2 := Ref(Ref(h, key), value);
      Counted(h2, handles + multiset{key, value}, -1) && RepresentsAll(h2, 0, keys, ks) && Represents(h2, 0, key, k)
  {
    RetainedRepresents(h, key, handles, key, k);
    RetainedRepresentsAll(h, key, handles, keys, ks);
    RefOk(h, key, handles, -1);
    var h1 := Ref(h, key);
    RetainedRepresents(h1, value, handles + multiset{key}, key, k);
    RetainedRepresentsAll(h1, value, handles + multiset{key}, keys, ks);
    RefOk(h1, value, handles + multiset{key}, -1);
    assert handles + multiset{key} + multiset{value} == handles + multiset{key, value};
  }

  /** Between the two releases of a replacement the map is still there, and the whole is the
      two releases with a slot written after each. */
  lemma SetTakeSteps(h: Heap, m: Ptr, key: Ptr, value: Ptr, i: nat, handles: multiset<Ptr>)
    requires Counted(h, handles + multiset{key, value}, -1) && IsEntry(h, m, i)
    requires Reachable(h, handles + multiset{key, value}, m)
    ensures
      var keys, values := h[m].body.keys, h[m].body.values;
      var r1 := Unref(h, keys[i]);
      && IsLive(r1.heap, m) && r1.heap[m].body == h[m].body
      && var r2 := Unref(Rebodied(r1.heap, m, Map(keys[i := key], values)), values[i]);
         && IsLive(r2.heap, m) && r2.heap[m].body == Map(keys[i := key], values)
         && SetTake(h, m, key, value, Some(i)).heap == Rebodied(r2.heap, m, Map(keys[i := key], values[i := value]))
  {
    var keys, values := h[m].body.keys, h[m].body.values;
    EntryWritten(h, m, key, value, i, handles, Map(keys[i := key], values), Map(keys[i := key], values[i := value]));
  }
}
