/** Values as trees, the two conversions of the Linux plugin on them, and their round trip.

    Both sides keep a map as parallel keys and values, and both set an entry by searching for
    the first equal key.  Two maps are never compared as keys here (see the README). */
module ValueTrees {
  import opened Common
  import opened ValueHeap

  datatype Tree<+S> = Leaf(value: S) | Items(items: seq<Tree<S>>) | Entries(keys: seq<Tree<S>>, values: seq<Tree<S>>)

  /** A Flutter value; its only float type is double, so `FlFloat` holds one. */
  datatype FlScalar =
    | FlNull
    | FlBool(b: bool)
    | FlInt(i: int)
    | FlFloat(d: Number)
    | FlString(chars: string)
    | FlUint8List(bytes: seq<int>)
    | FlInt32List(ints: seq<int>)
    | FlInt64List(longs: seq<int>)
    | FlFloat32List(floats: seq<Number>)
    | FlFloatList(doubles: seq<Number>)

  type WValue = Tree<Scalar>
  type FlValue = Tree<FlScalar>

  // ---- Equality ----

  /** `==` on floating-point numbers. */
  predicate NumberEq(a: Number, b: Number) {
    if a.NaN? || b.NaN? then false
    else if a.NegZero? then b.NegZero? || b == Real(0.0)
    else if b.NegZero? then a == Real(0.0)
    else a == b
  }

  predicate NumbersEq(a: seq<Number>, b: seq<Number>) {
    |a| == |b| && forall i :: 0 <= i < |a| ==> NumberEq(a[i], b[i])
  }

  predicate ScalarEq(a: Scalar, b: Scalar) {
    match (a, b)
    case (Float(x), Float(y)) => NumberEq(x, y)
    case (Double(x), Double(y)) => NumberEq(x, y)
    case (FloatList(x), FloatList(y)) => NumbersEq(x, y)
    case (DoubleList(x), DoubleList(y)) => NumbersEq(x, y)
    case _ => a == b
  }

  predicate FlScalarEq(a: FlScalar, b: FlScalar) {
    match (a, b)
    case (FlFloat(x), FlFloat(y)) => NumberEq(x, y)
    case (FlFloat32List(x), FlFloat32List(y)) => NumbersEq(x, y)
    case (FlFloatList(x), FlFloatList(y)) => NumbersEq(x, y)
    case _ => a == b
  }

  predicate TreeEq<S>(eq: (S, S) -> bool, a: Tree<S>, b: Tree<S>)
    decreases a
  {
    match a
    case Leaf(x) => b.Leaf? && eq(x, b.value)
    case Items(items) =>
      b.Items? && |items| == |b.items| && forall i :: 0 <= i < |items| ==> TreeEq(eq, items[i], b.items[i])
    case Entries(_, _) => false
  }

  predicate MapFree<S>(t: Tree<S>) {
    match t
    case Leaf(_) => true
    case Items(items) => forall i :: 0 <= i < |items| ==> MapFree(items[i])
    case Entries(_, _) => false
  }

  /** Keys and values are paired up, and no map is used as a key. */
  predicate Proper<S>(t: Tree<S>) {
    match t
    case Leaf(_) => true
    case Items(items) => forall i :: 0 <= i < |items| ==> Proper(items[i])
    case Entries(keys, values) =>
      && |keys| == |values|
      && (forall i :: 0 <= i < |keys| ==> MapFree(keys[i]) && Proper(keys[i]))
      && (forall i :: 0 <= i < |values| ==> Proper(values[i]))
  }

  // ---- Setting entries ----

  /** The key search: the first key equal to the given one. */
  function FindKey<S>(eq: (S, S) -> bool, keys: seq<Tree<S>>, key: Tree<S>): (found: Option<nat>)
    ensures found.Some? ==> found.value < |keys| && TreeEq(eq, keys[found.value], key)
    ensures found.Some? ==> forall i :: 0 <= i < found.value ==> !TreeEq(eq, keys[i], key)
    ensures found.None? ==> forall i :: 0 <= i < |keys| ==> !TreeEq(eq, keys[i], key)
  {
    if keys == [] then None
    else if TreeEq(eq, keys[0], key) then Some(0)
    else match FindKey(eq, keys[1..], key)
      case None => None
      case Some(i) => Some(i + 1)
  }

  function SetEntry<S>(eq: (S, S) -> bool, m: Tree<S>, key: Tree<S>, value: Tree<S>): (r: Tree<S>)
    requires m.Entries? && |m.keys| == |m.values|
    ensures r.Entries? && |r.keys| == |r.values|
  {
    match FindKey(eq, m.keys, key)
    case None => Entries(m.keys + [key], m.values + [value])
    case Some(i) => Entries(m.keys[i := key], m.values[i := value])
  }

  /** Setting entries one after the other, starting from the empty map. */
  function SetAll<S>(eq: (S, S) -> bool, keys: seq<Tree<S>>, values: seq<Tree<S>>): (r: Tree<S>)
    requires |keys| == |values|
    ensures r.Entries? && |r.keys| == |r.values| <= |keys|
  {
    if keys == [] then Entries([], [])
    else
      var n := |keys| - 1;
      SetEntry(eq, SetAll(eq, keys[..n], values[..n]), keys[n], values[n])
  }

  lemma SetAllNext<S>(eq: (S, S) -> bool, keys: seq<Tree<S>>, values: seq<Tree<S>>, i: nat)
    requires |keys| == |values| && i < |keys|
    ensures SetAll(eq, keys[..i + 1], values[..i + 1])
         == SetEntry(eq, SetAll(eq, keys[..i], values[..i]), keys[i], values[i])
  {
    assert keys[..i + 1][..i] == keys[..i] && values[..i + 1][..i] == values[..i];
  }

  /** No key is equal to an earlier one. */
  ghost predicate NoEqualKeys<S>(eq: (S, S) -> bool, keys: seq<Tree<S>>) {
    forall i, j :: 0 <= i < j < |keys| ==> !TreeEq(eq, keys[i], keys[j])
  }

  lemma {:induction false} SetAllDistinct<S>(eq: (S, S) -> bool, keys: seq<Tree<S>>, values: seq<Tree<S>>)
    requires |keys| == |values| && NoEqualKeys(eq, keys)
    ensures SetAll(eq, keys, values) == Entries(keys, values)
  {
    if keys != [] {
      var n := |keys| - 1;
      var ks, vs := keys[..n], values[..n];
      assert keys == ks + [keys[n]] && values == vs + [values[n]];
      assert forall i :: 0 <= i < n ==> ks[i] == keys[i];
      SetAllDistinct(eq, ks, vs);
      assert FindKey(eq, ks, keys[n]).None?;
      assert SetEntry(eq, Entries(ks, vs), keys[n], values[n]) == Entries(ks + [keys[n]], vs + [values[n]]);
    }
  }

  lemma {:induction false} SetAllFull<S>(eq: (S, S) -> bool, keys: seq<Tree<S>>, values: seq<Tree<S>>)
    requires |keys| == |values| && |SetAll(eq, keys, values).keys| == |keys|
    ensures NoEqualKeys(eq, keys)
  {
    if keys != [] {
      var n := |keys| - 1;
      var before := SetAll(eq, keys[..n], values[..n]);
      SetAllFull(eq, keys[..n], values[..n]);
      SetAllDistinct(eq, keys[..n], values[..n]);
      assert FindKey(eq, before.keys, keys[n]).None?;
      forall i, j | 0 <= i < j < |keys|
        ensures !TreeEq(eq, keys[i], keys[j])
      {
        assert j < n ==> !TreeEq(eq, keys[..n][i], keys[..n][j]);
        assert j == n ==> !TreeEq(eq, before.keys[i], keys[n]);
      }
    }
  }

  /** Setting entries loses none exactly when no two keys are equal, and then keeps their order. */
  lemma SetAllKeepsAll<S>(eq: (S, S) -> bool, keys: seq<Tree<S>>, values: seq<Tree<S>>)
    requires |keys| == |values|
    ensures |SetAll(eq, keys, values).keys| == |keys| <==> NoEqualKeys(eq, keys)
    ensures NoEqualKeys(eq, keys) ==> SetAll(eq, keys, values) == Entries(keys, values)
  {
    if NoEqualKeys(eq, keys) {
      SetAllDistinct(eq, keys, values);
    }
    if |SetAll(eq, keys, values).keys| == |keys| {
      SetAllFull(eq, keys, values);
    }
  }

  // ---- The two conversions ----

  function UpToNul(s: string): string {
    if s == [] || s[0] == '\0' then [] else [s[0]] + UpToNul(s[1..])
  }

  predicate NulFree(s: string) {
    forall i :: 0 <= i < |s| ==> s[i] != '\0'
  }

  lemma {:induction false} UpToNulKeeps(s: string)
    ensures UpToNul(s) == s <==> NulFree(s)
    ensures NulFree(UpToNul(s))
  {
    if s != [] {
      UpToNulKeeps(s[1..]);
      assert s == [s[0]] + s[1..];
    }
  }

  /** Strings pass through C strings, which end at their first NUL. */
  function ToScalar(f: FlScalar): Scalar {
    match f
    case FlNull => Null
    case FlBool(b) => Bool(b)
    case FlInt(i) => Int(i)
    case FlFloat(d) => Double(d)
    case FlString(s) => Text(UpToNul(s))
    case FlUint8List(b) => Uint8List(b)
    case FlInt32List(i) => Int32List(i)
    case FlInt64List(l) => Int64List(l)
    case FlFloat32List(f) => FloatList(f)
    case FlFloatList(d) => DoubleList(d)
  }

  /** A single float widens to a double. */
  function FromScalar(s: Scalar): FlScalar {
    match s
    case Null => FlNull
    case Bool(b) => FlBool(b)
    case Int(i) => FlInt(i)
    case Float(f) => FlFloat(f)
    case Double(d) => FlFloat(d)
    case Text(t) => FlString(UpToNul(t))
    case Uint8List(b) => FlUint8List(b)
    case Int32List(i) => FlInt32List(i)
    case Int64List(l) => FlInt64List(l)
    case FloatList(f) => FlFloat32List(f)
    case DoubleList(d) => FlFloatList(d)
  }

  function Decode(t: FlValue): (r: WValue)
    requires Proper(t)
  {
    match t
    case Leaf(f) => Leaf(ToScalar(f))
    case Items(items) => Items(seq(|items|, i requires 0 <= i < |items| => Decode(items[i])))
    case Entries(keys, values) =>
      SetAll(ScalarEq, seq(|keys|, i requires 0 <= i < |keys| => Decode(keys[i])),
             seq(|values|, i requires 0 <= i < |values| => Decode(values[i])))
  }

  function Encode(t: WValue): (r: FlValue)
    requires Proper(t)
  {
    match t
    case Leaf(s) => Leaf(FromScalar(s))
    case Items(items) => Items(seq(|items|, i requires 0 <= i < |items| => Encode(items[i])))
    case Entries(keys, values) =>
      SetAll(FlScalarEq, seq(|keys|, i requires 0 <= i < |keys| => Encode(keys[i])),
             seq(|values|, i requires 0 <= i < |values| => Encode(values[i])))
  }

  /** What a caller can check beforehand: no string holds a NUL and no map has equal keys. */
  ghost predicate Clean(t: FlValue) {
    match t
    case Leaf(f) => f.FlString? ==> NulFree(f.chars)
    case Items(items) => forall i :: 0 <= i < |items| ==> Clean(items[i])
    case Entries(keys, values) =>
      && (forall i :: 0 <= i < |keys| ==> Clean(keys[i]))
      && (forall i :: 0 <= i < |values| ==> Clean(values[i]))
      && NoEqualKeys(FlScalarEq, keys)
  }

  /** Setting entries only stores what it was given. */
  lemma {:induction false} SetAllStores<S>(eq: (S, S) -> bool, keys: seq<Tree<S>>, values: seq<Tree<S>>)
    requires |keys| == |values|
    ensures forall i :: 0 <= i < |SetAll(eq, keys, values).keys| ==>
      SetAll(eq, keys, values).keys[i] in keys && SetAll(eq, keys, values).values[i] in values
  {
    if keys != [] {
      var n := |keys| - 1;
      SetAllStores(eq, keys[..n], values[..n]);
      assert keys == keys[..n] + [keys[n]] && values == values[..n] + [values[n]];
    }
  }

  lemma {:induction false} DecodeProper(t: FlValue)
    requires Proper(t)
    ensures Proper(Decode(t)) && (MapFree(t) ==> MapFree(Decode(t)))
  {
    match t
    case Leaf(_) =>
    case Items(items) =>
      forall i | 0 <= i < |items|
        ensures Proper(Decode(items[i])) && (MapFree(items[i]) ==> MapFree(Decode(items[i])))
      {
        DecodeProper(items[i]);
      }
    case Entries(keys, values) =>
      forall i | 0 <= i < |keys|
        ensures Proper(Decode(keys[i])) && MapFree(Decode(keys[i])) && Proper(Decode(values[i]))
      {
        DecodeProper(keys[i]);
        DecodeProper(values[i]);
      }
      SetAllStores(ScalarEq, seq(|keys|, i requires 0 <= i < |keys| => Decode(keys[i])),
                   seq(|values|, i requires 0 <= i < |values| => Decode(values[i])));
  }

  /** A key with its strings cut at their first NUL. */
  function CutAtNul(t: FlValue): FlValue
    requires MapFree(t)
  {
    match t
    case Leaf(FlString(s)) => Leaf(FlString(UpToNul(s)))
    case Leaf(_) => t
    case Items(items) => Items(seq(|items|, i requires 0 <= i < |items| => CutAtNul(items[i])))
  }

  /** Decoding merges two keys exactly when they are equal up to the first NULs of their strings. */
  lemma {:induction false} DecodeMergesExactly(a: FlValue, b: FlValue)
    requires Proper(a) && Proper(b) && MapFree(a) && MapFree(b)
    ensures TreeEq(ScalarEq, Decode(a), Decode(b)) == TreeEq(FlScalarEq, CutAtNul(a), CutAtNul(b))
  {
    match a
    case Leaf(_) =>
    case Items(items) =>
      if b.Items? && |items| == |b.items| {
        forall i | 0 <= i < |items|
          ensures TreeEq(ScalarEq, Decode(items[i]), Decode(b.items[i]))
               == TreeEq(FlScalarEq, CutAtNul(items[i]), CutAtNul(b.items[i]))
        {
          DecodeMergesExactly(items[i], b.items[i]);
        }
        var da, db, ca, cb := Decode(a), Decode(b), CutAtNul(a), CutAtNul(b);
        assert forall i :: 0 <= i < |items| ==> da.items[i] == Decode(items[i]) && db.items[i] == Decode(b.items[i]);
        assert forall i :: 0 <= i < |items| ==>
          ca.items[i] == CutAtNul(items[i]) && cb.items[i] == CutAtNul(b.items[i]);
        assert TreeEq(ScalarEq, da, db) <==>
          forall i :: 0 <= i < |items| ==> TreeEq(ScalarEq, Decode(items[i]), Decode(b.items[i]));
      }
  }

  lemma {:induction false} CleanIsUncut(t: FlValue)
    requires MapFree(t) && Clean(t)
    ensures CutAtNul(t) == t
  {
    match t
    case Leaf(x) =>
      if x.FlString? {
        UpToNulKeeps(x.chars);
      }
    case Items(items) =>
      forall i | 0 <= i < |items|
        ensures CutAtNul(items[i]) == items[i]
      {
        CleanIsUncut(items[i]);
      }
  }

  function DecodeAll(ts: seq<FlValue>): (r: seq<WValue>)
    requires forall i :: 0 <= i < |ts| ==> Proper(ts[i])
    ensures |r| == |ts| && forall i :: 0 <= i < |ts| ==> r[i] == Decode(ts[i])
  {
    seq(|ts|, i requires 0 <= i < |ts| => Decode(ts[i]))
  }

  function EncodeAll(ts: seq<WValue>): (r: seq<FlValue>)
    requires forall i :: 0 <= i < |ts| ==> Proper(ts[i])
    ensures |r| == |ts| && forall i :: 0 <= i < |ts| ==> r[i] == Encode(ts[i])
  {
    seq(|ts|, i requires 0 <= i < |ts| => Encode(ts[i]))
  }

  lemma DecodeEntries(keys: seq<FlValue>, values: seq<FlValue>)
    requires Proper(Entries(keys, values))
    ensures Decode(Entries(keys, values)) == SetAll(ScalarEq, DecodeAll(keys), DecodeAll(values))
  {
    assert DecodeAll(keys) == seq(|keys|, i requires 0 <= i < |keys| => Decode(keys[i]));
    assert DecodeAll(values) == seq(|values|, i requires 0 <= i < |values| => Decode(values[i]));
  }

  lemma EncodeEntries(keys: seq<WValue>, values: seq<WValue>)
    requires Proper(Entries(keys, values))
    ensures Encode(Entries(keys, values)) == SetAll(FlScalarEq, EncodeAll(keys), EncodeAll(values))
  {
    assert EncodeAll(keys) == seq(|keys|, i requires 0 <= i < |keys| => Encode(keys[i]));
    assert EncodeAll(values) == seq(|values|, i requires 0 <= i < |values| => Encode(values[i]));
  }

  function RoundTrip(t: FlValue): FlValue
    requires Proper(t)
  {
    DecodeProper(t);
    Encode(Decode(t))
  }

  ghost predicate AllReturn(ts: seq<FlValue>) {
    forall i :: 0 <= i < |ts| ==> Proper(ts[i]) && RoundTrip(ts[i]) == ts[i]
  }

  /** Main result 1: sending a value to the plugin and back gives the same value exactly when
      none of its strings holds a NUL and no map in it has two equal keys. */
  lemma {:induction false} RoundTripExactly(t: FlValue)
    requires Proper(t)
    ensures RoundTrip(t) == t <==> Clean(t)
  {
    DecodeProper(t);
    match t
    case Leaf(f) =>
      if f.FlString? {
        UpToNulKeeps(f.chars);
        UpToNulKeeps(UpToNul(f.chars));
      }
    case Items(items) =>
      forall i | 0 <= i < |items|
        ensures Proper(Decode(items[i])) && (RoundTrip(items[i]) == items[i] <==> Clean(items[i]))
      {
        DecodeProper(items[i]);
        RoundTripExactly(items[i]);
      }
      RoundTripItems(items);
    case Entries(keys, values) =>
      forall i | 0 <= i < |keys|
        ensures RoundTrip(keys[i]) == keys[i] <==> Clean(keys[i])
        ensures RoundTrip(values[i]) == values[i] <==> Clean(values[i])
      {
        RoundTripExactly(keys[i]);
        RoundTripExactly(values[i]);
      }
      if RoundTrip(t) == t {
        EntriesReturned(keys, values);
      }
      if Clean(t) {
        EntriesReturn(keys, values);
      }
  }

  lemma RoundTripItems(items: seq<FlValue>)
    requires Proper(Items(items))
    ensures RoundTrip(Items(items)) == Items(items) <==> AllReturn(items)
  {
    DecodeProper(Items(items));
    var back := RoundTrip(Items(items)).items;
    assert |back| == |items|;
    assert forall i :: 0 <= i < |items| ==> back[i] == RoundTrip(items[i]);
  }

  /** No entry is lost on the way back, so every key and value came back as itself. */
  lemma EntriesReturned(keys: seq<FlValue>, values: seq<FlValue>)
    requires Proper(Entries(keys, values)) && RoundTrip(Entries(keys, values)) == Entries(keys, values)
    ensures AllReturn(keys) && AllReturn(values) && NoEqualKeys(FlScalarEq, keys)
  {
    DecodeProper(Entries(keys, values));
    DecodeEntries(keys, values);
    var m := Decode(Entries(keys, values));
    EncodeEntries(m.keys, m.values);
    SetAllKeepsAll(ScalarEq, DecodeAll(keys), DecodeAll(values));
    SetAllKeepsAll(FlScalarEq, EncodeAll(m.keys), EncodeAll(m.values));
    assert m == Entries(DecodeAll(keys), DecodeAll(values));
    assert EncodeAll(m.keys) == keys && EncodeAll(m.values) == values;
    forall i | 0 <= i < |keys|
      ensures RoundTrip(keys[i]) == keys[i] && RoundTrip(values[i]) == values[i]
    {
      assert EncodeAll(m.keys)[i] == Encode(m.keys[i]) && EncodeAll(m.values)[i] == Encode(m.values[i]);
    }
  }

  lemma DecodedKeysDiffer(keys: seq<FlValue>)
    requires forall i :: 0 <= i < |keys| ==> Proper(keys[i]) && MapFree(keys[i]) && Clean(keys[i])
    requires NoEqualKeys(FlScalarEq, keys)
    ensures NoEqualKeys(ScalarEq, DecodeAll(keys))
  {
    forall i, j | 0 <= i < j < |keys|
      ensures !TreeEq(ScalarEq, DecodeAll(keys)[i], DecodeAll(keys)[j])
    {
      CleanIsUncut(keys[i]);
      CleanIsUncut(keys[j]);
      DecodeMergesExactly(keys[i], keys[j]);
    }
  }

  lemma EntriesReturn(keys: seq<FlValue>, values: seq<FlValue>)
    requires Proper(Entries(keys, values))
    requires AllReturn(keys) && AllReturn(values) && NoEqualKeys(FlScalarEq, keys)
    requires forall i :: 0 <= i < |keys| ==> Clean(keys[i])
    ensures RoundTrip(Entries(keys, values)) == Entries(keys, values)
  {
    DecodeProper(Entries(keys, values));
    DecodeEntries(keys, values);
    var dk, dv := DecodeAll(keys), DecodeAll(values);
    DecodedKeysDiffer(keys);
    SetAllKeepsAll(ScalarEq, dk, dv);
    EncodeEntries(dk, dv);
    assert forall i :: 0 <= i < |keys| ==>
      EncodeAll(dk)[i] == RoundTrip(keys[i]) && EncodeAll(dv)[i] == RoundTrip(values[i]);
    assert EncodeAll(dk) == keys && EncodeAll(dv) == values;
    SetAllKeepsAll(FlScalarEq, keys, values);
  }

  // ---- What equality means ----

  /** The number itself; both zeros are the same one. */
  function NumberValue(n: Number): Option<real> {
    match n
    case Real(r) => Some(r)
    case NegZero => Some(0.0)
    case _ => None
  }

  /** Finite numbers are equal by value, infinities to themselves, and what is no number to nothing. */
  lemma NumberEqExactly(a: Number, b: Number)
    ensures NumberEq(a, b) <==>
      if NumberValue(a).Some? then NumberValue(a) == NumberValue(b) else a == b && !a.NaN?
  {
  }

  /** The type tag of a plugin value. */
  function TypeOf(s: Scalar): nat {
    match s
    case Null => 0
    case Bool(_) => 1
    case Int(_) => 2
    case Float(_) => 3
    case Double(_) => 4
    case Text(_) => 5
    case Uint8List(_) => 6
    case Int32List(_) => 7
    case Int64List(_) => 8
    case FloatList(_) => 9
    case DoubleList(_) => 10
  }

  /** The numbers inside a scalar that `==` compares as such. */
  function NumbersIn(s: Scalar): seq<Number> {
    match s
    case Float(f) => [f]
    case Double(d) => [d]
    case FloatList(f) => f
    case DoubleList(d) => d
    case _ => []
  }

  /** Scalars are equal if they have one type and their numbers, or else all they hold, are equal. */
  lemma ScalarEqExactly(a: Scalar, b: Scalar)
    ensures ScalarEq(a, b) <==>
      TypeOf(a) == TypeOf(b) && if HoldsNumbers(a) then NumbersEq(NumbersIn(a), NumbersIn(b)) else a == b
  {
    if HoldsNumbers(a) && TypeOf(a) == TypeOf(b) {
      assert |NumbersIn(a)| == 1 == |NumbersIn(b)| ==>
        (NumbersEq(NumbersIn(a), NumbersIn(b)) <==> NumberEq(NumbersIn(a)[0], NumbersIn(b)[0]));
    }
  }

  predicate HoldsNumbers(s: Scalar) {
    s.Float? || s.Double? || s.FloatList? || s.DoubleList?
  }

  lemma ScalarEqIsPartialEquivalence(a: Scalar, b: Scalar, c: Scalar)
    ensures ScalarEq(a, b) ==> ScalarEq(b, a)
    ensures ScalarEq(a, b) && ScalarEq(b, c) ==> ScalarEq(a, c)
  {
  }

  lemma {:induction false} EqIsSymmetric(a: WValue, b: WValue)
    requires TreeEq(ScalarEq, a, b)
    ensures TreeEq(ScalarEq, b, a)
    decreases a
  {
    match a
    case Leaf(x) => ScalarEqIsPartialEquivalence(x, b.value, x);
    case Items(items) =>
      forall i | 0 <= i < |items|
        ensures TreeEq(ScalarEq, b.items[i], items[i])
      {
        EqIsSymmetric(items[i], b.items[i]);
      }
    case Entries(_, _) =>
  }

  lemma {:induction false} EqIsTransitive(a: WValue, b: WValue, c: WValue)
    requires TreeEq(ScalarEq, a, b) && TreeEq(ScalarEq, b, c)
    ensures TreeEq(ScalarEq, a, c)
    decreases a
  {
    match a
    case Leaf(x) => ScalarEqIsPartialEquivalence(x, b.value, c.value);
    case Items(items) =>
      forall i | 0 <= i < |items|
        ensures TreeEq(ScalarEq, items[i], c.items[i])
      {
        EqIsTransitive(items[i], b.items[i], c.items[i]);
      }
    case Entries(_, _) =>
  }

  // ---- Reading a value ----

  function GetBool(v: Option<WValue>): bool {
    v.Some? && v.value.Leaf? && v.value.value.Bool? && v.value.value.b
  }

  function GetInt(v: Option<WValue>): int {
    if v.Some? && v.value.Leaf? && v.value.value.Int? then v.value.value.i else 0
  }

  function GetFloat(v: Option<WValue>): Number {
    if v.Some? && v.value.Leaf? && v.value.value.Float? then v.value.value.f else Real(0.0)
  }

  function GetDouble(v: Option<WValue>): Number {
    if v.Some? && v.value.Leaf? && v.value.value.Double? then v.value.value.d else Real(0.0)
  }

  function GetString(v: Option<WValue>): Option<string> {
    if v.Some? && v.value.Leaf? && v.value.value.Text? then Some(v.value.value.chars) else None
  }

  function GetUint8List(v: Option<WValue>): Option<seq<int>> {
    if v.Some? && v.value.Leaf? && v.value.value.Uint8List? then Some(v.value.value.bytes) else None
  }

  function GetInt32List(v: Option<WValue>): Option<seq<int>> {
    if v.Some? && v.value.Leaf? && v.value.value.Int32List? then Some(v.value.value.ints) else None
  }

  function GetInt64List(v: Option<WValue>): Option<seq<int>> {
    if v.Some? && v.value.Leaf? && v.value.value.Int64List? then Some(v.value.value.longs) else None
  }

  function GetFloatList(v: Option<WValue>): Option<seq<Number>> {
    if v.Some? && v.value.Leaf? && v.value.value.FloatList? then Some(v.value.value.floats) else None
  }

  function GetDoubleList(v: Option<WValue>): Option<seq<Number>> {
    if v.Some? && v.value.Leaf? && v.value.value.DoubleList? then Some(v.value.value.doubles) else None
  }

  function GetListValue(v: Option<WValue>, i: nat): Option<WValue> {
    if v.Some? && v.value.Items? && i < |v.value.items| then Some(v.value.items[i]) else None
  }

  function GetByKey(v: Option<WValue>, key: WValue): Option<WValue>
    requires v.Some? && v.value.Entries? ==> |v.value.keys| == |v.value.values|
  {
    if v.None? || !v.value.Entries? then None
    else match FindKey(ScalarEq, v.value.keys, key)
      case None => None
      case Some(i) => Some(v.value.values[i])
  }

  /** The beginning of a string in front of its first NUL. */
  ghost predicate IsUpToNul(s: string, t: string) {
    t <= s && NulFree(t) && (|t| < |s| ==> s[|t|] == '\0')
  }

  lemma {:induction false} UpToNulIs(s: string)
    ensures IsUpToNul(s, UpToNul(s))
  {
    if s != "" && s[0] != '\0' {
      UpToNulIs(s[1..]);
      assert s == [s[0]] + s[1..];
    }
  }

  /** Main result 2: the plugin reads of a decoded value what Flutter sent.  Every reader gives the value if it has the
      reader's type, strings up to their first NUL, and the reader's default for any other type. */
  lemma DecodedReadsAsSent(fl: FlValue)
    requires Proper(fl)
    ensures
      var v, f := Some(Decode(fl)), if fl.Leaf? then fl.value else FlNull;
      && GetBool(v) == (f.FlBool? && f.b)
      && GetInt(v) == (if f.FlInt? then f.i else 0)
      && GetDouble(v) == (if f.FlFloat? then f.d else Real(0.0))
      && GetFloat(v) == Real(0.0)
      && (GetString(v).Some? <==> f.FlString?)
      && (f.FlString? ==> IsUpToNul(f.chars, GetString(v).value))
      && GetUint8List(v) == (if f.FlUint8List? then Some(f.bytes) else None)
      && GetInt32List(v) == (if f.FlInt32List? then Some(f.ints) else None)
      && GetInt64List(v) == (if f.FlInt64List? then Some(f.longs) else None)
      && GetFloatList(v) == (if f.FlFloat32List? then Some(f.floats) else None)
      && GetDoubleList(v) == (if f.FlFloatList? then Some(f.doubles) else None)
      && (f.FlNull? && fl.Leaf? ==> Decode(fl) == Leaf(Null))
  {
    if fl.Leaf? && fl.value.FlString? {
      UpToNulIs(fl.value.chars);
    }
  }

  /** Items are read at the places where they were sent. */
  lemma DecodedItems(fl: FlValue, i: nat)
    requires Proper(fl)
    ensures GetListValue(Some(Decode(fl)), i)
         == if fl.Items? && i < |fl.items| then Some(Decode(fl.items[i])) else None
  {
  }

  /** The plugin's values come back from Flutter as themselves, except that a single float widens to a
      double and a string ends at its first NUL. */
  lemma EncodedComesBack(s: Scalar)
    ensures
      var back := Decode(Encode(Leaf(s)));
      match s
      case Float(f) => back == Leaf(Double(f))
      case Text(t) => back.Leaf? && back.value.Text? && IsUpToNul(t, back.value.chars)
      case _ => back == Leaf(s)
  {
    if s.Text? {
      UpToNulIs(s.chars);
      UpToNulKeeps(UpToNul(s.chars));
    }
  }

  // ---- Looking up a key ----

  /** `i` is the last place at which an equal key was sent. */
  ghost predicate IsLastEqual(keys: seq<WValue>, key: WValue, i: int) {
    && 0 <= i < |keys| && TreeEq(ScalarEq, keys[i], key)
    && forall j :: i < j < |keys| ==> !TreeEq(ScalarEq, keys[j], key)
  }

  ghost predicate NoneEqual(keys: seq<WValue>, key: WValue) {
    forall i :: 0 <= i < |keys| ==> !TreeEq(ScalarEq, keys[i], key)
  }

  /** After one more entry a key finds that entry if its key is equal, and otherwise what it found before. */
  lemma FoundAfterSet(m: WValue, key: WValue, value: WValue, k: WValue)
    requires m.Entries? && |m.keys| == |m.values|
    ensures GetByKey(Some(SetEntry(ScalarEq, m, key, value)), k)
         == if TreeEq(ScalarEq, key, k) then Some(value) else GetByKey(Some(m), k)
  {
    var m' := SetEntry(ScalarEq, m, key, value);
    var at := FindKey(ScalarEq, m.keys, key);
    if TreeEq(ScalarEq, key, k) {
      forall j | 0 <= j < |m.keys| && TreeEq(ScalarEq, m.keys[j], k)
        ensures TreeEq(ScalarEq, m.keys[j], key)
      {
        EqIsSymmetric(key, k);
        EqIsTransitive(m.keys[j], k, key);
      }
      assert m'.keys[if at.Some? then at.value else |m.keys|] == key;
    } else {
      if at.Some? && TreeEq(ScalarEq, m.keys[at.value], k) {
        EqIsSymmetric(m.keys[at.value], key);
        EqIsTransitive(key, m.keys[at.value], k);
      }
      SameFound(m.keys, m'.keys, key, k, at);
    }
  }

  lemma SameFound(keys: seq<WValue>, keys': seq<WValue>, key: WValue, k: WValue, at: Option<nat>)
    requires !TreeEq(ScalarEq, key, k)
    requires at.None? ==> keys' == keys + [key]
    requires at.Some? ==> at.value < |keys| && keys' == keys[at.value := key] && !TreeEq(ScalarEq, keys[at.value], k)
    ensures FindKey(ScalarEq, keys', k) == FindKey(ScalarEq, keys, k)
  {
    var found, found' := FindKey(ScalarEq, keys, k), FindKey(ScalarEq, keys', k);
    if found.Some? {
      assert keys'[found.value] == keys[found.value];
    }
    if found'.Some? {
      assert found'.value < |keys| && keys'[found'.value] == keys[found'.value];
    }
  }

  lemma {:induction false} FoundInAll(keys: seq<WValue>, values: seq<WValue>, k: WValue)
    requires |keys| == |values|
    ensures
      var found := GetByKey(Some(SetAll(ScalarEq, keys, values)), k);
      && (found.None? <==> NoneEqual(keys, k))
      && (found.Some? ==> exists i :: IsLastEqual(keys, k, i) && found.value == values[i])
  {
    if keys != [] {
      var n := |keys| - 1;
      var m := SetAll(ScalarEq, keys[..n], values[..n]);
      FoundInAll(keys[..n], values[..n], k);
      FoundAfterSet(m, keys[n], values[n], k);
      if TreeEq(ScalarEq, keys[n], k) {
        assert IsLastEqual(keys, k, n);
      } else {
        EqualBefore(keys, k);
        if GetByKey(Some(m), k).Some? {
          var i :| IsLastEqual(keys[..n], k, i) && GetByKey(Some(m), k).value == values[..n][i];
          assert IsLastEqual(keys, k, i) && values[..n][i] == values[i];
        }
      }
    }
  }

  /** If the last key is not equal, the last equal one is among those before. */
  lemma EqualBefore(keys: seq<WValue>, k: WValue)
    requires keys != [] && !TreeEq(ScalarEq, keys[|keys| - 1], k)
    ensures forall i :: IsLastEqual(keys[..|keys| - 1], k, i) ==> IsLastEqual(keys, k, i)
    ensures NoneEqual(keys, k) <==> NoneEqual(keys[..|keys| - 1], k)
  {
    var n := |keys| - 1;
    assert forall i :: 0 <= i < n ==> keys[i] == keys[..n][i];
  }

  /** Main result 3: looking up a key in a decoded map gives the value that was sent last under an equal key, and
      nothing exactly if no equal key was sent. */
  lemma LookupExactly(fl: FlValue, key: FlValue)
    requires Proper(fl) && fl.Entries? && Proper(key) && MapFree(key)
    ensures
      var found, keys := GetByKey(Some(Decode(fl)), Decode(key)), DecodeAll(fl.keys);
      && (found.None? <==> NoneEqual(keys, Decode(key)))
      && (found.Some? ==>
            exists i :: IsLastEqual(keys, Decode(key), i) && found.value == Decode(fl.values[i]))
  {
    DecodeEntries(fl.keys, fl.values);
    FoundInAll(DecodeAll(fl.keys), DecodeAll(fl.values), Decode(key));
    DecodeProper(fl);
  }
}
