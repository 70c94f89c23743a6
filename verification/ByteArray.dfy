/** CByteArray: integers stored little-endian in a fixed number of bytes. */
module ByteArrays {
  import opened Csr

  type Byte = b: nat | b < 256 witness 0

  const WORD: nat := 8    // sizeof(uint64_t)

  function Pow256(k: nat): (p: nat)
    ensures p >= 1
  {
    if k == 0 then 1 else 256 * Pow256(k - 1)
  }

  /** The low `k` bytes of a value, least significant first. */
  function Encode(value: nat, k: nat): (bytes: seq<Byte>)
    ensures |bytes| == k
  {
    if k == 0 then [] else [value % 256] + Encode(value / 256, k - 1)
  }

  function Decode(bytes: seq<Byte>): nat
  {
    if bytes == [] then 0 else bytes[0] + 256 * Decode(bytes[1..])
  }

  // ----- what fits in k bytes

  /** What is left of a value after it was stored in `k` bytes. */
  function Truncated(value: nat, k: nat): nat
  {
    value % Pow256(k)
  }

  lemma DivMod(value: nat, p: nat)
    requires p >= 1
    ensures value % (256 * p) == value % 256 + 256 * (value / 256 % p)
  {
    var d, r := value / 256, value % 256;
    var q, s := d / p, d % p;
    assert value == 256 * d + r && d == p * q + s;
    assert value == (256 * p) * q + (256 * s + r) by {
      assert 256 * (p * q) == (256 * p) * q;
    }
    assert s <= p - 1;
    RemainderIs(value, 256 * p, q, 256 * s + r);
  }

  lemma RemainderIs(value: nat, p: nat, q: nat, r: nat)
    requires r < p && value == p * q + r
    ensures value % p == r
  {
    var q2, r2 := value / p, value % p;
    assert value == p * q2 + r2;
    if q2 < q {
      MultipleGap(p, q2, q);
    } else if q < q2 {
      MultipleGap(p, q, q2);
    }
  }

  lemma {:induction false} MultipleGap(p: nat, a: nat, b: nat)
    requires a < b
    ensures p * a + p <= p * b
  {
    if a + 1 < b {
      MultipleGap(p, a, b - 1);
    }
    assert p * b == p * (b - 1) + p;
  }

  lemma {:induction false} DecodeEncode(value: nat, k: nat)
    ensures Decode(Encode(value, k)) == Truncated(value, k)
  {
    if k > 0 {
      DecodeEncode(value / 256, k - 1);
      assert Encode(value, k)[1..] == Encode(value / 256, k - 1);
      DivMod(value, Pow256(k - 1));
    }
  }

  lemma FitsIsKept(value: nat, k: nat)
    ensures Truncated(value, k) == value <==> value < Pow256(k)
    ensures Truncated(value, k) < Pow256(k)
  {
    RemainderFits(value, Pow256(k));
  }

  lemma RemainderFits(value: nat, p: nat)
    requires p >= 1
    ensures value % p == value <==> value < p
    ensures value % p < p
  {
    if value < p {
      RemainderIs(value, p, 0, value);
    }
  }

  lemma {:induction false} EncodePrefix(value: nat, k: nat, j: nat)
    requires j <= k
    ensures Encode(value, k)[..j] == Encode(value, j)
  {
    if j > 0 {
      EncodePrefix(value / 256, k - 1, j - 1);
      assert Encode(value, k)[..j] == [value % 256] + Encode(value / 256, k - 1)[..j - 1];
    }
  }

  lemma {:induction false} DecodePadded(bytes: seq<Byte>, zeros: seq<Byte>)
    requires forall i :: 0 <= i < |zeros| ==> zeros[i] == 0
    ensures Decode(bytes + zeros) == Decode(bytes)
  {
    if bytes == [] {
      assert bytes + zeros == zeros;
      DecodeZeros(zeros);
    } else {
      assert (bytes + zeros)[1..] == bytes[1..] + zeros;
      DecodePadded(bytes[1..], zeros);
    }
  }

  lemma {:induction false} DecodeZeros(zeros: seq<Byte>)
    requires forall i :: 0 <= i < |zeros| ==> zeros[i] == 0
    ensures Decode(zeros) == 0
  {
    if zeros != [] {
      DecodeZeros(zeros[1..]);
    }
  }

  // ----- how many bytes

  function Pow2(k: nat): (p: nat)
    ensures p >= 1
  {
    if k == 0 then 1 else 2 * Pow2(k - 1)
  }

  /** `ceil(log2(value))`: the least number of bits `b` with `value <= 2^b`. */
  function CeilLog2(value: nat): (b: nat)
  {
    if value <= 1 then 0 else CeilLog2((value + 1) / 2) + 1
  }

  /** `compute_bytes_per_elements`; of 0 there is no logarithm, here it needs no bytes. */
  function BytesPerElement(value: nat): nat
  {
    (CeilLog2(value) + 7) / 8
  }

  lemma {:induction false} CeilLog2Is(value: nat)
    requires value >= 1
    ensures value <= Pow2(CeilLog2(value))
    ensures CeilLog2(value) > 0 ==> Pow2(CeilLog2(value) - 1) < value
  {
    if value > 1 {
      CeilLog2Is((value + 1) / 2);
    }
  }

  lemma {:induction false} Pow2Monotone(a: nat, b: nat)
    requires a <= b
    ensures Pow2(a) <= Pow2(b)
    ensures a < b ==> Pow2(a) < Pow2(b)
  {
    if a < b {
      Pow2Monotone(a, b - 1);
    }
  }

  lemma {:induction false} Pow256IsPow2(k: nat)
    ensures Pow256(k) == Pow2(8 * k)
  {
    if k > 0 {
      Pow256IsPow2(k - 1);
      assert Pow2(8 * k) == 2 * Pow2(8 * k - 1) == 4 * Pow2(8 * k - 2) == 8 * Pow2(8 * k - 3) == 16 * Pow2(8 * k - 4);
      assert Pow2(8 * k - 4) == 2 * Pow2(8 * k - 5) == 4 * Pow2(8 * k - 6) == 8 * Pow2(8 * k - 7) ==
        16 * Pow2(8 * k - 8);
    }
  }

  /**
   The number of bytes is the least `k` with `value <= 256^k`: values below `value` fit, and one byte less would not do.
   */
  lemma BytesPerElementIs(value: nat)
    requires value >= 1
    ensures value <= Pow256(BytesPerElement(value))
    ensures BytesPerElement(value) > 0 ==> Pow256(BytesPerElement(value) - 1) < value
    ensures BytesPerElement(value) > 0 <==> value > 1
  {
    var b, k := CeilLog2(value), BytesPerElement(value);
    CeilLog2Is(value);
    Pow256IsPow2(k);
    Pow2Monotone(b, 8 * k);
    if k > 0 {
      Pow256IsPow2(k - 1);
      Pow2Monotone(8 * (k - 1), b - 1);
    }
  }

  predicate PowerOf256(value: nat)
  {
    value == Pow256(BytesPerElement(value))
  }

  lemma {:induction false} Pow256Monotone(a: nat, b: nat)
    requires a < b
    ensures Pow256(a) < Pow256(b)
  {
    if a < b - 1 {
      Pow256Monotone(a, b - 1);
    }
  }

  /** The predicate means what its name says. */
  lemma PowerOf256Is(value: nat)
    requires value >= 1
    ensures PowerOf256(value) <==> exists k: nat :: value == Pow256(k)
  {
    BytesPerElementIs(value);
    if k: nat :| value == Pow256(k) {
      var n := BytesPerElement(value);
      if k < n - 1 {
        Pow256Monotone(k, n - 1);
      } else if n < k {
        Pow256Monotone(n, k);
      }
    }
  }

  /** A value fits in the bytes computed for it if and only if it is not a power of 256. */
  lemma FitsItselfIff(value: nat)
    requires value > 1
    ensures value < Pow256(BytesPerElement(value)) <==> !PowerOf256(value)
  {
    BytesPerElementIs(value);
  }

  // ----- the array

  lemma SlotBound(i: nat, b: nat, capacity: nat)
    requires i < capacity
    ensures i * b + b <= b * capacity
  {
    MultipleGap(b, i, capacity);
    assert i * b == b * i;
  }

  lemma SlotsApart(i: nat, j: nat, b: nat)
    requires i < j
    ensures i * b + b <= j * b
  {
    MultipleGap(b, i, j);
    assert i * b == b * i && j * b == b * j;
  }

  /** The bytes of element `i`. */
  function Slot(data: seq<Byte>, b: nat, i: nat): (s: seq<Byte>)
    requires i * b + b <= |data|
    ensures |s| == b
  {
    data[i * b..i * b + b]
  }

  /** The stored values. */
  function Values(data: seq<Byte>, b: nat, capacity: nat): (vs: seq<nat>)
    requires |data| == b * capacity
    ensures |vs| == capacity
    ensures forall i: nat :: i < capacity ==> i * b + b <= |data| && vs[i] == Decode(Slot(data, b, i))
  {
    assert forall i: nat :: i < capacity ==> i * b + b <= |data| by {
      forall i: nat | i < capacity ensures i * b + b <= |data| { SlotBound(i, b, capacity); }
    }
    seq(capacity, i requires 0 <= i < capacity => Decode(Slot(data, b, i)))
  }

  class CByteArray {
    var bytesPerElement: nat
    var capacity: nat
    var data: array<Byte>

    ghost predicate Valid()
      reads this
    {
      0 < bytesPerElement <= WORD && data.Length == bytesPerElement * capacity
    }

    ghost function Contents(): (vs: seq<nat>)
      reads this, data
      requires Valid()
      ensures |vs| == capacity
    {
      Values(data[..], bytesPerElement, capacity)
    }

    constructor (bytes: nat, size: nat)
      requires 0 < bytes <= WORD
      ensures Valid() && bytesPerElement == bytes && capacity == size && fresh(data)
    {
      bytesPerElement, capacity := bytes, size;
      data := new Byte[bytes * size];
    }

    method GetValueAt(index: nat) returns (value: nat)
      requires Valid() && index < capacity
      ensures value == Contents()[index]
    {
      var b := bytesPerElement;
      SlotBound(index, b, capacity);
      var base := index * b;
      ghost var slot := Slot(data[..], b, index);
      var u: seq<Byte> := seq(WORD, _ => 0);
      for i := 0 to b
        invariant |u| == WORD && u[..i] == slot[..i] && forall j :: i <= j < WORD ==> u[j] == 0
      {
        u := u[i := data[base + i]];
        assert u[..i + 1] == slot[..i + 1];
      }
      assert u == slot + u[b..];
      DecodePadded(slot, u[b..]);
      value := Decode(u);
    }

    /** Stores what fits of the value, and disturbs no other element. */
    method SetValueAt(index: nat, value: nat)
      requires Valid() && index < capacity
      modifies data
      ensures Valid() && Contents() == old(Contents())[index := Truncated(value, bytesPerElement)]
    {
      var b := bytesPerElement;
      SlotBound(index, b, capacity);
      var base := index * b;
      var u := Encode(value, WORD);
      ghost var before := data[..];
      for i := 0 to b
        invariant data.Length == |before|
        invariant forall j :: 0 <= j < data.Length ==>
          data[j] == if base <= j < base + i then u[j - base] else before[j]
      {
        data[base + i] := u[i];
      }
      EncodePrefix(value, WORD, b);
      StoredIs(before, data[..], b, capacity, index, value);
    }
  }

  lemma StoredIs(before: seq<Byte>, after: seq<Byte>, b: nat, capacity: nat, index: nat, value: nat)
    requires index < capacity && |before| == |after| == b * capacity && index * b + b <= |before|
    requires forall j :: 0 <= j < |after| ==>
      after[j] == if index * b <= j < index * b + b then Encode(value, b)[j - index * b] else before[j]
    ensures Values(after, b, capacity) == Values(before, b, capacity)[index := Truncated(value, b)]
  {
    hide *;
    StoredSlot(before, after, b, index, value);
    DecodeEncode(value, b);
    var old', new' := Values(before, b, capacity), Values(after, b, capacity);
    forall i: nat | i < capacity
      ensures new'[i] == old'[index := Truncated(value, b)][i]
    {
      SlotBound(i, b, capacity);
      if i != index {
        OtherSlot(before, after, b, index, i);
      }
    }
  }

  lemma StoredSlot(before: seq<Byte>, after: seq<Byte>, b: nat, index: nat, value: nat)
    requires |before| == |after| && index * b + b <= |before|
    requires forall j :: 0 <= j < |after| ==>
      after[j] == if index * b <= j < index * b + b then Encode(value, b)[j - index * b] else before[j]
    ensures Slot(after, b, index) == Encode(value, b)
  {
    hide Encode;
    var start := index * b;
    assert after[start..start + b] == Encode(value, b);
  }

  lemma OtherSlot(before: seq<Byte>, after: seq<Byte>, b: nat, index: nat, i: nat)
    requires |before| == |after| && i != index && i * b + b <= |before|
    requires forall j :: 0 <= j < |after| && !(index * b <= j < index * b + b) ==> after[j] == before[j]
    ensures Slot(after, b, i) == Slot(before, b, i)
  {
    if i < index {
      SlotsApart(i, index, b);
    } else {
      SlotsApart(index, i, b);
    }
  }

  /** The constructor raises an exception unless an element takes between 1 and 8 bytes. */
  method Create(bytes: nat, size: nat) returns (result: Option<CByteArray>)
    ensures result.Some? <==> 0 < bytes <= 8
    ensures result.Some? ==> fresh(result.value) && fresh(result.value.data) && result.value.Valid()
    ensures result.Some? ==> result.value.bytesPerElement == bytes && result.value.capacity == size
  {
    if bytes <= 0 || bytes > WORD {
      return None;
    }
    var created := new CByteArray(bytes, size);
    result := Some(created);
  }

  // ----- merge

  /** The arrays that are there have elements of one size. */
  ghost predicate SameWidth(arrays: seq<CByteArray?>)
    reads set a | a in arrays && a != null
  {
    forall i, j :: 0 <= i < |arrays| && 0 <= j < |arrays| && arrays[i] != null && arrays[j] != null ==>
      arrays[i].bytesPerElement == arrays[j].bytesPerElement
  }

  ghost predicate AllValid(arrays: seq<CByteArray?>)
    reads set a | a in arrays && a != null
  {
    forall a :: a in arrays && a != null ==> a.Valid()
  }

  /** What the merged array holds: the contents of the arrays one after the other. */
  ghost function Joined(arrays: seq<CByteArray?>): seq<nat>
    reads set a | a in arrays && a != null
    reads set a | a in arrays && a != null :: a.data
    requires AllValid(arrays)
  {
    if arrays == [] then []
    else
      var last := arrays[|arrays| - 1];
      assert forall a :: a in arrays[..|arrays| - 1] ==> a in arrays;
      assert last in arrays;
      Joined(arrays[..|arrays| - 1]) + if last == null then [] else last.Contents()
  }

  lemma SlotOfFirst(first: seq<Byte>, second: seq<Byte>, b: nat, i: nat)
    requires i * b + b <= |first|
    ensures Slot(first + second, b, i) == Slot(first, b, i)
  {
  }

  lemma SlotOfSecond(first: seq<Byte>, second: seq<Byte>, b: nat, c: nat, i: nat)
    requires |first| == b * c && i * b + b <= |second|
    ensures (c + i) * b == b * c + i * b
    ensures Slot(first + second, b, c + i) == Slot(second, b, i)
  {
    assert (c + i) * b == c * b + i * b == b * c + i * b;
  }

  lemma ValuesAppend(first: seq<Byte>, second: seq<Byte>, b: nat, c1: nat, c2: nat)
    requires |first| == b * c1 && |second| == b * c2
    ensures |first + second| == b * (c1 + c2)
    ensures Values(first + second, b, c1 + c2) == Values(first, b, c1) + Values(second, b, c2)
  {
    assert b * (c1 + c2) == b * c1 + b * c2;
    var all := first + second;
    hide Slot, Decode;
    forall i: nat | i < c1
      ensures Values(all, b, c1 + c2)[i] == Values(first, b, c1)[i]
    {
      SlotBound(i, b, c1);
      SlotOfFirst(first, second, b, i);
    }
    forall i: nat | i < c2
      ensures Values(all, b, c1 + c2)[c1 + i] == Values(second, b, c2)[i]
    {
      SlotBound(i, b, c2);
      SlotOfSecond(first, second, b, c1, i);
    }
    assert Values(all, b, c1 + c2) == Values(first, b, c1) + Values(second, b, c2) by {
      forall i: nat | i < c1 + c2
        ensures Values(all, b, c1 + c2)[i] == (Values(first, b, c1) + Values(second, b, c2))[i]
      {
        if i >= c1 {
          assert Values(all, b, c1 + c2)[c1 + (i - c1)] == Values(second, b, c2)[i - c1];
        }
      }
    }
  }

  lemma JoinedNext(arrays: seq<CByteArray?>, i: nat)
    requires AllValid(arrays) && i < |arrays|
    ensures arrays[i] != null ==> arrays[i].Valid()
    ensures AllValid(arrays[..i]) && AllValid(arrays[..i + 1])
    ensures Joined(arrays[..i + 1]) == Joined(arrays[..i]) + if arrays[i] == null then [] else arrays[i].Contents()
  {
    assert forall a :: a in arrays[..i] ==> a in arrays;
    assert forall a :: a in arrays[..i + 1] ==> a in arrays;
    assert arrays[i] in arrays && arrays[..i + 1][..i] == arrays[..i];
  }

  lemma NothingJoined(arrays: seq<CByteArray?>)
    ensures AllValid(arrays[..0]) && Joined(arrays[..0]) == []
  {
  }

  lemma NoValues(data: seq<Byte>, b: nat)
    requires data == []
    ensures Values(data, b, 0) == []
  {
  }

  /** The capacity and the element size of the merged array; elements of two sizes raise an exception. */
  method Measure(arrays: seq<CByteArray?>) returns (ok: bool, capacity: nat, width: nat)
    requires AllValid(arrays)
    ensures ok <==> SameWidth(arrays)
    ensures ok ==> capacity == |Joined(arrays)| && 0 < width <= WORD
    ensures ok ==> forall i :: 0 <= i < |arrays| && arrays[i] != null ==> arrays[i].bytesPerElement == width
  {
    hide Joined, Values;
    ok, capacity, width := true, 0, 0;
    NothingJoined(arrays);
    for i := 0 to |arrays|
      invariant AllValid(arrays[..i]) && capacity == |Joined(arrays[..i])| && width <= WORD
      invariant width == 0 ==> forall j :: 0 <= j < i ==> arrays[j] == null
      invariant forall j :: 0 <= j < i && arrays[j] != null ==> arrays[j].bytesPerElement == width
      invariant width > 0 ==> exists j :: 0 <= j < i && arrays[j] != null
    {
      JoinedNext(arrays, i);
      var ba := arrays[i];
      if ba != null {
        capacity := capacity + ba.capacity;
        if !(width == 0 || width == ba.bytesPerElement) {
          return false, capacity, width;
        }
        width := ba.bytesPerElement;
      }
    }
    assert arrays[..|arrays|] == arrays;
    if width == 0 {
      width := 1;
    }
  }

  /** The bytes of the arrays one after the other. */
  method JoinBytes(arrays: seq<CByteArray?>, ghost width: nat) returns (bytes: seq<Byte>)
    requires AllValid(arrays) && forall i :: 0 <= i < |arrays| && arrays[i] != null ==>
      arrays[i].bytesPerElement == width
    ensures |bytes| == width * |Joined(arrays)| && Values(bytes, width, |Joined(arrays)|) == Joined(arrays)
  {
    hide Joined, Values, AllValid;
    NothingJoined(arrays);
    bytes := [];
    ghost var done := 0;
    NoValues(bytes, width);
    for i := 0 to |arrays|
      invariant AllValid(arrays[..i]) && done == |Joined(arrays[..i])|
      invariant |bytes| == width * done && Values(bytes, width, done) == Joined(arrays[..i])
    {
      JoinedNext(arrays, i);
      var ba := arrays[i];
      if ba != null {
        ValuesAppend(bytes, ba.data[..], width, done, ba.capacity);
        bytes, done := bytes + ba.data[..], done + ba.capacity;
      }
    }
    assert arrays[..|arrays|] == arrays;
  }

  /** CByteArray::merge, with the copied bytes collected before they are stored. */
  method Merge(arrays: seq<CByteArray?>) returns (result: Option<CByteArray>)
    requires AllValid(arrays)
    ensures result.Some? <==> SameWidth(arrays)
    ensures result.Some? ==> fresh(result.value) && fresh(result.value.data) && result.value.Valid()
    ensures result.Some? ==> result.value.Contents() == Joined(arrays)
  {
    hide Joined, Values, SameWidth, AllValid;
    var ok, capacity, width := Measure(arrays);
    if !ok {
      return None;
    }
    var bytes := JoinBytes(arrays, width);
    var merged := new CByteArray(width, capacity);
    Store(merged.data, bytes);
    result := Some(merged);
  }

  /** `memcpy` of a whole array. */
  method Store(target: array<Byte>, source: seq<Byte>)
    requires |source| == target.Length
    modifies target
    ensures target[..] == source
  {
    forall k | 0 <= k < |source| {
      target[k] := source[k];
    }
  }
}
