// Model of UploadBuffer<T> (UploadBuffer.h): a CPU-writable buffer of
// `elementCount` slots, each holding one T, mapped as raw bytes. The element
// type enters only through sizeof(T), here `typeSize`, and a T value through
// its bytes.

module Upload {
  import opened GlobalUtil

  type Byte = bv8

  /**
   * mElementByteSize: sizeof(T), or for a constant buffer sizeof(T) rounded
   * up to 256 bytes by CalcConstantBufferByteSize (which wraps to 0 for a type
   * larger than 2^32 - 256 bytes).
   */
  function ElementStride(typeSize: Uint32, isConstantBuffer: bool): (stride: Uint32)
    ensures !isConstantBuffer ==> stride == typeSize
    ensures isConstantBuffer && typeSize <= MaxUnwrapped ==>
      IsMultipleOf256(stride) && typeSize <= stride < typeSize + 256
  {
    if isConstantBuffer then CalcConstantBufferByteSize(typeSize) else typeSize
  }

  /**
   * The width requested from the device: mElementByteSize * elementCount,
   * a product of two UINTs and so taken modulo 2^32. The call to MulMonotone
   * tells the solver that the product is not negative.
   */
  function BufferByteSize(stride: Uint32, elementCount: Uint32): (size: Uint32)
    ensures stride * elementCount < Pow32 ==> size == stride * elementCount
  {
    MulMonotone(0, stride, elementCount);
    (stride * elementCount) % Pow32
  }

  /** Multiplying by a natural number keeps order (a helper for the slot arithmetic). */
  lemma {:induction false} MulMonotone(a: nat, b: nat, c: nat)
    requires a <= b
    ensures 0 <= a * c <= b * c
    decreases b
  {
    if a < b {
      MulMonotone(a, b - 1, c);
      assert b * c == (b - 1) * c + c;
    } else if 0 < a {
      MulMonotone(a - 1, b - 1, c);
      assert a * c == (a - 1) * c + c;
    }
  }

  /**
   * The bytes of `buf` after memcpy of `data` to `offset`: the window
   * [offset, offset + |data|) holds `data`, every other byte is kept.
   */
  function Written(buf: seq<Byte>, offset: nat, data: seq<Byte>): (r: seq<Byte>)
    requires offset + |data| <= |buf|
    ensures |r| == |buf|
    ensures r[offset..offset + |data|] == data
    ensures forall k :: 0 <= k < |buf| && !(offset <= k < offset + |data|) ==> r[k] == buf[k]
  {
    buf[..offset] + data + buf[offset + |data|..]
  }

  /** Byte-wise reading of Written, convenient for proofs. */
  lemma WrittenAt(buf: seq<Byte>, offset: nat, data: seq<Byte>, k: nat)
    requires offset + |data| <= |buf| && k < |buf|
    ensures Written(buf, offset, data)[k] ==
      if offset <= k < offset + |data| then data[k - offset] else buf[k]
  {
    var r := Written(buf, offset, data);
    if offset <= k < offset + |data| {
      assert r[offset..offset + |data|][k - offset] == r[k];
    }
  }

  /** Two writes to disjoint windows can be done in either order. */
  lemma WrittenCommutes(buf: seq<Byte>, o1: nat, d1: seq<Byte>, o2: nat, d2: seq<Byte>)
    requires o1 + |d1| <= |buf| && o2 + |d2| <= |buf|
    requires o1 + |d1| <= o2 || o2 + |d2| <= o1
    ensures Written(Written(buf, o1, d1), o2, d2) == Written(Written(buf, o2, d2), o1, d1)
  {
    var a := Written(Written(buf, o1, d1), o2, d2);
    var b := Written(Written(buf, o2, d2), o1, d1);
    forall k | 0 <= k < |buf| ensures a[k] == b[k] {
      WrittenAt(Written(buf, o1, d1), o2, d2, k);
      WrittenAt(buf, o1, d1, k);
      WrittenAt(Written(buf, o2, d2), o1, d1, k);
      WrittenAt(buf, o2, d2, k);
    }
  }

  /** Writing the same bytes to the same window twice is writing them once. */
  lemma WrittenIdempotent(buf: seq<Byte>, offset: nat, data: seq<Byte>)
    requires offset + |data| <= |buf|
    ensures Written(Written(buf, offset, data), offset, data) == Written(buf, offset, data)
  {
    var once := Written(buf, offset, data);
    var twice := Written(once, offset, data);
    forall k | 0 <= k < |buf| ensures twice[k] == once[k] {
      WrittenAt(once, offset, data, k);
      WrittenAt(buf, offset, data, k);
    }
  }

  /** Start of slot i: elementIndex * mElementByteSize. */
  function SlotOffset(stride: nat, i: nat): nat {
    i * stride
  }

  /**
   * Slots of distinct indices do not overlap as long as the stride is at
   * least sizeof(T), which ElementStride gives whenever it does not wrap.
   */
  lemma SlotsDisjoint(stride: nat, typeSize: nat, i: nat, j: nat)
    requires typeSize <= stride && i != j
    ensures SlotOffset(stride, i) + typeSize <= SlotOffset(stride, j) ||
            SlotOffset(stride, j) + typeSize <= SlotOffset(stride, i)
  {
    if i < j {
      MulMonotone(i + 1, j, stride);
      assert (i + 1) * stride == i * stride + stride;
    } else {
      MulMonotone(j + 1, i, stride);
      assert (j + 1) * stride == j * stride + stride;
    }
  }

  /**
   * Every index below elementCount addresses a slot that lies inside the
   * buffer, provided that stride * elementCount did not wrap.
   */
  lemma SlotInBounds(stride: Uint32, typeSize: nat, elementCount: Uint32, i: nat)
    requires typeSize <= stride && i < elementCount
    requires stride * elementCount < Pow32
    ensures SlotOffset(stride, i) + typeSize <= BufferByteSize(stride, elementCount)
  {
    MulMonotone(i + 1, elementCount, stride);
    assert (i + 1) * stride == i * stride + stride;
    assert stride * elementCount == elementCount * stride;
  }

  /** Copying to two distinct slots commutes. */
  lemma {:induction false} SlotCopiesCommute(buf: seq<Byte>, stride: nat, i: nat, di: seq<Byte>, j: nat, dj: seq<Byte>)
    requires i != j && |di| == |dj| <= stride
    requires SlotOffset(stride, i) + |di| <= |buf| && SlotOffset(stride, j) + |dj| <= |buf|
    ensures Written(Written(buf, SlotOffset(stride, i), di), SlotOffset(stride, j), dj) ==
            Written(Written(buf, SlotOffset(stride, j), dj), SlotOffset(stride, i), di)
  {
    SlotsDisjoint(stride, |di|, i, j);
    WrittenCommutes(buf, SlotOffset(stride, i), di, SlotOffset(stride, j), dj);
  }

  /** The upload buffer: its stride, and the mapped bytes that CopyData writes in place. */
  class UploadBuffer {
    /** sizeof(T). */
    const typeSize: Uint32
    /** mIsConstantBuffer. */
    const isConstantBuffer: bool
    /** The element count given to the constructor (the source does not keep it). */
    ghost const elementCount: Uint32
    /** mElementByteSize. */
    var elementByteSize: Uint32
    /** mMappedData: the upload heap as seen through Map. */
    var mappedData: array<Byte>

    ghost predicate Valid()
      reads this
    {
      elementByteSize == ElementStride(typeSize, isConstantBuffer) &&
      mappedData.Length == BufferByteSize(elementByteSize, elementCount)
    }

    /**
     * Computes the stride, then creates and maps a buffer of
     * stride * elementCount bytes (modulo 2^32).
     */
    constructor (typeSize: Uint32, elementCount: Uint32, isConstantBuffer: bool)
      requires typeSize > 0
      ensures Valid() && fresh(mappedData)
      ensures this.typeSize == typeSize && this.elementCount == elementCount
      ensures this.isConstantBuffer == isConstantBuffer
    {
      this.typeSize := typeSize;
      this.isConstantBuffer := isConstantBuffer;
      this.elementCount := elementCount;
      var stride := typeSize;
      if isConstantBuffer {
        stride := CalcConstantBufferByteSize(typeSize);
      }
      elementByteSize := stride;
      mappedData := new Byte[BufferByteSize(stride, elementCount)];
    }

    /**
     * CopyData(elementIndex, data): memcpy of the bytes of one T into slot
     * elementIndex. The source checks no bounds, so the slot must lie inside
     * the mapped buffer.
     */
    method CopyData(elementIndex: nat, data: seq<Byte>)
      requires Valid()
      requires |data| == typeSize
      requires SlotOffset(elementByteSize, elementIndex) + typeSize <= mappedData.Length
      modifies mappedData
      ensures Valid()
      ensures mappedData[..] == Written(old(mappedData[..]), SlotOffset(elementByteSize, elementIndex), data)
    {
      var offset := SlotOffset(elementByteSize, elementIndex);
      forall k | 0 <= k < |data| {
        mappedData[offset + k] := data[k];
      }
      ghost var expected := Written(old(mappedData[..]), offset, data);
      forall k | 0 <= k < mappedData.Length ensures mappedData[k] == expected[k] {
        WrittenAt(old(mappedData[..]), offset, data, k);
      }
    }
  }
}
