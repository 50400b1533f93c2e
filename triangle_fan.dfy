/**
 * Triangle-fan emulation (ref_vk/vk_common.c:996-1026, 2080-2096): a fan of
 * n vertices is drawn as a triangle list through a shared uint16 index
 * prefix (0, 1, 2), (0, 2, 3), ... kept at the start of the dynamic index
 * buffers. This module holds the prefix's contents and the writes into the
 * index buffers' mapped memory.
 */
module TriangleFan {
  import opened VkTypes

  /** Values stored as uint16_t wrap modulo 2^16. */
  const UINT16_MODULUS: nat := 0x1_0000

  /** Halfword k of the prefix: triangle k / 3 is (0, i + 1, i + 2), each truncated to 16 bits. */
  function FanValue(k: nat): (v: nat)
    ensures v < UINT16_MODULUS
  {
    if k % 3 == 0 then 0 else (k / 3 + k % 3) % UINT16_MODULUS
  }

  /** The first count triangles of the prefix, 3 * count halfwords. */
  function FanList(count: nat): (l: seq<nat>)
    ensures |l| == 3 * count
    ensures forall i :: 0 <= i < count ==>
      l[3 * i] == 0 && l[3 * i + 1] == (i + 1) % UINT16_MODULUS && l[3 * i + 2] == (i + 2) % UINT16_MODULUS
  {
    var l := seq(3 * count, k requires 0 <= k < 3 * count => FanValue(k));
    assert forall i :: 0 <= i < count ==> (3 * i) / 3 == i && (3 * i + 1) / 3 == i && (3 * i + 2) / 3 == i;
    l
  }

  /** memcpy of data into b's mapped memory, one halfword after the other from position at on. */
  function WriteHalfwords(b: DynBuffer, at: nat, data: seq<nat>): (r: DynBuffer)
    ensures r.id == b.id && r.currentOffset == b.currentOffset
    ensures forall k :: at <= k < at + |data| ==> k in r.halfwords && r.halfwords[k] == data[k - at]
    ensures forall k :: k in b.halfwords && !(at <= k < at + |data|) ==> k in r.halfwords && r.halfwords[k] == b.halfwords[k]
    decreases |data|
  {
    if data == [] then b
    else
      var r := WriteHalfwords(b.(halfwords := b.halfwords[at := data[0]]), at + 1, data[1..]);
      r
  }

  /** The first count triangles of the prefix sit in b from halfword position at on. */
  ghost predicate HasFanPrefixAt(b: DynBuffer, at: nat, count: nat)
  {
    forall p :: at <= p < at + 3 * count ==> p in b.halfwords && b.halfwords[p] == FanValue(p - at)
  }

  /** Writing the list places the prefix there. */
  lemma WriteFanPlacesPrefix(b: DynBuffer, at: nat, count: nat)
    ensures HasFanPrefixAt(WriteHalfwords(b, at, FanList(count)), at, count)
  {
    var r := WriteHalfwords(b, at, FanList(count));
    forall p | at <= p < at + 3 * count
      ensures p in r.halfwords && r.halfwords[p] == FanValue(p - at)
    {
      assert FanList(count)[p - at] == FanValue(p - at);
    }
  }

  /** A prefix that is there is also there for every smaller count. */
  lemma PrefixShrinks(b: DynBuffer, at: nat, count: nat, smaller: nat)
    requires HasFanPrefixAt(b, at, count) && smaller <= count
    ensures HasFanPrefixAt(b, at, smaller)
  {
  }

  /** A freshly created buffer holds no prefix. */
  lemma FreshBufferLacksPrefix(id: BufferId, at: nat, count: nat)
    requires count > 0
    ensures !HasFanPrefixAt(FreshBuffer(id), at, count)
  {
    assert at !in FreshBuffer(id).halfwords;
  }

  /**
   * With more than 65534 triangles the 16-bit vertex numbers wrap: triangle
   * 65535 is (0, 0, 1) rather than (0, 65536, 65537).
   */
  lemma FanWrapsPast16Bits()
    ensures FanValue(3 * 65535 + 1) == 0 && FanValue(3 * 65535 + 2) == 1
  {
  }
}
