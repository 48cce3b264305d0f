/** Handles of obj_desc.h: where an object lies in shared memory, its type, and the incarnation
    number of its slot. */
module ObjHandle {

  const U32: nat := 0x1_0000_0000
  const U24: nat := 0x100_0000
  const MAX_SEQ: nat := 0x7F_FFFF
  /** How many incarnation numbers there are: 1 to 0x800000. */
  const SEQ_CYCLE: nat := 0x80_0000

  /** tagObjID. */
  datatype ObjId = ObjId(id: nat, ty: nat, seqNo: nat)

  predicate InFields(h: ObjId) { h.id < U32 && h.ty < 256 && h.seqNo < U24 }

  /** tagObjectBase::IncSeq. */
  function IncSeq(s: nat): nat {
    (if s > MAX_SEQ then 0 else s) + 1
  }

  /** The incarnation number of a slot that has been allocated n times. */
  function SeqAfter(n: nat): nat {
    if n == 0 then 0 else (n - 1) % SEQ_CYCLE + 1
  }

  lemma IncSeqCounts(n: nat)
    ensures IncSeq(SeqAfter(n)) == SeqAfter(n + 1) && SeqAfter(n) <= SEQ_CYCLE < U24
  {
  }

  lemma SeqRepeats(n: nat, k: nat)
    requires n > 0
    ensures SeqAfter(n + k) == SeqAfter(n) <==> k % SEQ_CYCLE == 0
  {
  }

  /** type << 24 as a 32-bit int: the top bit of the type is the sign. */
  function ShiftedType(ty: nat): int {
    if ty < 128 then ty * U24 else ty * U24 - U32
  }

  /** operator uint64. */
  function Pack(h: ObjId): nat {
    (h.id * U32 + ShiftedType(h.ty) + h.seqNo) % (U32 * U32)
  }

  /** ID2Type: the type read back from a packed handle. */
  function UnpackedType(packed: nat): nat { packed % U32 / U24 }

  lemma PackParts(h: ObjId)
    requires InFields(h)
    ensures Pack(h) % U32 == h.ty * U24 + h.seqNo
    ensures Pack(h) / U32 == if h.ty < 128 then h.id else if h.id == 0 then U32 - 1 else h.id - 1
  {
    var low := h.ty * U24 + h.seqNo;
    assert low < U32;
    var high := if h.ty < 128 then h.id else if h.id == 0 then U32 - 1 else h.id - 1;
    assert high < U32;
    var raw := h.id * U32 + ShiftedType(h.ty) + h.seqNo;
    assert raw == high * U32 + low || raw == high * U32 + low - U32 * U32;
    assert Pack(h) == high * U32 + low;
  }

  /** Packing loses nothing, for any type, and the type can be read back; but the upper half is
      the offset only for types below 128. */
  lemma PackInjective(a: ObjId, b: ObjId)
    requires InFields(a) && InFields(b)
    ensures Pack(a) == Pack(b) ==> a == b
    ensures UnpackedType(Pack(a)) == a.ty
    ensures Pack(a) / U32 == a.id <==> a.ty < 128
  {
    PackParts(a);
    PackParts(b);
    LowParts(a.ty, a.seqNo);
    LowParts(b.ty, b.seqNo);
    assert Pack(a) == Pack(b) ==> a.ty == b.ty && a.seqNo == b.seqNo;
  }

  lemma LowParts(ty: nat, seqNo: nat)
    requires ty < 256 && seqNo < U24
    ensures (ty * U24 + seqNo) / U24 == ty && (ty * U24 + seqNo) % U24 == seqNo
  {
  }
}
