/** Timer ids of timer_queue.h: a 64-bit number packing the timer type, the sequence number of
    the node and the node position counted from one. */
module TimerId {

  const U16: nat := 0x1_0000
  const U32: nat := 0x1_0000_0000
  const MAX_NODES: nat := 1000000
  const SEQ_LIMIT: nat := 60000
  /** How many sequence numbers there are: 1 to 59999. */
  const SEQ_CYCLE: nat := 59999
  const INVALID: nat := 0

  datatype Parts = Parts(ty: nat, pos: nat, seqNo: nat)

  predicate Legal(p: Parts) {
    p.ty < U16 && 0 < p.pos <= MAX_NODES && 0 < p.seqNo < SEQ_LIMIT
  }

  function Encode(p: Parts): nat {
    (p.ty * U16 + p.seqNo) * U32 + p.pos
  }

  /** The three fields, and whether DecodeTimerId accepts them. */
  function Decode(id: nat): (r: (bool, Parts)) {
    var p := Parts(id / (U16 * U32), id % U32, (id / U32) % U16);
    (0 < p.pos <= MAX_NODES && 0 < p.seqNo < SEQ_LIMIT, p)
  }

  function StepSeq(s: nat): nat {
    if s + 1 >= SEQ_LIMIT then 1 else s + 1
  }

  /** Decode is a left inverse of Encode on legal parts, and no legal id is the invalid one. The
      position takes the low 32 bits, the sequence number the next 16 and the type the top 16. */
  lemma DecodeEncode(p: Parts)
    requires Legal(p)
    ensures Decode(Encode(p)) == (true, p)
    ensures INVALID < Encode(p) < U32 * U32
    ensures var id := Encode(p);
      id % 0x1_0000_0000 == p.pos && id / 0x1_0000_0000 % 0x1_0000 == p.seqNo && id / 0x1_0000_0000_0000 == p.ty
  {
    var id := Encode(p);
    assert id % U32 == p.pos && id / U32 == p.ty * U16 + p.seqNo;
    assert id / (U16 * U32) == p.ty;
  }

  /** Every accepted 64-bit id is the encoding of what it decodes to. */
  lemma EncodeDecode(id: nat)
    requires id < U32 * U32 && Decode(id).0
    ensures Legal(Decode(id).1) && Encode(Decode(id).1) == id
  {
    var hi := id / U32;
    assert id == hi * U32 + id % U32;
    assert hi == (hi / U16) * U16 + hi % U16;
    assert hi / U16 == id / (U16 * U32);
  }

  /** The sequence number of a node that has been scheduled n times since creation. */
  function SeqAfter(n: nat): nat { n % SEQ_CYCLE + 1 }

  lemma StepSeqCounts(n: nat)
    ensures StepSeq(SeqAfter(n)) == SeqAfter(n + 1) && SeqAfter(n) == n % 59999 + 1
  {
  }

  /** A sequence number comes back exactly after a whole number of cycles. */
  lemma SeqRepeats(n: nat, k: nat)
    ensures SeqAfter(n + k) == SeqAfter(n) <==> k % SEQ_CYCLE == 0
  {
  }

  /** Within one cycle it does not come back. */
  lemma SeqDiffers(n: nat, k: nat)
    requires k < SEQ_CYCLE
    ensures SeqAfter(n + k) == SeqAfter(n) <==> k == 0
  {
    SeqRepeats(n, k);
  }
}
