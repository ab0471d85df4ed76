/** The 64-bit user_data tags of io_uring completions: include/io/io_uring_loop.hpp and include/dns/resolver.hpp. */
module UserData {
  /** op_type, with its numeric values Accept = 0 .. Timer = 4. */
  predicate IsOp(op: bv64) { op <= 4 }
  /** DNSOp: Send = 0, Recv = 1, Timeout = 2. */
  predicate IsDnsOp(op: bv64) { op <= 2 }

  const ID_MASK: bv64 := 0x0FFF_FFFF_FFFF_FFFF

  function Encode(op: bv64, connId: bv64): bv64 { (op << 60) | (connId & ID_MASK) }
  function DecodeOp(ud: bv64): bv64 { ud >> 60 }
  function DecodeConnId(ud: bv64): bv64 { ud & ID_MASK }

  function DnsEncode(op: bv64, txid: bv16): bv64 { (0xD << 60) | (op << 48) | (txid as bv64) }
  predicate DnsIsCompletion(ud: bv64) { (ud >> 60) == 0xD }
  function DnsDecodeOp(ud: bv64): bv64 { (ud >> 48) & 0xFFF }
  function DnsDecodeTxid(ud: bv64): bv16 { (ud & 0xFFFF) as bv16 }

  /** Packing loses nothing of an id exactly when the id fits in 60 bits, and never looks like a DNS tag. */
  lemma PackingInverts(op: bv64, connId: bv64)
    requires IsOp(op)
    ensures DecodeOp(Encode(op, connId)) == op
    ensures DecodeConnId(Encode(op, connId)) == connId <==> connId <= ID_MASK
    ensures !DnsIsCompletion(Encode(op, connId))
  {
    MaskFits(connId);
    FieldsApart(op, connId & ID_MASK);
  }

  lemma MaskFits(id: bv64)
    ensures id & ID_MASK <= ID_MASK
    ensures id & ID_MASK == id <==> id <= ID_MASK
  {
  }

  lemma FieldsApart(op: bv64, id: bv64)
    requires IsOp(op) && id <= ID_MASK
    ensures DecodeOp((op << 60) | id) == op && DecodeConnId((op << 60) | id) == id
    ensures !DnsIsCompletion((op << 60) | id)
  {
    assert id >> 60 == 0;
  }

  lemma DnsPackingInverts(op: bv64, txid: bv16)
    requires IsDnsOp(op)
    ensures DnsIsCompletion(DnsEncode(op, txid))
    ensures DnsDecodeOp(DnsEncode(op, txid)) == op
    ensures DnsDecodeTxid(DnsEncode(op, txid)) == txid
  {
    var t := txid as bv64;
    assert t <= 0xFFFF;
  }

  /** Tags are unambiguous: two operations share a tag only if they are the same operation on the same id. */
  lemma TagsAreDistinct(op: bv64, id: bv64, op': bv64, id': bv64, dnsOp: bv64, txid: bv16)
    requires IsOp(op) && IsOp(op') && IsDnsOp(dnsOp) && id <= ID_MASK && id' <= ID_MASK
    ensures Encode(op, id) == Encode(op', id') ==> op == op' && id == id'
    ensures Encode(op, id) != DnsEncode(dnsOp, txid)
  {
    PackingInverts(op, id);
    PackingInverts(op', id');
    DnsPackingInverts(dnsOp, txid);
  }
}
