/**
 Identifiers of engine requests: a node's address in the upper 48 bits and an epoch sum in the
 lower 16.
 */
module EntryIds {

  const TERMINATION: bv64 := 0xDEAD_0000_0000_DEAD

  function Encode(node: bv64, epochSum: bv64): (id: bv64)
  {
    (node << 16) | (epochSum & 0xFFFF)
  }

  function DecodeNode(id: bv64): (node: bv64)
  {
    id >> 16
  }

  function DecodeSum(id: bv64): (epochSum: bv64)
  {
    id & 0xFFFF
  }

  /** Decoding undoes encoding exactly for addresses that fit 48 bits and sums that fit 16. */
  lemma RoundTrip(node: bv64, epochSum: bv64)
    ensures DecodeNode(Encode(node, epochSum)) == node && DecodeSum(Encode(node, epochSum)) == epochSum <==>
            node < 0x1_0000_0000_0000 && epochSum < 0x1_0000
  {
    assert (node << 16) & 0xFFFF == 0;
    assert ((node << 16) | (epochSum & 0xFFFF)) >> 16 == node & 0xFFFF_FFFF_FFFF;
    assert ((node << 16) | (epochSum & 0xFFFF)) & 0xFFFF == epochSum & 0xFFFF;
    assert node & 0xFFFF_FFFF_FFFF == node <==> node < 0x1_0000_0000_0000;
    assert epochSum & 0xFFFF == epochSum <==> epochSum < 0x1_0000;
  }

  /** Encoding undoes decoding for every identifier. */
  lemma RoundTripBack(id: bv64)
    ensures Encode(DecodeNode(id), DecodeSum(id)) == id
    ensures DecodeNode(id) < 0x1_0000_0000_0000 && DecodeSum(id) < 0x1_0000
  {
  }

  /** So different requests have different identifiers. */
  lemma Distinct(n: bv64, s: bv64, n': bv64, s': bv64)
    requires n < 0x1_0000_0000_0000 && n' < 0x1_0000_0000_0000 && s < 0x1_0000 && s' < 0x1_0000
    requires Encode(n, s) == Encode(n', s')
    ensures n == n' && s == s'
  {
    RoundTrip(n, s);
    RoundTrip(n', s');
  }

  /** User-space addresses have bit 47 clear; no request on such a node has the termination identifier. */
  lemma NotTermination(node: bv64, epochSum: bv64)
    requires node < 0x8000_0000_0000
    ensures Encode(node, epochSum) != TERMINATION
  {
    assert ((node << 16) | (epochSum & 0xFFFF)) < 0x8000_0000_0000_0000;
  }
}
