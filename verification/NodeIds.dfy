/**
 Node ids come from a 32-bit counter that starts at one and wraps. The k-th registration of a run
 (counting from zero) gets IdOf(k).
 */
module NodeIds {
  import opened Types

  const INT32_SPAN := 0x1_0000_0000

  function Wrap32(x: int): int {
    (x + 0x8000_0000) % INT32_SPAN - 0x8000_0000
  }

  function IdOf(k: nat): NodeId {
    Wrap32(k + 1)
  }

  /** The first registration that could have got `id`. */
  function SerialOf(id: NodeId): int {
    if id >= 1 then id - 1 else id - 1 + INT32_SPAN
  }

  /** Among the first 2^32 registrations, the id tells the registration. */
  lemma SerialOfId(k: nat)
    requires k < INT32_SPAN
    ensures SerialOf(IdOf(k)) == k
  {
  }

  /**
   Two registrations get different ids exactly when they are not a multiple of 2^32 apart, so the
   first 2^32 registrations of a run never share an id and the next one repeats the first.
   */
  lemma IdsRepeatExactly(k: nat, l: nat)
    ensures IdOf(k) == IdOf(l) <==> (k - l) % 0x1_0000_0000 == 0
  {
  }

  /** A server unregisters on stopping only with a positive id: the first 2^31 - 1 of a run have one. */
  lemma PositiveIdsExactly(k: nat)
    requires k < 0x1_0000_0000
    ensures IdOf(k) > 0 <==> k < 0x7FFF_FFFF
    ensures k < 0x7FFF_FFFF ==> IdOf(k) == k + 1
  {
  }
}
