/** `random.randint` as an oracle: the program's random numbers are read from
    an arbitrary stream `draw` of naturals, one per call, starting at `pos`. */
module RandomOracle {
  import opened Outcomes

  /** `random.randint(lo, hi)`: inclusive on both ends; an empty range raises. */
  function RandInt(draw: nat -> nat, pos: nat, lo: int, hi: int): (r: Result<int, GenError>)
    ensures r.Ok? <==> lo <= hi
    ensures r.Err? ==> r.error == EmptyRange
    ensures r.Ok? ==> lo <= r.value <= hi
  {
    if hi < lo then Err(EmptyRange) else Ok(lo + draw(pos) % (hi - lo + 1))
  }

  /** Every value of the inclusive range can be drawn: the oracle does not
      narrow the choices `randint` has. */
  lemma RandIntReaches(draw: nat -> nat, pos: nat, lo: int, hi: int, v: int)
    requires lo <= v <= hi
    requires draw(pos) == v - lo
    ensures RandInt(draw, pos, lo, hi) == Ok(v)
  {
  }
}
