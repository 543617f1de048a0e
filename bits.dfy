/**
 * The bit array of a Bloom filter as a value: what setting a list of
 * positions does to it, and what it means for a list of positions to be set.
 */
module BitArray {

  /** Every position lies inside an array of length `n`. */
  predicate InRange(ps: seq<nat>, n: nat) {
    forall j :: 0 <= j < |ps| ==> ps[j] < n
  }

  /** The array after setting each position of `ps` to true, in order. */
  function SetAll(bits: seq<bool>, ps: seq<nat>): (r: seq<bool>)
    requires InRange(ps, |bits|)
    ensures |r| == |bits|
    ensures forall i :: 0 <= i < |bits| ==> r[i] == (bits[i] || i in ps)
    decreases |ps|
  {
    if ps == [] then bits else SetAll(bits[ps[0] := true], ps[1..])
  }

  /** Every position of `ps` is set. */
  predicate AllSet(bits: seq<bool>, ps: seq<nat>)
    requires InRange(ps, |bits|)
  {
    forall j :: 0 <= j < |ps| ==> bits[ps[j]]
  }

  /** `after` has the length of `before` and keeps each of its set bits. */
  predicate Covers(after: seq<bool>, before: seq<bool>) {
    |after| == |before| && forall i :: 0 <= i < |before| && before[i] ==> after[i]
  }

  /** The indices of the set bits. */
  function TrueBits(bits: seq<bool>): set<nat> {
    set i: nat | i < |bits| && bits[i]
  }

  function Elements(ps: seq<nat>): set<nat> {
    set j | 0 <= j < |ps| :: ps[j]
  }

  /** The set bits after `SetAll` are exactly the old ones plus `ps`. */
  lemma SetAllTrueBits(bits: seq<bool>, ps: seq<nat>)
    requires InRange(ps, |bits|)
    ensures TrueBits(SetAll(bits, ps)) == TrueBits(bits) + Elements(ps)
  {
  }

  /** Setting bits never clears one and keeps the length. */
  lemma SetAllCovers(bits: seq<bool>, ps: seq<nat>)
    requires InRange(ps, |bits|)
    ensures Covers(SetAll(bits, ps), bits)
  {
  }

  /** Right after setting `ps`, all of `ps` is set. */
  lemma NoFalseNegative(bits: seq<bool>, ps: seq<nat>)
    requires InRange(ps, |bits|)
    ensures AllSet(SetAll(bits, ps), ps)
  {
  }

  /** Positions that were all set stay all set in an array that covers it. */
  lemma AllSetMonotone(before: seq<bool>, after: seq<bool>, ps: seq<nat>)
    requires Covers(after, before) && InRange(ps, |before|)
    requires AllSet(before, ps)
    ensures AllSet(after, ps)
  {
  }

  /** Setting the same positions a second time changes nothing. */
  lemma SetAllIdempotent(bits: seq<bool>, ps: seq<nat>)
    requires InRange(ps, |bits|)
    ensures SetAll(SetAll(bits, ps), ps) == SetAll(bits, ps)
  {
  }

  /** The order in which two lists of positions are set does not matter. */
  lemma SetAllCommutes(bits: seq<bool>, ps: seq<nat>, qs: seq<nat>)
    requires InRange(ps, |bits|) && InRange(qs, |bits|)
    ensures SetAll(SetAll(bits, ps), qs) == SetAll(SetAll(bits, qs), ps)
  {
  }

  /**
   * In an array of one bit, setting any non-empty list of positions makes
   * every list of positions set.
   */
  lemma OneBitAcceptsAll(bits: seq<bool>, ps: seq<nat>, qs: seq<nat>)
    requires |bits| == 1 && ps != []
    requires InRange(ps, 1) && InRange(qs, 1)
    ensures AllSet(SetAll(bits, ps), qs)
  {
  }

  /** A list of positions is set in an all-false array only when it is empty. */
  lemma AllFalseRejects(bits: seq<bool>, ps: seq<nat>)
    requires InRange(ps, |bits|)
    requires forall i :: 0 <= i < |bits| ==> !bits[i]
    ensures AllSet(bits, ps) <==> ps == []
  {
    if ps != [] {
      assert !bits[ps[0]];
    }
  }
}
