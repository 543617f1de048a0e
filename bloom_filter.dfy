/**
 * A Bloom filter: a fixed array of flags and a hash strategy that turns a
 * member into hex strings, each of which picks one flag. Members can be
 * added and queried; a query may answer true for a member never added, but
 * never false for one that was.
 */
module BloomFilters {
  import opened HexParse
  import opened BitArray

  /** The array length used when the caller names none. */
  const DefaultSize: nat := 10000

  /** A SHA-512 `hexdigest()`: 128 hex digits. */
  type Sha512Hex = s: string | |s| == 128 && AllHexDigits(s)
    witness seq(128, _ => '0')

  /** The array index each parsed hash value selects: `value % k`. */
  function Positions(values: seq<int>, k: nat): (ps: seq<nat>)
    requires k >= 1
    ensures |ps| == |values| && InRange(ps, k)
  {
    seq(|values|, j requires 0 <= j < |values| => values[j] % k)
  }

  /** Python's `s[i:]` bound for a non-negative index: clamped to the length. */
  function Clamp(i: nat, n: nat): (r: nat)
    ensures r <= n && (i <= n ==> r == i)
  {
    if i <= n then i else n
  }

  class BloomFilter {
    const bits: array<bool>
    const hashes: string -> seq<string>
    /** The members added so far, in order. */
    ghost var added: seq<string>

    /**
     * The built-in strategy, given the SHA-512 hexdigest of the member: the
     * digest cut into four consecutive slices, as Python slices text.
     */
    static function DefaultHashes(digest: string): (r: seq<string>)
      ensures |r| == 4
      ensures r[0] + r[1] + r[2] + r[3] == digest
      ensures |digest| == 128 ==> forall j :: 0 <= j < 4 ==> r[j] == digest[32 * j..32 * j + 32]
    {
      var n := |digest|;
      var a, b, c := Clamp(32, n), Clamp(64, n), Clamp(96, n);
      assert digest[..a] + digest[a..b] + digest[b..c] + digest[c..] == digest;
      [digest[..a], digest[a..b], digest[b..c], digest[c..]]
    }

    /** Every hash value the strategy yields for `m` is read by `int(h, 16)`. */
    predicate Hashable(m: string) {
      HexValues(hashes(m)).Some?
    }

    /** The indices `add` and `check` visit for `m`. */
    function Indices(m: string): (ps: seq<nat>)
      requires bits.Length >= 1 && Hashable(m)
      ensures |ps| == |hashes(m)| && InRange(ps, bits.Length)
    {
      Positions(HexValues(hashes(m)).value, bits.Length)
    }

    /** What `check(m)` answers on the current array. */
    predicate Present(m: string)
      reads bits
      requires bits.Length >= 1 && Hashable(m)
    {
      AllSet(bits[..], Indices(m))
    }

    /** The array is not empty, and every member added so far is present. */
    ghost predicate Valid()
      reads this, bits
    {
      && bits.Length >= 1
      && forall j :: 0 <= j < |added| ==> Hashable(added[j]) && Present(added[j])
    }

    constructor (k: nat := DefaultSize, hashes: string -> seq<string>)
      requires k >= 1
      ensures Valid() && fresh(bits)
      ensures bits.Length == k && forall i :: 0 <= i < k ==> !bits[i]
      ensures this.hashes == hashes && added == []
    {
      bits := new bool[k](_ => false);
      this.hashes := hashes;
      added := [];
    }

    /** A filter with the built-in strategy over the given SHA-512 hexdigest. */
    constructor WithDefaultHashes(k: nat := DefaultSize, sha512: string -> Sha512Hex)
      requires k >= 1
      ensures Valid() && fresh(bits)
      ensures bits.Length == k && forall i :: 0 <= i < k ==> !bits[i]
      ensures forall x :: hashes(x) == DefaultHashes(sha512(x))
      ensures forall x :: Hashable(x) && |Indices(x)| == 4
      ensures added == []
    {
      bits := new bool[k](_ => false);
      hashes := x => DefaultHashes(sha512(x));
      added := [];
      new;
      forall x ensures Hashable(x) {
        DefaultHashesParse(sha512(x));
      }
    }

    /** Sets the flag each hash value of `member` selects. */
    method Add(member: string)
      requires Valid() && Hashable(member)
      modifies this, bits
      ensures Valid()
      ensures bits[..] == SetAll(old(bits[..]), Indices(member))
      ensures Covers(bits[..], old(bits[..]))
      ensures forall m :: Hashable(m) && old(Present(m)) ==> Present(m)
      ensures added == old(added) + [member]
    {
      var hs := hashes(member);
      ghost var ps := Indices(member);
      var i := 0;
      while i < |hs|
        modifies bits
        invariant 0 <= i <= |hs|
        invariant forall j :: 0 <= j < bits.Length ==> bits[j] == (old(bits[j]) || j in ps[..i])
      {
        // the value `int(hs[i], 16)`, as HexValuesAt shows
        var idx := HexValues(hs).value[i] % bits.Length;
        bits[idx] := true;
        assert ps[..i + 1] == ps[..i] + [ps[i]];
        i := i + 1;
      }
      assert ps[..i] == ps;
      assert bits[..] == SetAll(old(bits[..]), ps);
      NoFalseNegative(old(bits[..]), ps);
      SetAllCovers(old(bits[..]), ps);
      forall m | Hashable(m) && old(Present(m)) ensures Present(m) {
        AllSetMonotone(old(bits[..]), bits[..], Indices(m));
      }
      added := added + [member];
    }

    /** Answers whether every flag selected by `member` is set, stopping at the first one that is not. */
    method Check(member: string) returns (r: bool)
      requires Valid() && Hashable(member)
      ensures r == Present(member)
      ensures r <==> forall j :: 0 <= j < |Indices(member)| ==> bits[Indices(member)[j]]
      ensures member in added ==> r
    {
      var hs := hashes(member);
      ghost var ps := Indices(member);
      var i := 0;
      while i < |hs|
        invariant 0 <= i <= |hs|
        invariant forall j :: 0 <= j < i ==> bits[ps[j]]
      {
        // the value `int(hs[i], 16)`, as HexValuesAt shows
        var idx := HexValues(hs).value[i] % bits.Length;
        assert idx == ps[i];
        if bits[idx] != true {
          assert !bits[..][ps[i]];
          return false;
        }
        i := i + 1;
      }
      return true;
    }
  }

  /** A member for which the strategy yields no hash value is present in every filter. */
  lemma NoHashValuesPresent(b: BloomFilter, m: string)
    requires b.Valid() && b.hashes(m) == []
    ensures b.Hashable(m) && b.Present(m)
  {
  }

  /** Each slice of a SHA-512 hexdigest is read by `int(h, 16)` as its own digits. */
  lemma DefaultHashesParse(digest: Sha512Hex)
    ensures HexValues(BloomFilter.DefaultHashes(digest)).Some?
    ensures forall j :: 0 <= j < 4 ==>
      HexValues(BloomFilter.DefaultHashes(digest)).value[j] == DigitsValue(digest[32 * j..32 * j + 32])
  {
    var r := BloomFilter.DefaultHashes(digest);
    forall j | 0 <= j < 4
      ensures HexValue(r[j]) == Some(DigitsValue(digest[32 * j..32 * j + 32]))
    {
      PlainDigits(r[j]);
    }
    HexValuesAt(r);
  }

  /** Euclidean division has one quotient and one remainder. */
  lemma ModUnique(a: int, k: int, q: int, r: int)
    requires k >= 1 && 0 <= r < k && a == q * k + r
    ensures a % k == r
  {
    var q', r' := a / k, a % k;
    assert (q - q') * k == r' - r;
    if q > q' {
      assert (q - q') * k >= k by { MulAtLeast(q - q', k); }
    } else if q < q' {
      assert (q' - q) * k >= k by { MulAtLeast(q' - q, k); }
    }
  }

  /** Adding the divisor does not change the remainder. */
  lemma ModPeriod(v: int, k: int)
    requires k >= 1
    ensures (v + k) % k == v % k
  {
    var q := v / k;
    assert v == q * k + v % k;
    assert v + k == (q + 1) * k + v % k;
    ModUnique(v + k, k, q + 1, v % k);
  }

  lemma MulAtLeast(m: int, k: int)
    requires m >= 1 && k >= 1
    ensures m * k >= k
  {
  }

  /** A hash value `v + k` lands on the same index as `v`: modulo wraparound. */
  lemma ModuloCollision(v: nat, k: nat)
    requires k >= 1 && v + k <= MaxInt
    ensures HexValues([HexStr(v + k)]).Some? && HexValues([HexStr(v)]).Some?
    ensures Positions(HexValues([HexStr(v + k)]).value, k) == Positions(HexValues([HexStr(v)]).value, k)
  {
    HexRoundTrip(v);
    HexRoundTrip(v + k);
    HexValuesSingle(HexStr(v));
    HexValuesSingle(HexStr(v + k));
    ModPeriod(v, k);
  }
}
