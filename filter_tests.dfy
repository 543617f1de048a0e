/**
 * The behaviours the repository's unit tests pin down, stated as client
 * methods that use only the contracts of `BloomFilter`. The hash functions
 * of the standard library are parameters.
 */
module FilterTests {
  import opened HexParse
  import opened BitArray
  import opened BloomFilters

  /** A hexdigest of any fixed algorithm: a non-empty run of hex digits. */
  type HexDigest = s: string | s != [] && AllHexDigits(s) witness "0"

  /** The strategy that hands back the member itself as its only hash value. */
  function Identity(x: string): seq<string> {
    [x]
  }

  /** With the identity strategy, `hex(n)` selects index `n % k` and nothing else. */
  lemma IdentityIndices(n: nat, k: nat)
    requires k >= 1 && n <= MaxInt
    ensures HexValues(Identity(HexStr(n))) == Some([n])
    ensures Positions([n], k) == [n % k]
  {
    HexRoundTrip(n);
    HexValuesSingle(HexStr(n));
  }

  /** The defaults: 10000 flags, all clear, and the built-in strategy. */
  method Defaults(sha512: string -> Sha512Hex) returns (length: nat, anySet: bool, strategy: string -> seq<string>)
    ensures length == 10000 && !anySet
    ensures forall x :: strategy(x) == BloomFilter.DefaultHashes(sha512(x))
  {
    var b := new BloomFilter.WithDefaultHashes(sha512 := sha512);
    length := b.bits.Length;
    anySet := exists i :: 0 <= i < b.bits.Length && b.bits[i];
    strategy := b.hashes;
  }

  /**
   * With the built-in strategy a fresh filter rejects "dummy" and accepts it
   * once added; then each of `hex(0)` .. `hex(9999)` is accepted right after
   * it is added.
   */
  method AddThenCheck(sha512: string -> Sha512Hex) returns (before: bool, after: bool, each: bool)
    ensures !before && after && each
  {
    var b := new BloomFilter.WithDefaultHashes(sha512 := sha512);
    AllFalseRejects(b.bits[..], b.Indices("dummy"));
    before := b.Check("dummy");
    b.Add("dummy");
    after := b.Check("dummy");

    b := new BloomFilter.WithDefaultHashes(sha512 := sha512);
    each := true;
    var i := 0;
    while i < b.bits.Length
      invariant b.Valid() && fresh(b.bits)
      invariant forall x :: b.Hashable(x)
      invariant each
    {
      var inp := HexStr(i);
      b.Add(inp);
      var ok := b.Check(inp);
      each := each && ok;
      i := i + 1;
    }
  }

  /** With one flag, adding one member makes every member present. */
  method SmallBitarray(sha512: string -> Sha512Hex) returns (before: bool, after: bool, other: bool)
    ensures !before && after && other
  {
    var b := new BloomFilter.WithDefaultHashes(k := 1, sha512 := sha512);
    AllFalseRejects(b.bits[..], b.Indices("dummy"));
    before := b.Check("dummy");
    ghost var was := b.bits[..];
    ghost var ps, qs := b.Indices("dummy"), b.Indices("not-dummy");
    assert |ps| == 4 && |was| == 1;
    b.Add("dummy");
    after := b.Check("dummy");
    OneBitAcceptsAll(was, ps, qs);
    assert b.Present("not-dummy");
    other := b.Check("not-dummy");
  }

  /** With the identity strategy, `hex(k + 1)` collides with `hex(1)`. */
  method HashCollisions() returns (collides: bool)
    ensures collides
  {
    var b := new BloomFilter(hashes := Identity);
    IdentityIndices(1, b.bits.Length);
    IdentityIndices(b.bits.Length + 1, b.bits.Length);
    b.Add(HexStr(1));
    ModuloCollision(1, b.bits.Length);
    collides := b.Check(HexStr(b.bits.Length + 1));
  }

  /** With the identity strategy, adding `hex(0)` .. `hex(4)` leaves `hex(5)` and `hex(6)` absent. */
  method CheckFailures() returns (five: bool, six: bool)
    ensures !five && !six
  {
    var b := new BloomFilter(hashes := Identity);
    var i := 0;
    while i < 5
      invariant 0 <= i <= 5
      invariant b.Valid() && fresh(b.bits) && b.hashes == Identity
      invariant forall j :: 0 <= j < b.bits.Length ==> b.bits[j] == (j < i)
    {
      IdentityIndices(i, b.bits.Length);
      b.Add(HexStr(i));
      i := i + 1;
    }
    IdentityIndices(5, b.bits.Length);
    IdentityIndices(6, b.bits.Length);
    ghost var p5, p6 := b.Indices(HexStr(5)), b.Indices(HexStr(6));
    assert p5 == [5] && p6 == [6];
    assert !b.bits[..][p5[0]] && !b.bits[..][p6[0]];
    five := b.Check(HexStr(5));
    six := b.Check(HexStr(6));
  }

  /**
   * With a strategy made of two other digests, every member added, numbers
   * and words alike, is accepted right after it is added.
   */
  method MultiHashes(md5: string -> HexDigest, sha256: string -> HexDigest) returns (each: bool)
    ensures each
  {
    var b := new BloomFilter(hashes := x => [md5(x), sha256(x)]);
    forall x ensures b.Hashable(x) {
      PlainDigits(md5(x));
      PlainDigits(sha256(x));
      HexValuesAt([md5(x), sha256(x)]);
    }
    each := true;
    var i := 0;
    while i < b.bits.Length
      invariant b.Valid() && fresh(b.bits)
      invariant forall x :: b.Hashable(x)
      invariant each
    {
      var inp := HexStr(i);
      b.Add(inp);
      var ok := b.Check(inp);
      each := each && ok;
      i := i + 1;
    }
    var words := ["dummy", "test", "nothing", "empty", "", "aaaaaaa", "kdjf"];
    i := 0;
    while i < |words|
      invariant b.Valid() && fresh(b.bits)
      invariant forall x :: b.Hashable(x)
      invariant each
    {
      b.Add(words[i]);
      var ok := b.Check(words[i]);
      each := each && ok;
      i := i + 1;
    }
  }

  /** A strategy that yields no hash values makes every member present. */
  method EmptyStrategy(member: string, query: string) returns (present: bool)
    ensures present
  {
    var b := new BloomFilter(k := 1, hashes := _ => []);
    b.Add(member);
    present := b.Check(query);
  }
}
