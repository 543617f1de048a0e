# Bloom filter, modelled in Dafny

This project models the `BloomFilter` class of `bloom_filter.py`. The class is a
probabilistic set-membership structure. It holds a fixed list of boolean flags
and a pluggable hash strategy. The strategy turns a member into a list of hex
strings.

- `add(member)` reads each hash value with `int(h, 16)`, reduces it modulo the
  array length, and sets that flag.
- `check(member)` recomputes the same indices and answers `False` at the first
  flag that is clear; otherwise it answers `True`.
- The built-in strategy cuts the SHA-512 hexdigest of the member into four slices.

The class promises two things: no false negatives, and members cannot be removed.
The model proves both.

Modules:

- `HexParse` (`hex.dfy`): `int(h, 16)` as `HexValue`. It accepts an optional sign,
  an optional `0x`/`0X` prefix, and at least one digit of either case. `HexStr` is
  Python 2's `hex(n)`, used by the tests. It models `hex` of a number made by
  `int` arithmetic, as every value the tests pass is. Such a number becomes a
  `long` only above `sys.maxint`, and then `hex` appends `L`. The round trip is
  proved for plain `int`s, and the `hex` of such a `long` is proved to be refused.
- `BitArray` (`bits.dfy`): the flag list as a value. `SetAll` sets a list of
  positions. `AllSet` says whether a list of positions is all set. The lemmas
  cover no false negatives, monotonicity, idempotence, order independence and
  the one-flag case.
- `BloomFilters` (`bloom_filter.dfy`): the class `BloomFilter`.
  - `bits` is an `array<bool>`. `Add` updates it in place.
  - `hashes` is the strategy, a total function `string -> seq<string>`.
  - The ghost field `added` records the members added so far.
  - `Valid()` keeps the invariant "every added member is present".
  - `DefaultHashes` is the static `default_hashes` slicing.
- `FilterTests` (`filter_tests.dfy`): the behaviours the unit tests in `test.py`
  check, written as client methods that rely only on the class's contracts.

Members are `string` values (Python 2 `str`). SHA-512, MD5 and SHA-256 cannot be
computed here, so they are parameters. A SHA-512 digest has type `Sha512Hex`: 128
hex digits.

Two points about the source shape the model:

- The source never validates `k`. `[False]*k` (bloom_filter.py:24) gives an
  empty list for `k <= 0`. The first `%` (bloom_filter.py:60, 75) on a member
  with at least one hash value then raises `ZeroDivisionError`. Both
  constructors therefore require `k >= 1`. Like `__init__` (bloom_filter.py:15),
  both take `k` with the default 10000 (`DefaultSize`).
- The strategy returns hex strings (bloom_filter.py:21-22, 43). `add` and
  `check` parse them with `int(h, 16)` (bloom_filter.py:60, 75). The model
  parses them too.

`int(h, 16) % len(...)` is Python's floored modulo. For a positive divisor it
equals Dafny's Euclidean `%`, so negative hash values pick the same index too.

## Model

| member | source | states |
|---|---|---|
| `BloomFilters.BloomFilter.constructor` | bloom_filter.py:15-28 | a new filter has exactly `k` flags (10000 by default), all false, holds the supplied strategy, and has no added members |
| `BloomFilters.BloomFilter.WithDefaultHashes` | bloom_filter.py:15-28 | with no strategy supplied, the strategy is `default_hashes` of the SHA-512 hexdigest; every member then yields four parsable hash values and all `k` flags (10000 by default) start false |
| `BloomFilters.BloomFilter.DefaultHashes` | bloom_filter.py:45-46 | `default_hashes` returns four slices whose concatenation is the digest, for any digest length (Python slices clamp); for a 128-character digest slice `j` is characters `32j .. 32j+32` |
| `BloomFilters.DefaultHashesParse` | bloom_filter.py:45-46 | each slice of a SHA-512 hexdigest is accepted by `int(h, 16)` and reads as the value of its 32 digits |
| `BloomFilters.Positions` | bloom_filter.py:60 | the indices `int(h, 16) % len(bitarray)` are one per hash value and all lie inside the array |
| `BloomFilters.BloomFilter.Hashable` | bloom_filter.py:21-22 | every hash value the strategy yields for a member is a hexadecimal string that `int(h, 16)` accepts |
| `BloomFilters.BloomFilter.Valid` | bloom_filter.py:9-10 | the array is not empty and every member added so far is present, the no-false-negative promise; `Add` keeps it and `Check` relies on it |
| `BloomFilters.BloomFilter.Indices` | bloom_filter.py:59-60 | the indices `add` and `check` visit for a member: one per hash value, each inside the array |
| `BloomFilters.BloomFilter.Present` | bloom_filter.py:74-78 | what `check` answers on the current array: every index of the member is set; `Check` is proved to return it |
| `BloomFilters.BloomFilter.Add` | bloom_filter.py:59-61 | `add` sets the flag of each hash value of the member and nothing else; no flag is cleared; every member present before is still present; the no-false-negative invariant is kept with the member recorded as added |
| `BloomFilters.BloomFilter.Check` | bloom_filter.py:74-78 | `check` answers true exactly when every index of the member is set (false at the first clear one), changes nothing, and answers true for every member added so far |
| `BloomFilters.ModuloCollision` | bloom_filter.py:60 | hash values `v` and `v + k` select the same index, so `hex(v + k)` collides with `hex(v)` under the identity strategy while `v + k` is a plain `int` |
| `BloomFilters.ModPeriod` | bloom_filter.py:60 | adding the array length to a hash value leaves its index unchanged |
| `BitArray.SetAll` | bloom_filter.py:59-61 | after setting a list of positions, the array has the same length and a flag is set exactly when it was set before or its index is in the list |
| `BitArray.SetAllTrueBits` | bloom_filter.py:59-61 | the set of true flags after `add` is exactly the old set plus the member's indices |
| `BitArray.SetAllCovers` | bloom_filter.py:12 | setting positions never clears a flag and keeps the array length (members cannot be removed) |
| `BitArray.NoFalseNegative` | bloom_filter.py:9-10 | right after a member's indices are set, all of them are set, so `check` answers true |
| `BitArray.AllSetMonotone` | bloom_filter.py:9-12 | a member whose indices were all set stays so in any array that keeps every set flag, so later adds never make `check` false |
| `BitArray.SetAllIdempotent` | bloom_filter.py:59-61 | adding the same member twice leaves the same array as adding it once |
| `BitArray.SetAllCommutes` | bloom_filter.py:59-61 | the array after two adds does not depend on their order |
| `BitArray.OneBitAcceptsAll` | test.py:33-39 | with a single flag, one add of a member with at least one hash value makes every member present |
| `BitArray.AllFalseRejects` | bloom_filter.py:24 | in the fresh all-false array a member is present exactly when it has no hash values |
| `HexParse.HexValues` | bloom_filter.py:59-60 | reading all hash values of a member yields one value per hash value |
| `HexParse.HexValuesAt` | bloom_filter.py:59-60 | the hash values of a member can all be read exactly when each one is accepted by `int(h, 16)`, and the list holds each one's value in order |
| `HexParse.HexValuesSingle` | bloom_filter.py:59-60 | a one-element strategy result reads as the one value of that element |
| `HexParse.HexValue` | bloom_filter.py:60 | `int(h, 16)`: a value for an optional sign, an optional `0x`/`0X` and at least one hex digit, `None` (a `ValueError`) otherwise; its properties are `PlainDigits`, `Rejects`, `HexRoundTrip` and `LongRejected` |
| `HexParse.HexStr` | test.py:8-11 | Python 2's `hex(n)` starts with `0x` and ends in `L` exactly when `n` is above `sys.maxint`, where `int` arithmetic yields a `long` |
| `HexParse.HexRoundTrip` | test.py:8-11 | `int(hex(n), 16) == n` for every non-negative plain `int` `n` |
| `HexParse.LongRejected` | test.py:8-11 | `int(hex(n), 16)` refuses the `hex` of a number above `sys.maxint`, because of its `L` |
| `HexParse.DigitsOfRoundTrip` | test.py:8-11 | the digits `hex` writes read back as the number |
| `HexParse.HexDigitsOf` | test.py:8-11 | `hex` writes a non-empty run of hex digits with no leading zero |
| `HexParse.HexDigitChar` | test.py:8-11 | each digit `hex` writes is a hex digit that reads back as its value |
| `HexParse.PlainDigits` | bloom_filter.py:60 | a bare non-empty run of hex digits, as a hexdigest is, reads as the value of its digits |
| `HexParse.Rejects` | bloom_filter.py:60 | the empty string, a bare `0x`, a bare sign and a non-digit are refused by `int(h, 16)` |
| `FilterTests.Identity` | test.py:42 | the strategy `lambda x: [x]` (also test.py:49): the member is its own single hash value; `IdentityIndices` states what it selects |
| `FilterTests.IdentityIndices` | test.py:42-57 | with the identity strategy `hex(n)` selects the single index `n % k` |
| `FilterTests.Defaults` | test.py:16-19 | the default filter has 10000 flags, none set, and its strategy is `default_hashes` of the SHA-512 hexdigest on every member |
| `FilterTests.AddThenCheck` | test.py:21-31 | a fresh default filter rejects "dummy" and accepts it once added; each of `hex(0)` .. `hex(9999)` is accepted right after it is added |
| `FilterTests.SmallBitarray` | test.py:33-39 | with one flag, "dummy" is rejected before an add and accepted after it, and so is "not-dummy" |
| `FilterTests.HashCollisions` | test.py:41-46 | with the identity strategy, after adding `hex(1)` the value `hex(10001)` is accepted |
| `FilterTests.CheckFailures` | test.py:48-57 | with the identity strategy, after adding `hex(0)` .. `hex(4)` both `hex(5)` and `hex(6)` are rejected |
| `FilterTests.MultiHashes` | test.py:59-72 | with a strategy built from two other hexdigests, every number and word added is accepted right after its add |
| `BloomFilters.NoHashValuesPresent` | bloom_filter.py:74-78 | for any filter of any size and history, a member with no hash values is present, so `check` answers true |
| `FilterTests.EmptyStrategy` | bloom_filter.py:74-78 | an example: with a strategy that yields no hash values, a one-flag filter answers true for any query after any one add |

## Left out

- SHA-512, MD5 and SHA-256 are `hashlib` code. They are parameters: a SHA-512 digest is any 128 hex digits, and MD5 and SHA-256 digests are any non-empty run of hex digits.
- `spell_check.py` is left out entirely. It is argument parsing, file reading and printing, and it only calls `add` and `check`.
- The `unittest` harness is not modelled. Its assertions are the `FilterTests` methods.
- False-positive probability is not modelled. The code does not compute it, and it needs real-valued reasoning.
- Concurrency is not modelled. The code is single-threaded.
- Python truthiness of the `hashes` argument is not modelled. "Strategy supplied" and "no strategy" are the two constructors.
- Identity comparison of the default strategy (test.py:19) is stated extensionally: the stored strategy agrees with `default_hashes` of the digest on every member.
- A strategy that raises is not modelled: strategies are total functions.
- BloomFilters.BloomFilter.constructor: requires `k >= 1`. For `k <= 0` the source builds an empty list, and the first `add` or `check` of a member with at least one hash value raises `ZeroDivisionError`. For a member with none, the source accepts `k <= 0`: `add` does nothing and `check` answers `True`. The model does not cover that case.
- BloomFilters.BloomFilter.WithDefaultHashes: requires `k >= 1`. `default_hashes` always yields four values, so for `k <= 0` the first `add` or `check` raises `ZeroDivisionError`.
- BloomFilters.BloomFilter.Add: requires every hash value of the member to be accepted by `int(h, 16)`, as the constructor's docstring demands (bloom_filter.py:21-22). The source would raise `ValueError` after setting the flags of the earlier hash values. That partial update is not modelled.
- BloomFilters.BloomFilter.Check: has the same requirement, which is stronger than the source needs. The source answers `False` at a clear flag before it reads any later, unparsable hash value.
- HexParse.HexValue: the surrounding whitespace that `int(h, 16)` also tolerates is refused. No hash value in the source carries any.
- BloomFilters.BloomFilter.Check and Add compute each index from `HexValues(hs).value[i]`. The second conclusion of `HexValuesAt` proves this is `int(hs[i], 16)`. Reading it this way keeps the proofs small.
- HexParse.MaxInt: `sys.maxint` is taken as that of a 64-bit Python 2 (`2**63 - 1`). On a 32-bit build it is `2**31 - 1`. The tests use values up to 10001, which are plain `int`s on both.
