/** The commitment engine of the commit-reveal vote: salts and identity secrets
    folded big-endian out of 31 random bytes, and the Solidity
    `abi.encodePacked` preimages of the commitment and the nullifier, hashed by
    Keccak-256. The hash is a parameter: any function from byte strings to
    32-byte strings. */
module VotingUtils {
  import opened Js

  type byte = b: int | 0 <= b < 256

  /** A 32-byte string: a hash output or a fresh `Uint8Array(32)` of
      random bytes. */
  type Bytes32 = s: seq<byte> | |s| == 32 witness seq(32, _ => 0)

  /** Keccak-256 (the pre-FIPS-202 Ethereum variant), left abstract. */
  type Keccak = seq<byte> -> Bytes32

  /** Number of random bytes folded into a salt; the 32nd byte is never read. */
  const SALT_BYTES: nat := 31

  /** 256^n. */
  function Pow256(n: nat): (r: nat)
    ensures r > 0
  {
    if n == 0 then 1 else 256 * Pow256(n - 1)
  }

  /** Exclusive upper bounds of Solidity `uint256` and `uint64`. */
  const UINT256_BOUND: nat := Pow256(32)
  const UINT64_BOUND: nat := Pow256(8)

  /** Big-endian value of a byte string: `value = value * 256 + byte`, left to right. */
  function BigEndian(bs: seq<byte>): nat {
    if bs == [] then 0 else BigEndian(bs[..|bs| - 1]) * 256 + bs[|bs| - 1]
  }

  /** The `n`-byte big-endian representation of `x`. */
  function ToBigEndian(x: nat, n: nat): (r: seq<byte>)
    requires x < Pow256(n)
    ensures |r| == n
  {
    if n == 0 then [] else ToBigEndian(x / 256, n - 1) + [x % 256]
  }

  /** An `n`-byte big-endian value is below 256^n. */
  lemma {:induction false} BigEndianBound(bs: seq<byte>)
    ensures BigEndian(bs) < Pow256(|bs|)
  {
    if bs != [] {
      var init := bs[..|bs| - 1];
      BigEndianBound(init);
      assert BigEndian(init) + 1 <= Pow256(|init|);
      assert (BigEndian(init) + 1) * 256 <= Pow256(|init|) * 256;
    }
  }

  /** Decoding an encoding gives the number back. */
  lemma {:induction false} BigEndianOfToBigEndian(x: nat, n: nat)
    requires x < Pow256(n)
    ensures BigEndian(ToBigEndian(x, n)) == x
  {
    if n > 0 {
      var r := ToBigEndian(x, n);
      assert r[..n - 1] == ToBigEndian(x / 256, n - 1);
      BigEndianOfToBigEndian(x / 256, n - 1);
    }
  }

  /** Encoding a decoded byte string gives the bytes back: together with
      BigEndianOfToBigEndian, the fold is a bijection between n-byte strings
      and [0, 256^n). */
  lemma {:induction false} ToBigEndianOfBigEndian(bs: seq<byte>)
    ensures BigEndian(bs) < Pow256(|bs|)
    ensures ToBigEndian(BigEndian(bs), |bs|) == bs
  {
    BigEndianBound(bs);
    if bs != [] {
      var init := bs[..|bs| - 1];
      ToBigEndianOfBigEndian(init);
      var v := BigEndian(bs);
      assert v / 256 == BigEndian(init) && v % 256 == bs[|bs| - 1];
      assert bs == init + [bs[|bs| - 1]];
    }
  }

  /** The loop shared by generateSalt and generateIdentitySecret: fold the
      first 31 of the 32 random bytes into an integer, most significant first. */
  method FoldRandomBytes(random: Bytes32) returns (value: nat)
    ensures value == BigEndian(random[..SALT_BYTES])
    ensures value < Pow256(SALT_BYTES)
  {
    value := 0;
    for i := 0 to SALT_BYTES
      invariant value == BigEndian(random[..i])
    {
      assert random[..i + 1][..i] == random[..i];
      value := value * 256 + random[i];
    }
    BigEndianBound(random[..SALT_BYTES]);
  }

  /** generateSalt, given the bytes `crypto.getRandomValues` wrote. */
  method GenerateSalt(random: Bytes32) returns (salt: nat)
    ensures salt == BigEndian(random[..SALT_BYTES])
    ensures salt < Pow256(SALT_BYTES) < UINT256_BOUND
  {
    salt := FoldRandomBytes(random);
  }

  /** generateIdentitySecret: the same construction as generateSalt. */
  method GenerateIdentitySecret(random: Bytes32) returns (secret: nat)
    ensures secret == BigEndian(random[..SALT_BYTES])
    ensures secret < Pow256(SALT_BYTES) < UINT256_BOUND
  {
    secret := FoldRandomBytes(random);
  }

  /** The salt depends on the first 31 random bytes only, and determines
      them: two buffers give the same salt exactly when they agree on those bytes. */
  lemma SaltDeterminesBytes(a: Bytes32, b: Bytes32)
    ensures BigEndian(a[..SALT_BYTES]) == BigEndian(b[..SALT_BYTES]) <==> a[..SALT_BYTES] == b[..SALT_BYTES]
  {
    ToBigEndianOfBigEndian(a[..SALT_BYTES]);
    ToBigEndianOfBigEndian(b[..SALT_BYTES]);
  }

  /** One `uintN` argument of viem's `encodePacked`: `size` big-endian bytes;
      a value outside `[0, 256^size)` makes viem throw, modelled as None. */
  function EncodeUint(x: int, size: nat): (r: Option<seq<byte>>)
    ensures r.Some? <==> 0 <= x < Pow256(size)
    ensures r.Some? ==> |r.value| == size && BigEndian(r.value) == x
  {
    if 0 <= x < Pow256(size) then
      BigEndianOfToBigEndian(x, size);
      Some(ToBigEndian(x, size))
    else None
  }

  /** `encodePacked(["uint256", "uint256"], [vote, salt])`. */
  function CommitmentPreimage(vote: int, salt: int): (r: Option<seq<byte>>)
    ensures r.Some? <==> 0 <= vote < UINT256_BOUND && 0 <= salt < UINT256_BOUND
    ensures r.Some? ==>
              |r.value| == 64 && BigEndian(r.value[..32]) == vote && BigEndian(r.value[32..]) == salt
  {
    match (EncodeUint(vote, 32), EncodeUint(salt, 32))
    case (Some(v), Some(s)) =>
      assert (v + s)[..32] == v && (v + s)[32..] == s;
      Some(v + s)
    case _ => None
  }

  /** calculateCommitment: keccak256(encodePacked(uint256 vote, uint256 salt)).
      The source returns the 32 hash bytes as a hex string; the model keeps the bytes. */
  function CalculateCommitment(keccak: Keccak, vote: int, salt: int): (r: Option<Bytes32>)
    ensures r.Some? <==> 0 <= vote < UINT256_BOUND && 0 <= salt < UINT256_BOUND
    ensures r.Some? ==> r.value == keccak(CommitmentPreimage(vote, salt).value)
  {
    match CommitmentPreimage(vote, salt)
    case Some(pre) => Some(keccak(pre))
    case None => None
  }

  /** Distinct in-range (vote, salt) pairs have distinct preimages, so two
      commitments can only coincide through a Keccak collision. */
  lemma CommitmentPreimageInjective(v1: int, s1: int, v2: int, s2: int)
    requires CommitmentPreimage(v1, s1).Some? && CommitmentPreimage(v2, s2).Some?
    requires CommitmentPreimage(v1, s1) == CommitmentPreimage(v2, s2)
    ensures v1 == v2 && s1 == s2
  {
  }

  /** The preimage is exactly the 32-byte big-endian vote followed by the
      32-byte big-endian salt (Solidity's non-standard packed mode). */
  lemma CommitmentPreimageLayout(vote: nat, salt: nat)
    requires vote < UINT256_BOUND && salt < UINT256_BOUND
    ensures CommitmentPreimage(vote, salt) == Some(ToBigEndian(vote, 32) + ToBigEndian(salt, 32))
  {
  }

  /** `encodePacked(["uint256", "uint256", "uint64"], [secret, salt, proposalId])`. */
  function NullifierPreimage(secret: int, salt: int, proposalId: int): (r: Option<seq<byte>>)
    ensures r.Some? <==> 0 <= secret < UINT256_BOUND && 0 <= salt < UINT256_BOUND && 0 <= proposalId < UINT64_BOUND
    ensures r.Some? ==>
              && |r.value| == 72
              && BigEndian(r.value[..32]) == secret
              && BigEndian(r.value[32..64]) == salt
              && BigEndian(r.value[64..]) == proposalId
  {
    match (EncodeUint(secret, 32), EncodeUint(salt, 32), EncodeUint(proposalId, 8))
    case (Some(a), Some(b), Some(c)) =>
      assert (a + b + c)[..32] == a && (a + b + c)[32..64] == b && (a + b + c)[64..] == c;
      Some(a + b + c)
    case _ => None
  }

  /** calculateNullifier: the 32 bytes of keccak256 over the 72-byte preimage. */
  function CalculateNullifier(keccak: Keccak, secret: int, salt: int, proposalId: int): (r: Option<Bytes32>)
    ensures r.Some? <==> 0 <= secret < UINT256_BOUND && 0 <= salt < UINT256_BOUND && 0 <= proposalId < UINT64_BOUND
    ensures r.Some? ==> r.value == keccak(NullifierPreimage(secret, salt, proposalId).value)
  {
    match NullifierPreimage(secret, salt, proposalId)
    case Some(pre) => Some(keccak(pre))
    case None => None
  }

  /** Distinct in-range (secret, salt, proposalId) triples have distinct preimages. */
  lemma NullifierPreimageInjective(a1: int, b1: int, c1: int, a2: int, b2: int, c2: int)
    requires NullifierPreimage(a1, b1, c1).Some? && NullifierPreimage(a2, b2, c2).Some?
    requires NullifierPreimage(a1, b1, c1) == NullifierPreimage(a2, b2, c2)
    ensures a1 == a2 && b1 == b2 && c1 == c2
  {
  }

  /** A salt from generateSalt is always accepted by calculateCommitment for
      any vote in the uint256 range. */
  lemma GeneratedSaltEncodes(keccak: Keccak, vote: int, random: Bytes32)
    requires 0 <= vote < UINT256_BOUND
    ensures CalculateCommitment(keccak, vote, BigEndian(random[..SALT_BYTES])).Some?
  {
    BigEndianBound(random[..SALT_BYTES]);
  }
}
