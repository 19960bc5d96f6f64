/** Types shared by the pallet, its helper functions and the miner. */
module Types {
  import opened Arith

  type AccountId = nat

  /** A 256-bit Blake2 digest, read as a big-endian number. */
  type Hash = n: nat | n < U256_LIMIT

  /** `u64::from_be_bytes(hash[0..8])`. */
  function Prefix64(h: Hash): u64
  {
    h / (U128_LIMIT * U64_LIMIT)
  }

  datatype Option<+T> = None | Some(value: T)

  const WINDOW_LIMIT: nat := 100

  /** `BoundedVec<AccountId, 100>`: the most recent block producers. */
  type Window = ps: seq<AccountId> | |ps| <= WINDOW_LIMIT

  type PqcSignature = seq<u8>
  type PqcKey = seq<u8>

  datatype Header = Header(
    number: u32, parentHash: Hash, stateRoot: Hash, extrinsicsRoot: Hash,
    nonce: u64, difficulty: u64,
    validatorSignature: Option<Hash>, pqcSignature: Option<PqcSignature>)

  /** The header fields that enter the proof of work: neither signature, and not the difficulty. */
  datatype PowInput = PowInput(
    number: u32, parentHash: Hash, stateRoot: Hash, extrinsicsRoot: Hash, nonce: u64)

  function PowInputOf(h: Header): PowInput
  {
    PowInput(h.number, h.parentHash, h.stateRoot, h.extrinsicsRoot, h.nonce)
  }

  /** Blake2 over two kinds of input, as arbitrary functions. */
  datatype Blake = Blake(ofPow: PowInput -> Hash, ofHash: Hash -> Hash)

  /** The first eight bytes of the double hash. */
  function PowValue(blake: Blake, input: PowInput): u64
  {
    Prefix64(blake.ofHash(blake.ofPow(input)))
  }

  /** `verify_pow_enhanced`. */
  predicate VerifyPow(blake: Blake, h: Header, target: u64)
  {
    PowValue(blake, PowInputOf(h)) <= target
  }
}
