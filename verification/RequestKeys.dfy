/** 64-bit keys packed from two 32-bit halves, and the hash that supplies the upper half. */
module RequestKeys {

  type u64 = n: int | 0 <= n < 0x1_0000_0000_0000_0000

  /**
   * A 64-bit hash table key, kept as the two halves it is packed from.
   * `BitsRoundTrip` shows that a key and its 64 bits determine each other.
   */
  datatype Key = Key(high: bv32, low: bv32)
  {
    function Bits(): bv64 { ((high as bv64) << 32) | (low as bv64) }
  }

  function KeyOf(bits: bv64): Key {
    Key(((bits >> 32) & 0xFFFF_FFFF) as bv32, (bits & 0xFFFF_FFFF) as bv32)
  }

  lemma BitsRoundTrip(key: Key, bits: bv64)
    ensures KeyOf(key.Bits()) == key
    ensures KeyOf(bits).Bits() == bits
  {
  }

  /** One byte of 32-bit FNV-1a. The characters of a C string are bytes. */
  function Fnv1aStep(hash: bv32, c: char): bv32 {
    (hash ^ ((c as int % 256) as bv32)) * 16777619
  }

  function Fold(step: (bv32, char) -> bv32, seed: bv32, text: string): bv32
    decreases |text|
  {
    if text == [] then seed else Fold(step, step(seed, text[0]), text[1..])
  }

  function Hash(text: string): bv32 {
    Fold(Fnv1aStep, 2166136261, text)
  }

  /** The loop of the collector's string hash. */
  method HashString(text: string) returns (hash: bv32)
    ensures hash == Hash(text)
  {
    hash := 2166136261;
    var rest := text;
    while rest != []
      invariant Fold(Fnv1aStep, hash, rest) == Hash(text)
      decreases |rest|
    {
      hash := Fnv1aStep(hash, rest[0]);
      rest := rest[1..];
    }
  }
}
