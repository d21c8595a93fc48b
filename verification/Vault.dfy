/** The key vault: a keystream cipher over a keyed block function, refining a map of secrets. */
module Vault {
  import opened Basics
  import opened Text

  type Bytes = seq<bv8>
  /** What the keyed hash gives back, whatever it is: 32 bytes. */
  type Block = b: Bytes | |b| == 32 witness seq(32, _ => 0)
  type Prf = (Bytes, Bytes, nat) -> Block

  function Xor(data: Bytes, stream: Bytes): (r: Bytes)
    requires |data| == |stream|
    ensures |r| == |data|
  {
    seq(|data|, i requires 0 <= i < |data| => data[i] ^ stream[i])
  }

  /** The blocks of counters 0 to `n` - 1, one after another. */
  function Blocks(prf: Prf, master: Bytes, nonce: Bytes, n: nat): (s: Bytes)
    ensures |s| == 32 * n
  {
    if n == 0 then [] else Blocks(prf, master, nonce, n - 1) + prf(master, nonce, n - 1)
  }

  /** The first `length` bytes of the endless sequence of blocks. */
  function Stream(prf: Prf, master: Bytes, nonce: Bytes, length: nat): (s: Bytes)
    ensures |s| == length
  {
    Blocks(prf, master, nonce, length / 32 + 1)[..length]
  }

  lemma {:induction false} BlocksPrefix(prf: Prf, master: Bytes, nonce: Bytes, m: nat, n: nat)
    requires m <= n
    ensures Blocks(prf, master, nonce, m) == Blocks(prf, master, nonce, n)[..32 * m]
  {
    if m < n {
      BlocksPrefix(prf, master, nonce, m, n - 1);
    }
  }

  /** A shorter stream is the beginning of a longer one. */
  lemma StreamsAreConsistent(prf: Prf, master: Bytes, nonce: Bytes, short: nat, long: nat)
    requires short <= long
    ensures Stream(prf, master, nonce, short) == Stream(prf, master, nonce, long)[..short]
  {
    var (m, n) := (short / 32 + 1, long / 32 + 1);
    BlocksPrefix(prf, master, nonce, m, n);
    var all := Blocks(prf, master, nonce, n);
    assert all[..32 * m][..short] == all[..short];
    assert all[..long][..short] == all[..short];
  }

  method Keystream(prf: Prf, master: Bytes, nonce: Bytes, length: nat) returns (stream: Bytes)
    ensures stream == Stream(prf, master, nonce, length)
  {
    var out: Bytes := [];
    var counter := 0;
    while |out| < length
      invariant out == Blocks(prf, master, nonce, counter)
      invariant counter > 0 ==> 32 * (counter - 1) < length
      decreases length - |out|
    {
      out := out + prf(master, nonce, counter);
      counter := counter + 1;
    }
    BlocksPrefix(prf, master, nonce, counter, length / 32 + 1);
    var all := Blocks(prf, master, nonce, length / 32 + 1);
    assert all[..32 * counter][..length] == all[..length];
    stream := out[..length];
  }

  /** The cipher undoes itself. */
  lemma XorTwice(data: Bytes, stream: Bytes)
    requires |data| == |stream|
    ensures Xor(Xor(data, stream), stream) == data
  {
    forall i | 0 <= i < |data| ensures (data[i] ^ stream[i]) ^ stream[i] == data[i] {
      XorBits(data[i], stream[i]);
    }
  }

  lemma XorBits(a: bv8, b: bv8)
    ensures (a ^ b) ^ b == a
  {
  }

  /** Each byte of the stream is the byte of its block: block `i / 32`, place `i % 32`. */
  lemma StreamByte(prf: Prf, master: Bytes, nonce: Bytes, length: nat, i: nat)
    requires i < length
    ensures Stream(prf, master, nonce, length)[i] == prf(master, nonce, i / 32)[i % 32]
  {
    var n := i / 32;
    BlocksPrefix(prf, master, nonce, n + 1, length / 32 + 1);
    assert Blocks(prf, master, nonce, n + 1)[i] == prf(master, nonce, n)[i - 32 * n];
  }

  /** The ciphertext differs from the text by exactly the stream. */
  lemma CipherByte(prf: Prf, master: Bytes, nonce: Bytes, plain: Bytes, i: nat)
    requires i < |plain|
    ensures Seal(prf, master, nonce, plain)[i] ^ plain[i] == prf(master, nonce, i / 32)[i % 32]
  {
    hide Stream;
    StreamByte(prf, master, nonce, |plain|, i);
    XorOther(plain[i], Stream(prf, master, nonce, |plain|)[i]);
  }

  lemma XorOther(a: bv8, b: bv8)
    ensures (a ^ b) ^ a == b
  {
  }

  datatype Entry = Entry(nonce: Bytes, ciphertext: Bytes, source: string)

  function Seal(prf: Prf, master: Bytes, nonce: Bytes, plain: Bytes): (r: Bytes)
    ensures |r| == |plain|
  {
    Xor(plain, Stream(prf, master, nonce, |plain|))
  }

  /** The entry holds this text under this master key. */
  predicate Holds(prf: Prf, master: Bytes, e: Entry, plain: Bytes) {
    |e.nonce| == 16 && plain != [] && e.ciphertext == Seal(prf, master, e.nonce, plain)
  }

  lemma Unseal(prf: Prf, master: Bytes, e: Entry, plain: Bytes)
    requires Holds(prf, master, e, plain)
    ensures e.nonce != [] && e.ciphertext != []
    ensures Seal(prf, master, e.nonce, e.ciphertext) == plain
  {
    hide Stream, Xor;
    XorTwice(plain, Stream(prf, master, e.nonce, |plain|));
  }

  datatype Error = ProviderRequired | SecretRequired

  class KeyVault {
    const prf: Prf
    const encode: string -> Bytes
    const decode: Bytes -> string
    const lower: string -> string
    /** The master key file, if it is there. */
    var master: Option<Bytes>
    var entries: map<string, Entry>
    /** The secret last put under each provider. */
    ghost var secrets: map<string, string>

    ghost predicate Valid()
      reads this
    {
      && (forall s: string :: decode(encode(s)) == s && (s != "" ==> encode(s) != []))
      && entries.Keys == secrets.Keys
      && (entries.Keys != {} ==> master.Some? && |master.value| == 32)
      && forall name | name in secrets :: Holds(prf, master.value, entries[name], encode(secrets[name]))
    }

    constructor (prf: Prf, encode: string -> Bytes, decode: Bytes -> string, lower: string -> string)
      requires forall s: string :: decode(encode(s)) == s && (s != "" ==> encode(s) != [])
      ensures Valid() && secrets == map[]
      ensures this.prf == prf && this.encode == encode && this.decode == decode && this.lower == lower
    {
      this.prf, this.encode, this.decode, this.lower := prf, encode, decode, lower;
      master, entries, secrets := None, map[], map[];
    }

    method LoadOrCreateMaster(random: Block) returns (key: Bytes)
      modifies this`master
      ensures master == Some(key) && |key| == 32
      ensures old(master).Some? && |old(master).value| == 32 ==> master == old(master)
    {
      if master.Some? && |master.value| == 32 {
        return master.value;
      }
      key := random;
      master := Some(key);
    }

    method Put(provider: string, secret: string, source: string, random: Block, nonce: Bytes)
      returns (error: Option<Error>)
      requires Valid() && |nonce| == 16
      modifies this
      ensures Valid()
      ensures var (name, text) := (lower(Strip(provider)), Strip(secret));
        match error
        case Some(ProviderRequired) => name == "" && secrets == old(secrets)
        case Some(SecretRequired) => name != "" && text == "" && secrets == old(secrets)
        case None => name != "" && text != "" && secrets == old(secrets)[name := text]
    {
      hide Strip, Stream, Xor;
      var name := lower(Strip(provider));
      var text := Strip(secret);
      if name == "" {
        return Some(ProviderRequired);
      }
      if text == "" {
        return Some(SecretRequired);
      }
      var key := LoadOrCreateMaster(random);
      var raw := encode(text);
      var stream := Keystream(prf, key, nonce, |raw|);
      entries := entries[name := Entry(nonce, Xor(raw, stream), source)];
      secrets := secrets[name := text];
      error := None;
    }

    method Get(provider: string, random: Block) returns (secret: Option<string>)
      requires Valid()
      modifies this`master
      ensures Valid() && secrets == old(secrets)
      ensures var name := lower(Strip(provider));
        secret == if name in secrets then Some(secrets[name]) else None
    {
      hide Strip, Stream, Xor, Holds;
      var name := lower(Strip(provider));
      if name !in entries {
        return None;
      }
      var entry := entries[name];
      Unseal(prf, master.value, entry, encode(secrets[name]));
      if entry.nonce == [] || entry.ciphertext == [] {
        return None;
      }
      var key := LoadOrCreateMaster(random);
      var stream := Keystream(prf, key, entry.nonce, |entry.ciphertext|);
      secret := Some(decode(Xor(entry.ciphertext, stream)));
    }
  }
}
