/** The 256-bucket chained hash table of src/hash.c. Keys are the text of
    C strings (no terminator, no NUL inside); a chain is a sequence whose
    head is the most recently inserted entry. */
module Hash {
  import opened Wrappers

  /** The 64-bit FNV-1a offset basis and prime. */
  const OffsetBasis: bv64 := 14695981039346656037
  const Prime: bv64 := 1099511628211

  /** A character as `(unsigned long)*key` sees it: the character is a C
      `char`, a byte taken to be signed, so bytes 128..255 are
      sign-extended. */
  function Widen(c: char): bv64
  {
    var b := (c as int) % 256;
    if b < 128 then b as bv64 else (b as bv64) | 0xFFFF_FFFF_FFFF_FF00
  }

  /** One FNV-1a round: xor the character in, then multiply by the prime
      (wrapping modulo 2^64). */
  function Round(hash: bv64, c: char): bv64
  {
    (hash ^ Widen(c)) * Prime
  }

  /** 64-bit FNV-1a over the key, one round per character in order. */
  function Fnv(key: string): bv64
  {
    if |key| == 0 then OffsetBasis else Round(Fnv(key[..|key| - 1]), key[|key| - 1])
  }

  /** Byte `i` of a 64-bit value, the least significant first. */
  function ByteOf(h: bv64, i: nat): bv8
    requires i < 8
  {
    ((h >> (8 * i)) & 0xFF) as bv8
  }

  /** The xor of the bytes 0..n-1 of `h`. */
  function XorBytes(h: bv64, n: nat): bv8
    requires 1 <= n <= 8
  {
    if n == 1 then ByteOf(h, 0) else XorBytes(h, n - 1) ^ ByteOf(h, n - 1)
  }

  /** hash_index: FNV-1a folded to eight bits by xor-ing its eight bytes,
      as a bucket number. The xor of all bytes does not depend on the
      order in which memory holds them. */
  function Index(key: string): (i: nat)
    ensures i < 256
  {
    XorBytes(Fnv(key), 8) as nat
  }

  /** hash_index with its two loops. */
  method HashIndex(key: string) returns (index: nat)
    ensures index == Index(key)
  {
    var hash := OffsetBasis;
    var k := 0;
    while k < |key|
      invariant k <= |key| && hash == Fnv(key[..k])
    {
      assert key[..k + 1][..k] == key[..k];
      hash := Round(hash, key[k]);
      k := k + 1;
    }
    assert key[..k] == key;
    var folded := ByteOf(hash, 0);
    for i := 1 to 8
      invariant folded == XorBytes(hash, i)
    {
      folded := folded ^ ByteOf(hash, i);
    }
    index := folded as nat;
  }

  /** An example on a fixed input: the empty key hashes to the offset
      basis, whose bytes xor to 0xe1. */
  lemma EmptyKey(h: bv64)
    requires h == Fnv("")
    ensures h == 0xcbf29ce484222325
    ensures Index("") == 0xe1
  {
    assert ByteOf(h, 0) == 0x25 && ByteOf(h, 1) == 0x23 && ByteOf(h, 2) == 0x22 && ByteOf(h, 3) == 0x84;
    assert ByteOf(h, 4) == 0xe4 && ByteOf(h, 5) == 0x9c && ByteOf(h, 6) == 0xf2 && ByteOf(h, 7) == 0xcb;
  }

  /** An example on a fixed input: the published FNV-1a 64-bit value of
      "a". */
  lemma StandardVector(key: string)
    requires key == "a"
    ensures Fnv(key) == 0xaf63dc4c8601ec8c
  {
    assert key[..0] == "";
    assert Widen('a') == 0x61;
    assert Fnv(key) == Round(OffsetBasis, 'a');
  }

  datatype Entry<V> = Entry(key: string, value: V)

  /** The value of the first entry of the chain with the key: what the
      retrieve loop returns. */
  function Find<V>(chain: seq<Entry<V>>, key: string): Option<V>
  {
    if |chain| == 0 then None
    else if chain[0].key == key then Some(chain[0].value)
    else Find(chain[1..], key)
  }

  /** Find's reference definition: it gives v exactly when some entry
      binds the key to v and no earlier entry binds the key at all. */
  lemma {:induction false} FindFirst<V>(chain: seq<Entry<V>>, key: string, v: V)
    ensures Find(chain, key) == Some(v) <==>
      exists j :: 0 <= j < |chain| && chain[j] == Entry(key, v) && forall m :: 0 <= m < j ==> chain[m].key != key
    ensures Find(chain, key) == None <==> forall j :: 0 <= j < |chain| ==> chain[j].key != key
  {
    if |chain| > 0 {
      FindFirst(chain[1..], key, v);
      if chain[0].key == key {
        if chain[0].value == v {
          assert chain[0] == Entry(key, v);
        }
      } else {
        if exists j :: 0 <= j < |chain| && chain[j] == Entry(key, v) && forall m :: 0 <= m < j ==> chain[m].key != key {
          var j :| 0 <= j < |chain| && chain[j] == Entry(key, v) && forall m :: 0 <= m < j ==> chain[m].key != key;
          assert chain[1..][j - 1] == chain[j];
        }
        if Find(chain, key) == Some(v) {
          var j :| 0 <= j < |chain[1..]| && chain[1..][j] == Entry(key, v)
                   && forall m :: 0 <= m < j ==> chain[1..][m].key != key;
          assert chain[j + 1] == Entry(key, v);
          assert forall m :: 0 <= m < j + 1 ==> chain[m].key != key by {
            forall m | 0 <= m < j + 1
              ensures chain[m].key != key
            {
              if m > 0 { assert chain[m] == chain[1..][m - 1]; }
            }
          }
        }
        if forall j :: 0 <= j < |chain[1..]| ==> chain[1..][j].key != key {
          forall j | 0 <= j < |chain|
            ensures chain[j].key != key
          {
            if j > 0 { assert chain[j] == chain[1..][j - 1]; }
          }
        }
      }
    }
  }

  /** A new entry at the head of a chain shadows every older entry with
      its key and hides no other key: the most recent insertion wins. */
  lemma FindPrepended<V>(chain: seq<Entry<V>>, key: string, value: V, other: string)
    ensures Find([Entry(key, value)] + chain, key) == Some(value)
    ensures other != key ==> Find([Entry(key, value)] + chain, other) == Find(chain, other)
  {
    assert ([Entry(key, value)] + chain)[1..] == chain;
  }

  class HashTable<V> {
    const buckets: array<seq<Entry<V>>>

    /** 256 buckets, each entry in the bucket its key hashes to. */
    ghost predicate Valid()
      reads buckets
    {
      buckets.Length == 256 &&
      forall i, j :: 0 <= i < 256 && 0 <= j < |buckets[i]| ==> Index(buckets[i][j].key) == i
    }

    /** What retrieve returns for a key. */
    ghost function Lookup(key: string): Option<V>
      requires Valid()
      reads buckets
    {
      Find(buckets[Index(key)], key)
    }

    /** hash_init: every bucket empty, so nothing is bound. */
    constructor Init()
      ensures Valid() && fresh(buckets)
      ensures forall i :: 0 <= i < 256 ==> buckets[i] == []
      ensures forall key :: Lookup(key) == None
    {
      buckets := new seq<Entry<V>>[256];
      new;
      for i := 0 to 256
        invariant forall m :: 0 <= m < i ==> buckets[m] == []
      {
        buckets[i] := [];
      }
    }

    /** hash_insert: prepend an entry to the key's chain, without looking
        for an older entry with the same key; every other bucket is left
        as it was. */
    method Insert(key: string, value: V)
      requires Valid()
      modifies buckets
      ensures Valid()
      ensures buckets[Index(key)] == [Entry(key, value)] + old(buckets[Index(key)])
      ensures forall i :: 0 <= i < 256 && i != Index(key) ==> buckets[i] == old(buckets[i])
      ensures forall k :: Lookup(k) == if k == key then Some(value) else old(Lookup(k))
    {
      var index := HashIndex(key);
      buckets[index] := [Entry(key, value)] + buckets[index];
      forall k
        ensures Lookup(k) == if k == key then Some(value) else old(Lookup(k))
      {
        FindPrepended(old(buckets[index]), key, value, k);
      }
    }

    /** hash_retrieve: walk the key's chain and return the value of the
        first entry whose key equals it, or nothing. */
    method Retrieve(key: string) returns (r: Option<V>)
      requires Valid()
      ensures r == Lookup(key)
    {
      var index := HashIndex(key);
      var chain := buckets[index];
      var k := 0;
      while k < |chain|
        invariant k <= |chain| && Find(chain, key) == Find(chain[k..], key)
      {
        if chain[k].key == key {
          return Some(chain[k].value);
        }
        assert chain[k..][1..] == chain[k + 1..];
        k := k + 1;
      }
      return None;
    }
  }
}
