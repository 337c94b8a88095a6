/** The index of bindings by name (mqcore/binding_hash.c). */
module BindingHashes {
  import opened Bytes
  import opened ChainTables

  /** A destination name: bytes without NUL, shorter than BINDING_NAME_MAX. */
  type Name = seq<byte>

  const BUCKETS := 257

  /** unsigned. */
  type Word = w: nat | w < 0x1_0000_0000

  const BASIS: Word := 2166136261

  function Xor(a: byte, b: byte): byte {
    ((a as bv8) ^ (b as bv8)) as byte
  }

  /** `hash ^= b; hash *= 16777619`, where only the low byte meets `b`. */
  function Mix(hash: Word, b: byte): Word {
    var low := (hash % 256) as byte;
    (hash - low as nat + Xor(low, b) as nat) * 16777619 % 0x1_0000_0000
  }

  /** FNV-1a from a given basis. */
  function Fnv1a(s: seq<byte>, basis: Word): Word {
    if s == [] then basis else Fnv1a(s[1..], Mix(basis, s[0]))
  }

  function NameHash(name: Name): Word {
    Fnv1a(name, BASIS)
  }

  /** binding_calc_hash from its basis, and session_calc_hash_buf, which goes on from any value. */
  method CalcHash(s: seq<byte>, basis: Word) returns (hash: Word)
    ensures hash == Fnv1a(s, basis)
  {
    hash := basis;
    for i := 0 to |s|
      invariant Fnv1a(s, basis) == Fnv1a(s[i..], hash)
    {
      assert s[i..][1..] == s[i + 1..];
      hash := Mix(hash, s[i]);
    }
  }

  /** Hashing piece by piece is hashing the whole. */
  lemma {:induction false} HashOfBoth(a: seq<byte>, b: seq<byte>, basis: Word)
    ensures Fnv1a(a + b, basis) == Fnv1a(b, Fnv1a(a, basis))
  {
    if a == [] {
      assert a + b == b;
    } else {
      assert (a + b)[1..] == a[1..] + b;
      HashOfBoth(a[1..], b, Mix(basis, a[0]));
    }
  }

  /** The published hash of "a", which fixes the basis and the prime. */
  lemma HashOfA()
    ensures NameHash([97]) == 0xe40c292c
  {
    assert BASIS % 256 == 197;
    assert (197 as bv8) ^ (97 as bv8) == 164 as bv8;
    assert Xor(197, 97) == 164;
    var s: seq<byte> := [97];
    assert s[1..] == [];
  }

  ghost predicate Indexed(t: Table<Name>)
    reads t, t.heads, t.nodes
  {
    t.Valid() && t.Unique() && t.hash == NameHash
  }

  method Create() returns (t: Table<Name>)
    ensures fresh(t) && fresh(t.heads) && Indexed(t) && t.AsMap() == map[]
  {
    t := new Table<Name>(NameHash, BUCKETS);
  }

  /** In a chain of unique keys the first match is the only one. */
  lemma MatchIsUnique(t: Table<Name>, name: Name)
    requires Indexed(t)
    ensures FirstMatch(t.chains[t.Index(name)], k => k == name) ==
            (if name in t.AsMap() then t.AsMap()[name] else null)
  {
    var b := t.Index(name);
    assert t.BucketOk(b);
    if name in t.AsMap() {
      assert t.AsMap()[name] in t.chains[b];
    }
  }

  /** binding_hash_lookup. */
  method Lookup(t: Table<Name>, name: Name) returns (r: Node?<Name>)
    requires Indexed(t)
    ensures r == if name in t.AsMap() then t.AsMap()[name] else null
  {
    MatchIsUnique(t, name);
    r := t.Lookup(name, k => k == name);
  }

  /** binding_hash_register, for a name that a lookup did not find. */
  method Register(t: Table<Name>, bi: Node<Name>)
    requires Indexed(t) && bi !in t.nodes && bi.key !in t.AsMap()
    modifies t, t.heads, t.nodes, bi
    ensures Indexed(t) && t.AsMap() == old(t.AsMap())[bi.key := bi]
  {
    t.Register(bi);
  }

  /** binding_hash_unregister. */
  method Unregister(t: Table<Name>, name: Name)
    requires Indexed(t)
    modifies t, t.heads, t.nodes
    ensures Indexed(t) && t.AsMap() == old(t.AsMap()) - {name}
  {
    var bi := Lookup(t, name);
    if bi == null {
      assert t.AsMap() == old(t.AsMap()) - {name};
      return;
    }
    t.Unlink(bi);
  }
}
