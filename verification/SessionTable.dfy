/** The session table of libsf/sf_session.c. */
module SessionTables {
  import opened Bytes
  import opened ChainTables
  import BindingHashes

  datatype Family = Inet | Inet6 | Other(number: nat)

  /** The part of a socket address that the table looks at. */
  datatype SockAddr = SockAddr(family: Family, port: seq<byte>, ip: seq<byte>)

  datatype Key = Key(addr: SockAddr, sid: seq<byte>)

  function FamilyBytes(f: Family): seq<byte> {
    match f
    case Inet => [2, 0]
    case Inet6 => [10, 0]
    case Other(_) => []
  }

  /** FNV-1a over the fields in a row; other address families all hash to 0. */
  function SessionHash(k: Key): BindingHashes.Word {
    if k.addr.family.Other? then 0
    else BindingHashes.Fnv1a(FamilyBytes(k.addr.family) + k.addr.port + k.addr.ip + k.sid, BindingHashes.BASIS)
  }

  /** session_calc_hash: field by field, each from the value that the one before left. */
  method CalcHash(k: Key) returns (value: BindingHashes.Word)
    ensures value == SessionHash(k)
  {
    if k.addr.family.Other? {
      return 0;
    }
    var family := FamilyBytes(k.addr.family);
    value := BindingHashes.CalcHash(family, BindingHashes.BASIS);
    value := BindingHashes.CalcHash(k.addr.port, value);
    BindingHashes.HashOfBoth(family, k.addr.port, BindingHashes.BASIS);
    value := BindingHashes.CalcHash(k.addr.ip, value);
    BindingHashes.HashOfBoth(family + k.addr.port, k.addr.ip, BindingHashes.BASIS);
    value := BindingHashes.CalcHash(k.sid, value);
    BindingHashes.HashOfBoth(family + k.addr.port + k.addr.ip, k.sid, BindingHashes.BASIS);
  }

  /** session_compare_sockaddr(a, b) == 0. */
  predicate SameAddr(a: SockAddr, b: SockAddr) {
    !a.family.Other? && a.family == b.family && a.port == b.port && a.ip == b.ip
  }

  predicate Matches(k: Key, looked: Key) {
    k.sid == looked.sid && SameAddr(k.addr, looked.addr)
  }

  /** Keys that compare equal hash alike. */
  lemma SameBucket(a: Key, b: Key)
    ensures Matches(a, b) ==> SessionHash(a) == SessionHash(b)
  {
  }

  /** sf_session_inst_t. */
  class SessionTable {
    const hash: Table<Key>
    const max: nat
    var count: nat

    ghost predicate Valid()
      reads this, hash, hash.heads, hash.nodes
    {
      hash.Valid() && hash.hash == SessionHash && count == |hash.nodes| <= max
    }

    constructor (max: nat, size: nat)
      requires size > 0
      ensures Valid() && fresh(hash) && fresh(hash.heads) && hash.nodes == {} && this.max == max
    {
      hash := new Table<Key>(SessionHash, size);
      this.max := max;
      count := 0;
    }

    /** session_create: refused exactly when the maximum is reached. */
    method Create(addr: SockAddr, sid: seq<byte>) returns (s: Node?<Key>)
      requires Valid()
      modifies this, hash, hash.heads, hash.nodes
      ensures Valid()
      ensures s == null <==> old(count) == max
      ensures s == null ==> hash.nodes == old(hash.nodes)
      ensures s != null ==> fresh(s) && s.key == Key(addr, sid) && hash.nodes == old(hash.nodes) + {s}
    {
      if count >= max {
        return null;
      }
      s := new Node<Key>(Key(addr, sid));
      hash.Register(s);
      count := count + 1;
    }

    /** The end of sf_session_destroy takes out this session and no other, also among sessions with
        the same key. */
    method Destroy(s: Node<Key>)
      requires Valid() && s in hash.nodes
      modifies this, hash, hash.heads, hash.nodes
      ensures Valid() && hash.nodes == old(hash.nodes) - {s}
    {
      hash.Unlink(s);
      count := count - 1;
    }

    /** session_find looks at one bucket, and still finds a matching session whenever the table has
        one. */
    method Find(addr: SockAddr, sid: seq<byte>) returns (s: Node?<Key>)
      requires Valid()
      ensures s != null ==> s in hash.nodes && Matches(s.key, Key(addr, sid))
      ensures s == null ==> forall n :: n in hash.nodes ==> !Matches(n.key, Key(addr, sid))
    {
      var k := Key(addr, sid);
      s := hash.Lookup(k, key => Matches(key, k));
      assert hash.BucketOk(hash.Index(k));
      if s == null {
        forall n | n in hash.nodes
          ensures Matches(n.key, k) ==> n in hash.chains[hash.Index(k)]
        {
          SameBucket(n.key, k);
        }
      }
    }
  }
}
