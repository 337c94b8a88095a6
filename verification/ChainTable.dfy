/**
 * The chained table of doubly linked lists that mqcore/binding_hash.c and libsf/sf_session.c each
 * contain: they differ in the key, its hash and the comparison.
 */
module ChainTables {
  import opened Bytes

  class Node<K> {
    const key: K
    var next: Node?<K>
    var prev: Node?<K>

    constructor (key: K)
      ensures this.key == key
    {
      this.key := key;
      next, prev := null, null;
    }
  }

  /** The links of the i-th node lead to its neighbours. */
  ghost predicate LinksAt<K>(c: seq<Node<K>>, i: nat)
    requires i < |c|
    reads c[i]
  {
    && c[i].next == (if i + 1 < |c| then c[i + 1] else null)
    && c[i].prev == (if i > 0 then c[i - 1] else null)
  }

  ghost predicate NoRepeats<K>(c: seq<Node<K>>) {
    forall i, j :: 0 <= i < j < |c| ==> c[i] != c[j]
  }

  /** `c` are the nodes of a chain that starts at `head`: it is acyclic, and next and prev are
      inverse to each other. */
  ghost predicate Linked<K>(head: Node?<K>, c: seq<Node<K>>)
    reads c
  {
    && head == (if c == [] then null else c[0])
    && (forall i {:trigger LinksAt(c, i)} :: 0 <= i < |c| ==> LinksAt(c, i))
    && NoRepeats(c)
  }

  /** The first node of a chain whose key matches. */
  ghost function FirstMatch<K(!new)>(c: seq<Node<K>>, same: K -> bool): (r: Node?<K>)
    ensures r != null ==> r in c && same(r.key)
    ensures r == null ==> forall n :: n in c ==> !same(n.key)
  {
    if c == [] then null else if same(c[0].key) then c[0] else FirstMatch(c[1..], same)
  }

  ghost function Without<T>(c: seq<T>, i: nat): seq<T>
    requires i < |c|
  {
    c[..i] + c[i + 1..]
  }

  lemma WithoutMembers<K>(c: seq<Node<K>>, i: nat)
    requires i < |c| && NoRepeats(c)
    ensures NoRepeats(Without(c, i))
    ensures forall n :: n in Without(c, i) <==> n in c && n != c[i]
  {
    var d := Without(c, i);
    forall n | n in c && n != c[i]
      ensures n in d
    {
      var j :| 0 <= j < |c| && c[j] == n;
      assert d[if j < i then j else j - 1] == n;
    }
    assert forall j :: 0 <= j < |d| ==> d[j] == c[if j < i then j else j + 1];
  }

  /** Taking a node out of its chain. */
  method UnlinkNode<K>(heads: array<Node?<K>>, index: nat, x: Node<K>, ghost c: seq<Node<K>>, ghost i: nat)
    requires index < heads.Length && Linked(heads[index], c) && i < |c| && c[i] == x
    modifies heads, c
    ensures Linked(heads[index], Without(c, i))
    ensures forall b :: 0 <= b < heads.Length && b != index ==> heads[b] == old(heads[b])
  {
    assert LinksAt(c, i);
    if x.prev != null {
      x.prev.next := x.next;
    }
    if x.next != null {
      x.next.prev := x.prev;
    }
    if heads[index] == x {
      heads[index] := x.next;
    }
    WithoutMembers(c, i);
    ghost var d := Without(c, i);
    forall j | 0 <= j < |d|
      ensures LinksAt(d, j)
    {
      assert old(LinksAt(c, if j < i then j else j + 1));
    }
  }

  class Table<K(==,!new)> {
    const hash: K -> nat
    const heads: array<Node?<K>>
    ghost var chains: seq<seq<Node<K>>>
    ghost var nodes: set<Node<K>>

    function Index(k: K): (b: nat)
      requires heads.Length > 0
      ensures b < heads.Length
    {
      hash(k) % heads.Length
    }

    /** Bucket b holds the nodes of its chain, all of them hashed to it. */
    ghost predicate BucketOk(b: nat)
      requires heads.Length > 0 && b < |chains| == heads.Length
      reads this, heads, chains[b]
    {
      Linked(heads[b], chains[b]) && forall n :: n in chains[b] ==> Index(n.key) == b && n in nodes
    }

    ghost predicate Valid()
      reads this, heads, nodes
    {
      && heads.Length > 0 && |chains| == heads.Length
      && (forall b, n :: 0 <= b < |chains| && n in chains[b] ==> n in nodes)
      && (forall b {:trigger BucketOk(b)} :: 0 <= b < |chains| ==> BucketOk(b))
      && (forall n :: n in nodes ==> n in chains[Index(n.key)])
    }

    /** No two nodes have the same key. */
    ghost predicate Unique()
      reads this
    {
      forall m, n :: m in nodes && n in nodes && m.key == n.key ==> m == n
    }

    /** The finite map that a table without repeated keys stands for. */
    ghost function AsMap(): (m: map<K, Node<K>>)
      requires Unique()
      reads this
      ensures forall n :: n in nodes ==> n.key in m && m[n.key] == n
      ensures forall k :: k in m ==> m[k] in nodes && m[k].key == k
    {
      map n | n in nodes :: n.key := n
    }

    constructor (hash: K -> nat, size: nat)
      requires size > 0
      ensures Valid() && fresh(heads) && nodes == {} && this.hash == hash && heads.Length == size
    {
      this.hash := hash;
      heads := new Node?<K>[size](_ => null);
      chains := seq(size, _ => []);
      nodes := {};
    }

    /** binding_hash_register and session_hash_register. */
    method Register(x: Node<K>)
      requires Valid() && x !in nodes
      modifies this, heads, nodes, x
      ensures Valid() && nodes == old(nodes) + {x}
      ensures chains == old(chains)[Index(x.key) := [x] + old(chains)[Index(x.key)]]
    {
      var index := Index(x.key);
      ghost var c := chains[index];
      assert BucketOk(index);
      var next := heads[index];
      if next != null {
        next.prev := x;
      }
      x.next := next;
      x.prev := null;
      heads[index] := x;
      chains := chains[index := [x] + c];
      nodes := nodes + {x};
      assert Linked(heads[index], [x] + c) by {
        forall i | 0 <= i < |[x] + c|
          ensures LinksAt([x] + c, i)
        {
          assert i > 0 ==> old(LinksAt(c, i - 1));
        }
      }
      forall b | 0 <= b < |chains|
        ensures BucketOk(b)
      {
        if b != index {
          assert old(BucketOk(b));
        }
      }
    }

    /** session_hash_unregister, and binding_hash_unregister once it has found the node. */
    method Unlink(x: Node<K>)
      requires Valid() && x in nodes
      modifies this, heads, nodes
      ensures Valid() && nodes == old(nodes) - {x}
      ensures exists i :: 0 <= i < |old(chains)[Index(x.key)]| && old(chains)[Index(x.key)][i] == x
                          && chains == old(chains)[Index(x.key) := Without(old(chains)[Index(x.key)], i)]
    {
      var index := Index(x.key);
      ghost var c := chains[index];
      assert BucketOk(index);
      ghost var i :| 0 <= i < |c| && c[i] == x;
      WithoutMembers(c, i);
      forall b, n | 0 <= b < |chains| && b != index && n in chains[b]
        ensures n !in c && n != x && n in nodes
      {
        assert BucketOk(b) && Index(n.key) == b;
      }
      UnlinkNode(heads, index, x, c, i);
      chains := chains[index := Without(c, i)];
      nodes := nodes - {x};
      forall b | 0 <= b < |chains|
        ensures BucketOk(b)
      {
        if b != index {
          assert old(BucketOk(b));
          forall j | 0 <= j < |chains[b]|
            ensures LinksAt(chains[b], j)
          {
            assert chains[b][j] in chains[b] && old(LinksAt(chains[b], j));
          }
        }
      }
      assert chains == old(chains)[index := Without(old(chains)[index], i)];
    }

    /** The lookup loops of both tables; `same` compares a key with the one that is looked for. */
    method Lookup(k: K, same: K -> bool) returns (r: Node?<K>)
      requires Valid()
      ensures r == FirstMatch(chains[Index(k)], same)
    {
      var p := heads[Index(k)];
      ghost var c, i := chains[Index(k)], 0;
      assert BucketOk(Index(k));
      while p != null
        invariant 0 <= i <= |c| && p == (if i < |c| then c[i] else null)
        invariant FirstMatch(c, same) == FirstMatch(c[i..], same)
        decreases |c| - i
      {
        if same(p.key) {
          return p;
        }
        assert LinksAt(c, i);
        p := p.next;
        i := i + 1;
      }
      return null;
    }
  }
}
