/**
 The hash table of `pfsnode_t` objects: one list of node addresses per bucket.

 A table is read together with the heap that holds the nodes.  `TableOk` says that
 the lists hold exactly the addresses in `hashed`, each once, each live, and each in
 the bucket that the node's own key selects.
 */
module NodeHash {
  import opened Options

  type Ref = nat

  datatype NodeId = NodeId(pid: int, objectid: nat, baseId: nat)
  datatype Key = Key(mountId: int, id: NodeId)
  datatype PfsNode = PfsNode(key: Key, snode: nat, vnode: Option<nat>, attaching: bool, waiting: bool)

  type Buckets = map<nat, seq<Ref>>
  type Heap = map<Ref, PfsNode>

  // ---------- the lists ----------

  function Chain(t: Buckets, b: nat): seq<Ref> { if b in t then t[b] else [] }

  function InsertHead(t: Buckets, b: nat, r: Ref): Buckets { t[b := [r] + Chain(t, b)] }

  function Without(chain: seq<Ref>, r: Ref): seq<Ref> {
    if chain == [] then []
    else if chain[0] == r then chain[1..]
    else [chain[0]] + Without(chain[1..], r)
  }

  /** `LIST_REMOVE`: unlinks the address from whichever list it is on. */
  function Unlink(t: Buckets, r: Ref): Buckets { map b | b in t :: Without(t[b], r) }

  /** The node a walk along the chain stops at. */
  function Search(heap: Heap, chain: seq<Ref>, k: Key): Option<Ref> {
    if chain == [] then None
    else if chain[0] in heap && heap[chain[0]].key == k then Some(chain[0])
    else Search(heap, chain[1..], k)
  }

  ghost predicate NoDup(chain: seq<Ref>) {
    forall i, j :: 0 <= i < j < |chain| ==> chain[i] != chain[j]
  }

  ghost predicate TableOk(t: Buckets, heap: Heap, bucketOf: Key -> nat, hashed: set<Ref>) {
    && (forall r :: r in hashed ==> r in heap && r in Chain(t, bucketOf(heap[r].key)))
    && (forall b, r :: b in t && r in t[b] ==> r in hashed && r in heap && bucketOf(heap[r].key) == b)
    && (forall b :: b in t ==> NoDup(t[b]))
  }

  // ---------- what the list operations do to a good table ----------

  lemma {:induction false} WithoutMembers(chain: seq<Ref>, r: Ref)
    requires NoDup(chain)
    ensures NoDup(Without(chain, r))
    ensures forall x :: x in Without(chain, r) <==> x in chain && x != r
  {
    if chain != [] {
      var rest := chain[1..];
      assert chain == [chain[0]] + rest;
      assert NoDup(rest) by {
        forall i, j | 0 <= i < j < |rest| ensures rest[i] != rest[j] {
          assert chain[i + 1] != chain[j + 1];
        }
      }
      assert chain[0] !in rest by {
        forall j | 0 <= j < |rest| ensures rest[j] != chain[0] {
          assert rest[j] == chain[j + 1];
        }
      }
      if chain[0] != r {
        WithoutMembers(rest, r);
      }
    }
  }

  lemma InsertKeepsTable(t: Buckets, heap: Heap, bucketOf: Key -> nat, hashed: set<Ref>, r: Ref, node: PfsNode)
    requires TableOk(t, heap, bucketOf, hashed)
    requires r !in hashed
    ensures TableOk(InsertHead(t, bucketOf(node.key), r), heap[r := node], bucketOf, hashed + {r})
  {
    var b := bucketOf(node.key);
    var t' := InsertHead(t, b, r);
    var heap' := heap[r := node];
    assert r in t'[b] by { assert t'[b][0] == r; }
    forall x | x in hashed + {r} ensures x in heap' && x in Chain(t', bucketOf(heap'[x].key)) {
      if x != r {
        assert x in Chain(t, bucketOf(heap[x].key));
        assert heap'[x] == heap[x];
      }
    }
    forall c | c in t' ensures NoDup(t'[c]) {
      if c == b {
        assert NoDup(Chain(t, b));
        assert r !in Chain(t, b);
      }
    }
  }

  lemma UnlinkKeepsTable(t: Buckets, heap: Heap, bucketOf: Key -> nat, hashed: set<Ref>, r: Ref)
    requires TableOk(t, heap, bucketOf, hashed)
    ensures TableOk(Unlink(t, r), heap - {r}, bucketOf, hashed - {r})
  {
    var t' := Unlink(t, r);
    forall b | b in t
      ensures NoDup(t'[b]) && forall x :: x in t'[b] <==> x in t[b] && x != r
    {
      WithoutMembers(t[b], r);
    }
    forall x | x in hashed - {r} ensures x in Chain(t', bucketOf(heap[x].key)) {
      assert x in Chain(t, bucketOf(heap[x].key));
    }
  }

  /** Changing anything but the keys of hashed nodes leaves the table good. */
  lemma KeysKeepTable(t: Buckets, heap: Heap, heap': Heap, bucketOf: Key -> nat, hashed: set<Ref>)
    requires TableOk(t, heap, bucketOf, hashed)
    requires forall r :: r in hashed ==> r in heap' && heap'[r].key == heap[r].key
    ensures TableOk(t, heap', bucketOf, hashed)
  {
    forall r | r in hashed ensures r in Chain(t, bucketOf(heap'[r].key)) {
      assert r in Chain(t, bucketOf(heap[r].key));
    }
  }

  lemma {:induction false} SearchChain(heap: Heap, chain: seq<Ref>, k: Key)
    ensures match Search(heap, chain, k)
            case Some(r) => r in chain && r in heap && heap[r].key == k
            case None => forall r :: r in chain && r in heap ==> heap[r].key != k
  {
    if chain != [] {
      SearchChain(heap, chain[1..], k);
    }
  }

  /** On a good table the walk finds the node with the key exactly when one is hashed. */
  lemma SearchIsComplete(t: Buckets, heap: Heap, bucketOf: Key -> nat, hashed: set<Ref>, k: Key)
    requires TableOk(t, heap, bucketOf, hashed)
    ensures match Search(heap, Chain(t, bucketOf(k)), k)
            case Some(r) => r in hashed && r in heap && heap[r].key == k
            case None => forall r :: r in hashed ==> heap[r].key != k
  {
    SearchChain(heap, Chain(t, bucketOf(k)), k);
    if Search(heap, Chain(t, bucketOf(k)), k).None? {
      forall r | r in hashed ensures heap[r].key != k {
        assert r in Chain(t, bucketOf(heap[r].key));
      }
    }
  }

  /** The `LIST_FOREACH` walk of `procfsnode_find`. */
  method SearchBucket(heap: Heap, chain: seq<Ref>, k: Key) returns (target: Option<Ref>)
    ensures target == Search(heap, chain, k)
  {
    var i := 0;
    while i < |chain|
      invariant 0 <= i <= |chain|
      invariant Search(heap, chain, k) == Search(heap, chain[i..], k)
    {
      if chain[i] in heap && heap[chain[i]].key == k {
        return Some(chain[i]);
      }
      assert chain[i..][1..] == chain[i + 1..];
      i := i + 1;
    }
    target := None;
  }
}
