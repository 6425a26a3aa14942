/**
 What a find returns: the outcome of a call in any reachable state, when no other thread takes a
 step between its own, and what a sleeper gets once the attach it waits for has ended.
 */
module NodeCacheFinds {
  import opened Options
  import opened NodeHash
  import opened NodeCache
  import opened NodeCacheSteps
  import opened NodeCacheRuns

  /** One step of a run. */
  ghost predicate Takes(s: State, a: Action, s': State) { Enabled(s, a) && Step(s, a) == s' }

  lemma Link(s: State, run: seq<Action>, m: State, a: Action, s': State)
    requires Runs(s, run, m) && Takes(m, a, s')
    ensures Runs(s, run + [a], s')
  {
    Extend(s, run, m, a);
  }

  /** The state in which call `t` stands at `pc` and holds `spare`, and nothing else has changed. */
  function At(s: State, t: Tid, key: Key, snode: nat, spare: Option<Ref>, pc: Pc): State {
    s.(threads := s.threads[t := Thread(key, snode, spare, pc)])
  }

  /** No hashed node has the key. */
  ghost predicate Absent(s: State, key: Key) {
    forall n :: n in s.hashed && n in s.heap ==> s.heap[n].key != key
  }

  /** Node `n` is the one cached for the key, and its vnode `v` is live. */
  ghost predicate Cached(s: State, key: Key, n: Ref, v: VRef) {
    && n in s.hashed && n in s.heap && s.heap[n].key == key && s.heap[n].vnode == Some(v)
    && v in s.vnodes && s.vnodes[v].phase.Live?
  }

  ghost predicate KeysUnique(s: State) {
    forall m, n :: m in s.hashed && n in s.hashed && m in s.heap && n in s.heap && s.heap[m].key == s.heap[n].key ==> m == n
  }

  /** What the steps of a find need to know of a reachable state. */
  ghost predicate Sound(s: State) {
    && TableOk(s.buckets, s.heap, s.bucketOf, s.hashed) && KeysUnique(s)
    && (forall n :: n in s.hashed && n in s.heap && s.heap[n].vnode.Some? ==> !s.heap[n].attaching)
  }

  lemma NodesSound(s: State)
    requires TableOk(s.buckets, s.heap, s.bucketOf, s.hashed) && NodesOk(s)
    ensures Sound(s)
  {
    forall n | n in s.hashed && n in s.heap && s.heap[n].vnode.Some? ensures !s.heap[n].attaching {
      assert NodeOk(s, n);
    }
  }

  lemma ReachableSound(z: State, past: seq<Action>, s: State)
    requires Init(z) && Runs(z, past, s)
    ensures Sound(s)
  {
    ReachableNodes(z, past, s);
    NodesSound(s);
  }

  // ---------- the single steps ----------

  lemma Calls(s: State, t: Tid, key: Key, snode: nat)
    requires t !in s.threads
    ensures Takes(s, Call(t, key, snode), At(s, t, key, snode, None, AtTop))
  {
  }

  /** At the head of the loop a call finds the one node with its key. */
  lemma TopFinds(s: State, t: Tid, key: Key, snode: nat, spare: Option<Ref>, n: Ref, v: VRef)
    requires Sound(s) && Cached(s, key, n, v)
    ensures Takes(At(s, t, key, snode, spare, AtTop), Top(t), At(s, t, key, snode, spare, Getting(n, v, s.vnodes[v].vid)))
  {
    var s1 := At(s, t, key, snode, spare, AtTop);
    TopEffect(s1, t);
    assert Search(s.heap, Chain(s.buckets, s.bucketOf(key)), key) == Some(n);
    assert UseTarget(s1, t, n).threads == At(s, t, key, snode, spare, Getting(n, v, s.vnodes[v].vid)).threads;
  }

  lemma TopAllocates(s: State, t: Tid, key: Key, snode: nat)
    requires Sound(s) && Absent(s, key)
    ensures Takes(At(s, t, key, snode, None, AtTop), Top(t), At(s, t, key, snode, None, Allocating))
  {
    var s1 := At(s, t, key, snode, None, AtTop);
    TopEffect(s1, t);
    assert SetPc(s1, t, Allocating).threads == At(s, t, key, snode, None, Allocating).threads;
  }

  /** `vnode_getwithvid` on a live vnode adds an iocount. */
  function Counted(s: State, v: VRef): State
    requires v in s.vnodes
  {
    s.(vnodes := s.vnodes[v := s.vnodes[v].(iocount := s.vnodes[v].iocount + 1)])
  }

  lemma Gets(s: State, t: Tid, key: Key, snode: nat, spare: Option<Ref>, n: Ref, v: VRef)
    requires v in s.vnodes && s.vnodes[v].phase.Live?
    ensures Takes(At(s, t, key, snode, spare, Getting(n, v, s.vnodes[v].vid)), GetOk(t),
                  At(Counted(s, v), t, key, snode, spare, Leaving(Found(n, v))))
  {
    var s1 := At(s, t, key, snode, spare, Getting(n, v, s.vnodes[v].vid));
    assert Step(s1, GetOk(t)).threads == At(s, t, key, snode, spare, Leaving(Found(n, v))).threads;
  }

  /** A call that has nothing to free, or has put its allocation to use, just returns. */
  lemma Leaves(s: State, t: Tid, key: Key, snode: nat, spare: Option<Ref>, result: Result)
    requires spare.None? || (result.Found? && spare == Some(result.node))
    ensures Takes(At(s, t, key, snode, spare, Leaving(result)), Leave(t), At(s, t, key, snode, None, Returned(result)))
  {
    var s1 := At(s, t, key, snode, spare, Leaving(result));
    assert Step(s1, Leave(t)).threads == At(s, t, key, snode, None, Returned(result)).threads;
  }

  lemma AllocFails(s: State, t: Tid, key: Key, snode: nat)
    ensures Takes(At(s, t, key, snode, None, Allocating), AllocFail(t), At(s, t, key, snode, None, Leaving(Failed(ENOMEM))))
  {
    var s1 := At(s, t, key, snode, None, Allocating);
    assert Step(s1, AllocFail(t)).threads == At(s, t, key, snode, None, Leaving(Failed(ENOMEM))).threads;
  }

  // ---------- a node that is cached ----------

  function HitRun(t: Tid, key: Key, snode: nat): seq<Action> {
    [] + [Call(t, key, snode)] + [Top(t)] + [GetOk(t)] + [Leave(t)]
  }

  /**
   A call for a key whose node is cached with a live vnode returns that node and that vnode, with
   one more iocount, and changes nothing else.
   */
  lemma CachedIsReturned(z: State, past: seq<Action>, s: State, t: Tid, key: Key, snode: nat, n: Ref, v: VRef)
    requires Init(z) && Runs(z, past, s) && t !in s.threads
    requires n in s.hashed && n in s.heap && s.heap[n].key == key && s.heap[n].vnode == Some(v)
    requires v in s.vnodes && s.vnodes[v].phase.Live?
    ensures Runs(s, HitRun(t, key, snode),
                 s.(threads := s.threads[t := Thread(key, snode, None, Returned(Found(n, v)))],
                    vnodes := s.vnodes[v := s.vnodes[v].(iocount := s.vnodes[v].iocount + 1)]))
  {
    ReachableSound(z, past, s);
    Hit(s, t, key, snode, n, v);
  }

  lemma Hit(s: State, t: Tid, key: Key, snode: nat, n: Ref, v: VRef)
    requires Sound(s) && Cached(s, key, n, v) && t !in s.threads
    ensures Runs(s, HitRun(t, key, snode), At(Counted(s, v), t, key, snode, None, Returned(Found(n, v))))
  {
    var s1, s2 := At(s, t, key, snode, None, AtTop), At(s, t, key, snode, None, Getting(n, v, s.vnodes[v].vid));
    var s3, s4 := At(Counted(s, v), t, key, snode, None, Leaving(Found(n, v))), At(Counted(s, v), t, key, snode, None, Returned(Found(n, v)));
    Calls(s, t, key, snode);
    TopFinds(s, t, key, snode, None, n, v);
    Gets(s, t, key, snode, None, n, v);
    Leaves(Counted(s, v), t, key, snode, None, Found(n, v));
    Four(s, Call(t, key, snode), s1, Top(t), s2, GetOk(t), s3, Leave(t), s4);
  }

  lemma Four(s: State, a: Action, s1: State, b: Action, s2: State, c: Action, s3: State, d: Action, s4: State)
    requires Takes(s, a, s1) && Takes(s1, b, s2) && Takes(s2, c, s3) && Takes(s3, d, s4)
    ensures Runs(s, [] + [a] + [b] + [c] + [d], s4)
  {
    Link(s, [], s, a, s1);
    Link(s, [] + [a], s1, b, s2);
    Link(s, [] + [a] + [b], s2, c, s3);
    Link(s, [] + [a] + [b] + [c], s3, d, s4);
  }

  // ---------- a node that is absent ----------

  /** A call that cannot allocate returns `ENOMEM` and changes nothing. */
  lemma NoMemoryIsReturned(z: State, past: seq<Action>, s: State, t: Tid, key: Key, snode: nat)
    requires Init(z) && Runs(z, past, s) && t !in s.threads && Absent(s, key)
    ensures Runs(s, [] + [Call(t, key, snode)] + [Top(t)] + [AllocFail(t)] + [Leave(t)],
                 s.(threads := s.threads[t := Thread(key, snode, None, Returned(Failed(ENOMEM)))]))
  {
    ReachableSound(z, past, s);
    NoMemory(s, t, key, snode);
  }

  lemma NoMemory(s: State, t: Tid, key: Key, snode: nat)
    requires Sound(s) && Absent(s, key) && t !in s.threads
    ensures Runs(s, [] + [Call(t, key, snode)] + [Top(t)] + [AllocFail(t)] + [Leave(t)],
                 At(s, t, key, snode, None, Returned(Failed(ENOMEM))))
  {
    Calls(s, t, key, snode);
    TopAllocates(s, t, key, snode);
    AllocFails(s, t, key, snode);
    Leaves(s, t, key, snode, None, Failed(ENOMEM));
    Four(s, Call(t, key, snode), At(s, t, key, snode, None, AtTop), Top(t), At(s, t, key, snode, None, Allocating),
         AllocFail(t), At(s, t, key, snode, None, Leaving(Failed(ENOMEM))), Leave(t),
         At(s, t, key, snode, None, Returned(Failed(ENOMEM))));
  }

  /** The state with one more allocation. */
  function Allocated(s: State, r: Ref, node: PfsNode): State {
    s.(heap := s.heap[r := node], allocs := s.allocs + 1)
  }

  lemma Allocates(s: State, t: Tid, key: Key, snode: nat, r: Ref, garbage: PfsNode)
    requires r !in s.heap
    ensures Takes(At(s, t, key, snode, None, Allocating), AllocOk(t, r, garbage),
                  At(Allocated(s, r, garbage), t, key, snode, Some(r), AtTop))
  {
    var s1 := At(s, t, key, snode, None, Allocating);
    assert Step(s1, AllocOk(t, r, garbage)).threads == At(s, t, key, snode, Some(r), AtTop).threads;
  }

  /** The state with a fresh node on the list of its key. */
  function Hashed(s: State, r: Ref, node: PfsNode): State {
    Allocated(s, r, node).(buckets := InsertHead(s.buckets, s.bucketOf(node.key), r), hashed := s.hashed + {r})
  }

  lemma AllocatedSound(s: State, key: Key, r: Ref, garbage: PfsNode)
    requires Sound(s) && Absent(s, key) && r !in s.heap
    ensures Sound(Allocated(s, r, garbage)) && Absent(Allocated(s, r, garbage), key)
  {
    KeysKeepTable(s.buckets, s.heap, s.heap[r := garbage], s.bucketOf, s.hashed);
  }

  lemma TopInserts(s: State, t: Tid, key: Key, snode: nat, r: Ref, garbage: PfsNode)
    requires Sound(s) && Absent(s, key) && r !in s.heap
    ensures Takes(At(Allocated(s, r, garbage), t, key, snode, Some(r), AtTop), Top(t),
                  At(Hashed(s, r, PfsNode(key, snode, None, true, false)), t, key, snode, Some(r), Creating(r)))
  {
    AllocatedSound(s, key, r, garbage);
    TopHashes(Allocated(s, r, garbage), t, key, snode, r);
    InsertedIs(s, t, key, snode, r, garbage);
  }

  lemma TopHashes(s: State, t: Tid, key: Key, snode: nat, r: Ref)
    requires Sound(s) && Absent(s, key)
    ensures var s1 := At(s, t, key, snode, Some(r), AtTop); Takes(s1, Top(t), Inserted(s1, t, r))
  {
    TopEffect(At(s, t, key, snode, Some(r), AtTop), t);
  }

  lemma InsertedIs(s: State, t: Tid, key: Key, snode: nat, r: Ref, garbage: PfsNode)
    ensures Inserted(At(Allocated(s, r, garbage), t, key, snode, Some(r), AtTop), t, r)
         == At(Hashed(s, r, PfsNode(key, snode, None, true, false)), t, key, snode, Some(r), Creating(r))
  {
    var s1 := Inserted(At(Allocated(s, r, garbage), t, key, snode, Some(r), AtTop), t, r);
    var s2 := At(Hashed(s, r, PfsNode(key, snode, None, true, false)), t, key, snode, Some(r), Creating(r));
    assert s1.threads == s2.threads;
    assert s1.heap == s2.heap;
  }

  function FreshRun(t: Tid, key: Key, snode: nat, r: Ref, garbage: PfsNode): seq<Action> {
    [] + [Call(t, key, snode)] + [Top(t)] + [AllocOk(t, r, garbage)] + [Top(t)]
  }

  lemma Inserts(s: State, t: Tid, key: Key, snode: nat, r: Ref, garbage: PfsNode)
    requires Sound(s) && Absent(s, key) && t !in s.threads && r !in s.heap
    ensures Runs(s, FreshRun(t, key, snode, r, garbage),
                 At(Hashed(s, r, PfsNode(key, snode, None, true, false)), t, key, snode, Some(r), Creating(r)))
  {
    Calls(s, t, key, snode);
    TopAllocates(s, t, key, snode);
    Allocates(s, t, key, snode, r, garbage);
    TopInserts(s, t, key, snode, r, garbage);
    Four(s, Call(t, key, snode), At(s, t, key, snode, None, AtTop), Top(t), At(s, t, key, snode, None, Allocating),
         AllocOk(t, r, garbage), At(Allocated(s, r, garbage), t, key, snode, Some(r), AtTop), Top(t),
         At(Hashed(s, r, PfsNode(key, snode, None, true, false)), t, key, snode, Some(r), Creating(r)));
  }

  lemma Three(s: State, run: seq<Action>, m: State, a: Action, s1: State, b: Action, s2: State, c: Action, s3: State)
    requires Runs(s, run, m) && Takes(m, a, s1) && Takes(s1, b, s2) && Takes(s2, c, s3)
    ensures Runs(s, run + [a] + [b] + [c], s3)
  {
    Link(s, run, m, a, s1);
    Link(s, run + [a], s1, b, s2);
    Link(s, run + [a] + [b], s2, c, s3);
  }

  function Vid(s: State, v: VRef): nat { if v in s.vnodes then s.vnodes[v].vid else 0 }

  /** The vnode the create callback hands out, and the same vnode once linked. */
  function Handed(s: State, v: VRef, r: Ref, fsrefs: nat): State {
    s.(vnodes := s.vnodes[v := Vnode(Vid(s, v), 1, 0, fsrefs, Live, Some(r))])
  }

  lemma Creates(s: State, t: Tid, key: Key, snode: nat, r: Ref, v: VRef)
    requires v in s.vnodes ==> s.vnodes[v].phase.Idle?
    ensures Takes(At(s, t, key, snode, Some(r), Creating(r)), CreateOk(t, v),
                  At(Handed(s, v, r, 0), t, key, snode, Some(r), Created(r, v)))
  {
    var s1 := At(s, t, key, snode, Some(r), Creating(r));
    assert Step(s1, CreateOk(t, v)).threads == At(s, t, key, snode, Some(r), Created(r, v)).threads;
  }

  lemma Attaches(s: State, t: Tid, key: Key, snode: nat, r: Ref, v: VRef)
    ensures Takes(At(Handed(Hashed(s, r, PfsNode(key, snode, None, true, false)), v, r, 0), t, key, snode, Some(r), Created(r, v)),
                  AttachOk(t),
                  At(Handed(Hashed(s, r, PfsNode(key, snode, Some(v), false, false)), v, r, 1), t, key, snode, Some(r), Leaving(Found(r, v))))
  {
    var s1 := At(Handed(Hashed(s, r, PfsNode(key, snode, None, true, false)), v, r, 0), t, key, snode, Some(r), Created(r, v));
    var s2 := At(Handed(Hashed(s, r, PfsNode(key, snode, Some(v), false, false)), v, r, 1), t, key, snode, Some(r), Leaving(Found(r, v)));
    assert Step(s1, AttachOk(t)).threads == s2.threads;
    assert Step(s1, AttachOk(t)).heap == s2.heap;
    assert Step(s1, AttachOk(t)).vnodes == s2.vnodes;
  }

  /**
   A call for a key that is not cached, when memory and the create callback provide, returns the
   new node with the callback's vnode.  The node carries the requested key and structure node, is on
   its hash list and is done attaching; its vnode has one iocount and one filesystem reference.
   */
  lemma AbsentIsCreated(z: State, past: seq<Action>, s: State, t: Tid, key: Key, snode: nat,
                        r: Ref, garbage: PfsNode, v: VRef)
    requires Init(z) && Runs(z, past, s) && t !in s.threads && r !in s.heap && Absent(s, key)
    requires v in s.vnodes ==> s.vnodes[v].phase.Idle?
    ensures Runs(s, FreshRun(t, key, snode, r, garbage) + [CreateOk(t, v)] + [AttachOk(t)] + [Leave(t)],
                 s.(threads := s.threads[t := Thread(key, snode, None, Returned(Found(r, v)))],
                    heap := s.heap[r := PfsNode(key, snode, Some(v), false, false)],
                    buckets := InsertHead(s.buckets, s.bucketOf(key), r),
                    hashed := s.hashed + {r},
                    allocs := s.allocs + 1,
                    vnodes := s.vnodes[v := Vnode(Vid(s, v), 1, 0, 1, Live, Some(r))]))
  {
    ReachableSound(z, past, s);
    Miss(s, t, key, snode, r, garbage, v);
  }

  lemma Miss(s: State, t: Tid, key: Key, snode: nat, r: Ref, garbage: PfsNode, v: VRef)
    requires Sound(s) && Absent(s, key) && t !in s.threads && r !in s.heap
    requires v in s.vnodes ==> s.vnodes[v].phase.Idle?
    ensures Runs(s, FreshRun(t, key, snode, r, garbage) + [CreateOk(t, v)] + [AttachOk(t)] + [Leave(t)],
                 At(Handed(Hashed(s, r, PfsNode(key, snode, Some(v), false, false)), v, r, 1),
                    t, key, snode, None, Returned(Found(r, v))))
  {
    var h := Hashed(s, r, PfsNode(key, snode, None, true, false));
    var d := Handed(Hashed(s, r, PfsNode(key, snode, Some(v), false, false)), v, r, 1);
    Inserts(s, t, key, snode, r, garbage);
    Creates(h, t, key, snode, r, v);
    Attaches(s, t, key, snode, r, v);
    Leaves(d, t, key, snode, Some(r), Found(r, v));
    Three(s, FreshRun(t, key, snode, r, garbage), At(h, t, key, snode, Some(r), Creating(r)),
          CreateOk(t, v), At(Handed(h, v, r, 0), t, key, snode, Some(r), Created(r, v)),
          AttachOk(t), At(d, t, key, snode, Some(r), Leaving(Found(r, v))),
          Leave(t), At(d, t, key, snode, None, Returned(Found(r, v))));
  }

  // ---------- a create callback that fails ----------

  lemma UnlinkUndoesInsert(t: Buckets, heap: Heap, bucketOf: Key -> nat, hashed: set<Ref>, b: nat, r: Ref, c: nat)
    requires TableOk(t, heap, bucketOf, hashed) && r !in hashed
    ensures Chain(Unlink(InsertHead(t, b, r), r), c) == Chain(t, c)
  {
    WithoutAbsent(Chain(t, c), r);
    if c == b { assert ([r] + Chain(t, b))[1..] == Chain(t, b); }
  }

  lemma {:induction false} WithoutAbsent(chain: seq<Ref>, r: Ref)
    requires r !in chain
    ensures Without(chain, r) == chain
  {
    if chain != [] { WithoutAbsent(chain[1..], r); }
  }

  lemma CreateFails(s: State, t: Tid, key: Key, snode: nat, r: Ref, e: int)
    requires e != 0
    ensures Takes(At(s, t, key, snode, Some(r), Creating(r)), CreateErr(t, e),
                  At(s, t, key, snode, Some(r), CreateFailed(r, e)))
  {
    var s1 := At(s, t, key, snode, Some(r), Creating(r));
    assert Step(s1, CreateErr(t, e)).threads == At(s, t, key, snode, Some(r), CreateFailed(r, e)).threads;
  }

  /** The state with an allocation more and a free more, and the same lists. */
  function Undone(s: State, key: Key, r: Ref): State {
    s.(buckets := Unlink(InsertHead(s.buckets, s.bucketOf(key), r), r), allocs := s.allocs + 1, frees := s.frees + 1)
  }

  /** The failed attach takes the fresh node off its list and frees it. */
  lemma AttachFails(s: State, t: Tid, key: Key, snode: nat, r: Ref, e: int)
    requires r !in s.heap && r !in s.hashed
    ensures Takes(At(Hashed(s, r, PfsNode(key, snode, None, true, false)), t, key, snode, Some(r), CreateFailed(r, e)),
                  AttachErr(t), At(Undone(s, key, r), t, key, snode, None, Leaving(Failed(e))))
  {
    var s1 := At(Hashed(s, r, PfsNode(key, snode, None, true, false)), t, key, snode, Some(r), CreateFailed(r, e));
    var s2 := At(Undone(s, key, r), t, key, snode, None, Leaving(Failed(e)));
    assert Step(s1, AttachErr(t)).threads == s2.threads;
    assert Step(s1, AttachErr(t)).heap == s2.heap;
    assert Step(s1, AttachErr(t)).hashed == s2.hashed;
  }

  lemma MissFails(s: State, t: Tid, key: Key, snode: nat, r: Ref, garbage: PfsNode, e: int)
    requires Sound(s) && Absent(s, key) && t !in s.threads && r !in s.heap && e != 0
    ensures Runs(s, FreshRun(t, key, snode, r, garbage) + [CreateErr(t, e)] + [AttachErr(t)] + [Leave(t)],
                 At(Undone(s, key, r), t, key, snode, None, Returned(Failed(e))))
  {
    var h := Hashed(s, r, PfsNode(key, snode, None, true, false));
    Inserts(s, t, key, snode, r, garbage);
    CreateFails(h, t, key, snode, r, e);
    AttachFails(s, t, key, snode, r, e);
    Leaves(Undone(s, key, r), t, key, snode, None, Failed(e));
    Three(s, FreshRun(t, key, snode, r, garbage), At(h, t, key, snode, Some(r), Creating(r)),
          CreateErr(t, e), At(h, t, key, snode, Some(r), CreateFailed(r, e)),
          AttachErr(t), At(Undone(s, key, r), t, key, snode, None, Leaving(Failed(e))),
          Leave(t), At(Undone(s, key, r), t, key, snode, None, Returned(Failed(e))));
  }

  /**
   A call whose create callback fails returns the callback's error.  The node it had hashed is off
   its list and freed again, so that lists, nodes and vnodes are as they were before the call.
   */
  lemma CreateErrorIsReturned(z: State, past: seq<Action>, s: State, t: Tid, key: Key, snode: nat,
                              r: Ref, garbage: PfsNode, e: int) returns (s': State)
    requires Init(z) && Runs(z, past, s) && t !in s.threads && r !in s.heap && e != 0 && Absent(s, key)
    ensures Runs(s, FreshRun(t, key, snode, r, garbage) + [CreateErr(t, e)] + [AttachErr(t)] + [Leave(t)], s')
    ensures s' == s.(threads := s.threads[t := Thread(key, snode, None, Returned(Failed(e)))],
                     buckets := s'.buckets, allocs := s.allocs + 1, frees := s.frees + 1)
    ensures forall b :: Chain(s'.buckets, b) == Chain(s.buckets, b)
  {
    ReachableSound(z, past, s);
    MissFails(s, t, key, snode, r, garbage, e);
    s' := At(Undone(s, key, r), t, key, snode, None, Returned(Failed(e)));
    forall b ensures Chain(s'.buckets, b) == Chain(s.buckets, b) {
      UnlinkUndoesInsert(s.buckets, s.heap, s.bucketOf, s.hashed, s.bucketOf(key), r, b);
    }
  }

  // ---------- waiting for another thread's attach ----------

  lemma AttachWakes(s: State, t: Tid, u: Tid)
    requires ThreadsOk(s) && t in s.threads && u in s.threads && s.threads[t].pc.Asleep? && s.threads[u].pc.Created?
    requires s.threads[t].pc.node == s.threads[u].pc.node
    ensures var s1 := Step(s, AttachOk(u));
            && t in s1.threads && s1.threads[t] == s.threads[t].(pc := AtTop)
            && Cached(s1, s.threads[t].key, s.threads[u].pc.node, s.threads[u].pc.vnode)
  {
    assert ThreadOk(s, s.threads[t]);
    assert ThreadOk(s, s.threads[u]);
  }

  lemma AwakeGets(s: State, t: Tid, n: Ref, v: VRef)
    requires Sound(s) && t in s.threads && s.threads[t].pc.AtTop? && Cached(s, s.threads[t].key, n, v)
    ensures var th := s.threads[t];
            && Takes(s, Top(t), At(s, t, th.key, th.snode, th.spare, Getting(n, v, s.vnodes[v].vid)))
            && Takes(At(s, t, th.key, th.snode, th.spare, Getting(n, v, s.vnodes[v].vid)), GetOk(t),
                     At(Counted(s, v), t, th.key, th.snode, th.spare, Leaving(Found(n, v))))
  {
    var th := s.threads[t];
    TopFinds(s, t, th.key, th.snode, th.spare, n, v);
    assert At(s, t, th.key, th.snode, th.spare, AtTop).threads == s.threads;
    Gets(s, t, th.key, th.snode, th.spare, n, v);
  }

  /**
   A sleeper gets the node another thread attaches: once the attaching thread `u` has the vnode and
   links it, the sleeper `t` is awake, and its next two steps find that node and get that vnode.
   */
  lemma SleeperGetsNode(z: State, past: seq<Action>, s: State, t: Tid, u: Tid) returns (s': State)
    requires Init(z) && Runs(z, past, s)
    requires t in s.threads && u in s.threads && s.threads[t].pc.Asleep? && s.threads[u].pc.Created?
    requires s.threads[t].pc.node == s.threads[u].pc.node
    ensures Runs(s, [] + [AttachOk(u)] + [Top(t)] + [GetOk(t)], s')
    ensures t in s'.threads
    ensures s'.threads[t] == s.threads[t].(pc := Leaving(Found(s.threads[u].pc.node, s.threads[u].pc.vnode)))
  {
    ReachableThreads(z, past, s);
    AttachWakes(s, t, u);
    var s1, n, v := Step(s, AttachOk(u)), s.threads[u].pc.node, s.threads[u].pc.vnode;
    Extend(z, past, s, AttachOk(u));
    ReachableSound(z, past + [AttachOk(u)], s1);
    AwakeGets(s1, t, n, v);
    var th := s1.threads[t];
    s' := At(Counted(s1, v), t, th.key, th.snode, th.spare, Leaving(Found(n, v)));
    Three(s, [], s, AttachOk(u), s1, Top(t), At(s1, t, th.key, th.snode, th.spare, Getting(n, v, s1.vnodes[v].vid)), GetOk(t), s');
  }

  lemma ReachableThreads(z: State, past: seq<Action>, s: State)
    requires Init(z) && Runs(z, past, s)
    ensures ThreadsOk(s)
  {
    ReachableInv(z, past, s);
  }

  lemma FailedAttachWakes(s: State, t: Tid, u: Tid)
    requires ThreadsOk(s) && KeysUnique(s)
    requires t in s.threads && u in s.threads && s.threads[t].pc.Asleep? && s.threads[u].pc.CreateFailed?
    requires s.threads[t].pc.node == s.threads[u].pc.node
    ensures var s' := Step(s, AttachErr(u));
            t in s'.threads && s'.threads[t] == s.threads[t].(pc := AtTop) && Absent(s', s.threads[t].key)
  {
    assert ThreadOk(s, s.threads[t]);
    assert ThreadOk(s, s.threads[u]);
    var n := s.threads[u].pc.node;
    assert Step(s, AttachErr(u)).hashed == s.hashed - {n};
    assert Step(s, AttachErr(u)).threads[t] == s.threads[t].(pc := AtTop);
  }

  /** After a failed attach the sleepers are awake, and the key is no longer cached. */
  lemma SleeperStartsOver(z: State, past: seq<Action>, s: State, t: Tid, u: Tid)
    requires Init(z) && Runs(z, past, s)
    requires t in s.threads && u in s.threads && s.threads[t].pc.Asleep? && s.threads[u].pc.CreateFailed?
    requires s.threads[t].pc.node == s.threads[u].pc.node
    ensures var s' := Step(s, AttachErr(u));
            t in s'.threads && s'.threads[t] == s.threads[t].(pc := AtTop) && Absent(s', s.threads[t].key)
  {
    ReachableThreads(z, past, s);
    ReachableSound(z, past, s);
    FailedAttachWakes(s, t, u);
  }

  // ---------- a vnode that changed identity ----------

  lemma GetFails(s: State, t: Tid)
    requires Sound(s) && Enabled(s, GetErr(t))
    ensures var th := s.threads[t]; var s' := Step(s, GetErr(t));
            && s' == At(s.(leaked := s'.leaked), t, th.key, th.snode, None, AtTop)
            && Sound(s.(leaked := s'.leaked))
  {
  }

  /**
   A call that loses its vnode between the walk and `vnode_getwithvid` does not fail.  It goes
   around for the same key, and if the node is gone by then it goes off to allocate another one.
   */
  lemma StaleVnodeStartsOver(z: State, past: seq<Action>, s: State, t: Tid) returns (s': State)
    requires Init(z) && Runs(z, past, s) && Enabled(s, GetErr(t)) && Absent(s, s.threads[t].key)
    ensures Runs(s, [] + [GetErr(t)] + [Top(t)], s')
    ensures var th := s.threads[t];
            s' == s.(leaked := s'.leaked, threads := s.threads[t := Thread(th.key, th.snode, None, Allocating)])
  {
    ReachableSound(z, past, s);
    GetFails(s, t);
    var th, l := s.threads[t], s.(leaked := Step(s, GetErr(t)).leaked);
    TopAllocates(l, t, th.key, th.snode);
    s' := At(l, t, th.key, th.snode, None, Allocating);
    Link(s, [], s, GetErr(t), At(l, t, th.key, th.snode, None, AtTop));
    Link(s, [] + [GetErr(t)], At(l, t, th.key, th.snode, None, AtTop), Top(t), s');
  }
}
