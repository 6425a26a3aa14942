/** What holds over every run of the pfsnode/vnode cache. */
module NodeCacheRuns {
  import opened Options
  import opened NodeHash
  import opened NodeCache
  import opened NodeCacheSteps

  // ---------- every run ----------

  lemma StepKeeps(s: State, a: Action)
    requires Inv(s) && Enabled(s, a)
    ensures Inv(Step(s, a))
  {
    match a
    case Call(t, key, snode) => CallKeeps(s, t, key, snode);
    case Top(t) => TopKeeps(s, t);
    case Stir(t) => StirKeeps(s, t);
    case AllocOk(t, r, garbage) => AllocOkKeeps(s, t, r, garbage);
    case AllocFail(t) => AllocFailKeeps(s, t);
    case CreateOk(t, v) => CreateOkKeeps(s, t, v);
    case CreateErr(t, e) => CreateErrKeeps(s, t, e);
    case AttachOk(t) => AttachOkKeeps(s, t);
    case AttachErr(t) => AttachErrKeeps(s, t);
    case GetOk(t) => GetOkKeeps(s, t);
    case GetErr(t) => GetErrKeeps(s, t);
    case Leave(t) => LeaveKeeps(s, t);
    case Put(t) => PutKeeps(s, t);
    case OtherGet(v) => OtherGetKeeps(s, v);
    case OtherPut(v) => OtherPutKeeps(s, v);
    case ReclaimStart(v, bump) => ReclaimStartKeeps(s, v, bump);
    case ReclaimFree(v) => ReclaimFreeKeeps(s, v);
    case ReclaimEnd(v) => ReclaimEndKeeps(s, v);
  }

  lemma {:induction false} RunKeeps(s: State, run: seq<Action>, s': State)
    requires Inv(s) && Runs(s, run, s')
    ensures Inv(s')
    decreases |run|
  {
    if run != [] {
      StepKeeps(s, run[0]);
      RunKeeps(Step(s, run[0]), run[1..], s');
    }
  }

  lemma InitInv(s: State)
    requires Init(s)
    ensures Inv(s)
  {
  }

  lemma ReachableInv(s: State, run: seq<Action>, s': State)
    requires Init(s) && Runs(s, run, s')
    ensures Inv(s')
  {
    InitInv(s);
    RunKeeps(s, run, s');
  }

  lemma ReachableNodes(s: State, run: seq<Action>, s': State)
    requires Init(s) && Runs(s, run, s')
    ensures TableOk(s'.buckets, s'.heap, s'.bucketOf, s'.hashed) && NodesOk(s')
  {
    ReachableInv(s, run, s');
  }

  lemma ReachableOwners(s: State, run: seq<Action>, s': State)
    requires Init(s) && Runs(s, run, s')
    ensures OwnersOk(s') && (s'.leaked == {} <==> !RunDrops(s, run, s'))
  {
    InitInv(s);
    ReachableInv(s, run, s');
    RunLeaks(s, run, s');
  }

  // ---------- the theorems ----------

  /**
   In every reachable state the hash holds at most one node per mount id and node id, and its lists
   hold exactly the hashed nodes, each on the list its hash selects.
   */
  lemma OneNodePerKey(s: State, run: seq<Action>, s': State)
    requires Init(s) && Runs(s, run, s')
    ensures forall n :: n in s'.hashed ==> n in s'.heap && n in Chain(s'.buckets, s'.bucketOf(s'.heap[n].key))
    ensures forall m, n :: m in s'.hashed && n in s'.hashed && m != n ==> s'.heap[m].key != s'.heap[n].key
    ensures forall b, n :: b in s'.buckets && n in s'.buckets[b] ==>
              n in s'.hashed && n in s'.heap && s'.bucketOf(s'.heap[n].key) == b
  {
    ReachableNodes(s, run, s');
  }

  lemma AttachOrVnode(s: State, n: Ref)
    requires ThreadsOk(s) && NodesOk(s) && n in s.hashed && n in s.heap
    ensures s.heap[n].vnode.Some? <==> forall t :: t in s.threads ==> Attaching(s.threads[t].pc) != Some(n)
  {
    assert NodeOk(s, n);
    forall t | t in s.threads && s.heap[n].vnode.Some? ensures Attaching(s.threads[t].pc) != Some(n) {
      assert ThreadOk(s, s.threads[t]);
    }
  }

  /**
   Exclusive attach: every hashed node either has its vnode and is being attached by nobody, or has
   none and is being attached by exactly one thread.
   */
  lemma ExactlyOneAttacher(s: State, run: seq<Action>, s': State, n: Ref)
    requires Init(s) && Runs(s, run, s') && n in s'.hashed
    ensures n in s'.heap
    ensures s'.heap[n].vnode.Some? ==> forall t :: t in s'.threads ==> Attaching(s'.threads[t].pc) != Some(n)
    ensures s'.heap[n].vnode.None? ==>
              exists t :: t in s'.threads && Attaching(s'.threads[t].pc) == Some(n)
                && forall u :: u in s'.threads && u != t ==> Attaching(s'.threads[u].pc) != Some(n)
  {
    ReachableInv(s, run, s');
    AttachOrVnode(s', n);
    if s'.heap[n].vnode.None? {
      var t :| t in s'.threads && Attaching(s'.threads[t].pc) == Some(n);
      forall u | u in s'.threads && u != t ensures Attaching(s'.threads[u].pc) != Some(n) { AttachAlone(s', t, u); }
    }
  }

  // ---------- the structure node of a node ----------

  /** Every call in the run passes, with a key, the structure node `f` gives that key. */
  ghost predicate CallsAgree(run: seq<Action>, f: Key -> nat) {
    forall i :: 0 <= i < |run| && run[i].Call? ==> run[i].snode == f(run[i].key)
  }

  /** Every hashed node, and every call, names the structure node that `f` gives its key. */
  ghost predicate SnodesOk(s: State, f: Key -> nat) {
    && (forall n :: n in s.hashed ==> n in s.heap && s.heap[n].snode == f(s.heap[n].key))
    && (forall t :: t in s.threads ==> s.threads[t].snode == f(s.threads[t].key))
  }

  lemma TopSnodes(s: State, t: Tid, f: Key -> nat)
    requires TableOk(s.buckets, s.heap, s.bucketOf, s.hashed) && NodesOk(s) && Enabled(s, Top(t)) && SnodesOk(s, f)
    ensures SnodesOk(Step(s, Top(t)), f)
  {
    TopEffect(s, t);
    match Search(s.heap, Chain(s.buckets, s.bucketOf(s.threads[t].key)), s.threads[t].key)
    case Some(n) => TopFound(s, t, n);
    case None =>
  }

  lemma EndAttachSnodes(s: State, n: Ref, f: Key -> nat)
    requires SnodesOk(s, f)
    ensures SnodesOk(EndAttach(s, n), f)
  {
  }

  lemma FreeNodeSnodes(s: State, n: Ref, f: Key -> nat)
    requires SnodesOk(s, f)
    ensures SnodesOk(FreeNode(s, n), f)
  {
  }

  lemma AttachOkSnodes(s: State, t: Tid, f: Key -> nat)
    requires Enabled(s, AttachOk(t)) && SnodesOk(s, f)
    ensures SnodesOk(Step(s, AttachOk(t)), f)
  {
    EndAttachSnodes(s, s.threads[t].pc.node, f);
  }

  lemma AttachErrSnodes(s: State, t: Tid, f: Key -> nat)
    requires Enabled(s, AttachErr(t)) && SnodesOk(s, f)
    ensures SnodesOk(Step(s, AttachErr(t)), f)
  {
    var n := s.threads[t].pc.node;
    EndAttachSnodes(s, n, f);
    FreeNodeSnodes(EndAttach(s, n), n, f);
  }

  lemma LeaveSnodes(s: State, t: Tid, f: Key -> nat)
    requires Inv(s) && Enabled(s, Leave(t)) && SnodesOk(s, f)
    ensures SnodesOk(Step(s, Leave(t)), f)
  {
    LeaveEffect(s, t);
  }

  lemma OtherSnodes(s: State, a: Action, f: Key -> nat)
    requires Enabled(s, a) && !a.Top? && !a.AttachOk? && !a.AttachErr? && !a.Leave? && SnodesOk(s, f)
    requires a.Call? ==> a.snode == f(a.key)
    ensures SnodesOk(Step(s, a), f)
  {
  }

  lemma StepSnodes(s: State, a: Action, f: Key -> nat)
    requires Inv(s) && Enabled(s, a) && SnodesOk(s, f) && (a.Call? ==> a.snode == f(a.key))
    ensures SnodesOk(Step(s, a), f)
  {
    if a.Top? {
      TopSnodes(s, a.t, f);
    } else if a.AttachOk? {
      AttachOkSnodes(s, a.t, f);
    } else if a.AttachErr? {
      AttachErrSnodes(s, a.t, f);
    } else if a.Leave? {
      LeaveSnodes(s, a.t, f);
    } else {
      OtherSnodes(s, a, f);
    }
  }

  lemma {:induction false} RunSnodes(s: State, run: seq<Action>, s': State, f: Key -> nat)
    requires Inv(s) && Runs(s, run, s') && SnodesOk(s, f) && CallsAgree(run, f)
    ensures SnodesOk(s', f)
    decreases |run|
  {
    if run != [] {
      StepSnodes(s, run[0], f);
      StepKeeps(s, run[0]);
      RunSnodes(Step(s, run[0]), run[1..], s', f);
    }
  }

  /**
   A node belongs to the structure node its finder asked for: when all calls for a key name the
   same structure node, every hashed node carries the one that goes with its key.
   */
  lemma NodesKeepStructure(s: State, run: seq<Action>, s': State, f: Key -> nat)
    requires Init(s) && Runs(s, run, s') && CallsAgree(run, f)
    ensures forall n :: n in s'.hashed ==> n in s'.heap && s'.heap[n].snode == f(s'.heap[n].key)
    ensures forall t :: t in s'.threads ==> s'.threads[t].snode == f(s'.threads[t].key)
  {
    InitInv(s);
    RunSnodes(s, run, s', f);
  }

  /**
   Whenever a find has succeeded, and until its caller lets go, the node it returned is live, still
   hashed, has exactly the requested key and is linked both ways with the returned vnode; the vnode
   is not being reclaimed, and its iocount is the number of such finds plus what others hold.  The
   node is also the one for the requested structure node, when calls for one key agree on that.
   */
  lemma FindReturnsPair(s: State, run: seq<Action>, s': State, t: Tid, f: Key -> nat)
    requires Init(s) && Runs(s, run, s')
    requires t in s'.threads && s'.threads[t].pc.Returned? && s'.threads[t].pc.result.Found?
    ensures var n, v := s'.threads[t].pc.result.node, s'.threads[t].pc.result.vnode;
            && n in s'.heap && n in s'.hashed && s'.heap[n].key == s'.threads[t].key
            && s'.heap[n].vnode == Some(v) && v in s'.vnodes && s'.vnodes[v].fsnode == Some(n)
            && s'.vnodes[v].phase.Live? && s'.vnodes[v].fsrefs == 1
            && t in Holders(s'.threads, v)
            && s'.vnodes[v].iocount == s'.vnodes[v].external + |Holders(s'.threads, v)| >= 1
            && (CallsAgree(run, f) ==> s'.heap[n].snode == s'.threads[t].snode == f(s'.threads[t].key))
  {
    ReachableInv(s, run, s');
    if CallsAgree(run, f) { NodesKeepStructure(s, run, s', f); }
    assert ThreadOk(s', s'.threads[t]);
    assert NodeOk(s', s'.threads[t].pc.result.node);
    HolderCounted(s', t);
  }

  /** A thread leaves the system only after it has returned. */
  lemma ThreadStays(s: State, a: Action, t: Tid)
    requires Enabled(s, a) && t in s.threads && !s.threads[t].pc.Returned?
    ensures t in Step(s, a).threads
  {
    if a.Top? {
      TopSegmentThreads(s, a.t);
    } else if a.AttachOk? || a.AttachErr? {
      AttachersStay(s, a, t);
    } else {
      OthersStay(s, a, t);
    }
  }

  lemma AttachersStay(s: State, a: Action, t: Tid)
    requires Enabled(s, a) && (a.AttachOk? || a.AttachErr?) && t in s.threads
    ensures t in Step(s, a).threads
  {
  }

  lemma OthersStay(s: State, a: Action, t: Tid)
    requires Enabled(s, a) && !a.Top? && !a.AttachOk? && !a.AttachErr? && t in s.threads && !s.threads[t].pc.Returned?
    ensures t in Step(s, a).threads
  {
  }

  lemma UseTargetThreads(s: State, t: Tid, n: Ref)
    requires t in s.threads
    ensures UseTarget(s, t, n).threads.Keys == s.threads.Keys && UseTarget(s, t, n).leaked == s.leaked
  {
  }

  lemma TopSegmentThreads(s: State, t: Tid)
    requires t in s.threads
    ensures TopSegment(s, t).threads.Keys == s.threads.Keys && TopSegment(s, t).leaked == s.leaked
  {
    var th := s.threads[t];
    var b := s.bucketOf(th.key);
    match Search(s.heap, Chain(s.buckets, b), th.key)
    case Some(n) => UseTargetThreads(s, t, n);
    case None =>
      if th.spare.Some? {
        var n, node := th.spare.value, PfsNode(th.key, th.snode, None, false, false);
        UseTargetThreads(s.(heap := s.heap[n := node], buckets := InsertHead(s.buckets, b, n), hashed := s.hashed + {n}), t, n);
      }
  }

  /**
   No lost wakeup: a thread asleep on a node sleeps on a live hashed node that another thread is
   attaching and whose waiting flag is up; and whatever happens next, either the thread is awake or
   the node is still there, so a failed attach frees its node only after waking every sleeper.
   */
  lemma SleepersAreWatched(s: State, run: seq<Action>, s': State, t: Tid, a: Action)
    requires Init(s) && Runs(s, run, s')
    requires t in s'.threads && s'.threads[t].pc.Asleep? && Enabled(s', a)
    ensures var n := s'.threads[t].pc.node;
            && n in s'.heap && n in s'.hashed && s'.heap[n].attaching && s'.heap[n].waiting
            && (exists u :: u in s'.threads && u != t && Attaching(s'.threads[u].pc) == Some(n))
    ensures var n := s'.threads[t].pc.node; var s'' := Step(s', a);
            t in s''.threads && (s''.threads[t].pc == Asleep(n) ==> n in s''.heap && n in s''.hashed)
  {
    ReachableInv(s, run, s');
    SleeperOk(s', t);
    StepKeeps(s', a);
    ThreadStays(s', a, t);
    if Step(s', a).threads[t].pc == Asleep(s'.threads[t].pc.node) { SleeperOk(Step(s', a), t); }
  }

  lemma SleeperOk(s: State, t: Tid)
    requires ThreadsOk(s) && NodesOk(s) && t in s.threads && s.threads[t].pc.Asleep?
    ensures var n := s.threads[t].pc.node;
            && n in s.heap && n in s.hashed && s.heap[n].attaching && s.heap[n].waiting
            && (exists u :: u in s.threads && u != t && Attaching(s.threads[u].pc) == Some(n))
  {
    assert ThreadOk(s, s.threads[t]);
    assert NodeOk(s, s.threads[t].pc.node);
  }

  /** Nothing dead is ever dereferenced, unlinked or freed, and no reference count underflows. */
  lemma NoFault(s: State, run: seq<Action>, s': State)
    requires Init(s) && Runs(s, run, s')
    ensures !s'.fault
  {
    ReachableInv(s, run, s');
  }

  /** A failed `vnode_getwithvid` in a call that holds an allocation it has not used. */
  predicate DropsSpare(s: State, a: Action) {
    a.GetErr? && a.t in s.threads && s.threads[a.t].spare.Some?
  }

  ghost predicate RunDrops(s: State, run: seq<Action>, s': State)
    requires Runs(s, run, s')
    decreases |run|
  {
    run != [] && (DropsSpare(s, run[0]) || RunDrops(Step(s, run[0]), run[1..], s'))
  }

  lemma OnlyGetErrLeaks(s: State, a: Action)
    requires Enabled(s, a) && !a.GetErr?
    ensures Step(s, a).leaked == s.leaked
  {
    if a.Top? { TopSegmentThreads(s, a.t); }
  }

  lemma GetErrLeaks(s: State, t: Tid)
    requires SparesOk(s) && t in s.threads && s.threads[t].pc.Getting?
    ensures s.leaked <= GetErrSegment(s, t).leaked
    ensures GetErrSegment(s, t).leaked != s.leaked <==> s.threads[t].spare.Some?
  {
    if s.threads[t].spare.Some? { assert s.threads[t].spare.value !in s.leaked; }
  }

  lemma StepLeaks(s: State, a: Action)
    requires SparesOk(s) && Enabled(s, a)
    ensures s.leaked <= Step(s, a).leaked
    ensures Step(s, a).leaked != s.leaked <==> DropsSpare(s, a)
  {
    if a.GetErr? { GetErrLeaks(s, a.t); } else { OnlyGetErrLeaks(s, a); }
  }

  lemma {:induction false} RunLeaks(s: State, run: seq<Action>, s': State)
    requires Inv(s) && Runs(s, run, s')
    ensures s.leaked <= s'.leaked
    ensures s'.leaked == s.leaked <==> !RunDrops(s, run, s')
    decreases |run|
  {
    if run != [] {
      StepLeaks(s, run[0]);
      StepKeeps(s, run[0]);
      RunLeaks(Step(s, run[0]), run[1..], s');
    }
  }

  lemma OwnersDisjoint(s: State)
    requires OwnersOk(s)
    ensures forall r :: r in s.hashed || r in s.leaked ==> !IsUnused(s, r)
  {
    forall r | r in s.hashed || r in s.leaked ensures !IsUnused(s, r) {
      forall t | t in s.threads ensures Unused(s.threads[t]) != Some(r) {
        assert Unused(s.threads[t]).Some? ==> Unused(s.threads[t]) == s.threads[t].spare;
      }
    }
  }

  /**
   Conservation of allocations.  Every allocation that has not been freed is on a hash list, or is
   the unused spare of exactly one call, or was dropped; an allocation is dropped exactly in runs in
   which `vnode_getwithvid` fails in a call that holds an unused allocation.
   */
  lemma AllocationsConserved(s: State, run: seq<Action>, s': State)
    requires Init(s) && Runs(s, run, s')
    ensures s'.allocs == s'.frees + |s'.heap|
    ensures forall r :: r in s'.heap ==> r in s'.hashed || r in s'.leaked || IsUnused(s', r)
    ensures forall r :: r in s'.hashed ==> r in s'.heap && r !in s'.leaked && !IsUnused(s', r)
    ensures forall r :: r in s'.leaked ==> r in s'.heap && !IsUnused(s', r)
    ensures s'.leaked == {} <==> !RunDrops(s, run, s')
    ensures s'.threads == map[] ==> s'.allocs == s'.frees + |s'.hashed| + |s'.leaked|
  {
    ReachableOwners(s, run, s');
    OwnersDisjoint(s');
    if s'.threads == map[] {
      assert s'.heap.Keys == s'.hashed + s'.leaked;
    }
  }

  // ---------- a run that drops an allocation ----------

  lemma {:induction false} Extend(s: State, run: seq<Action>, m: State, a: Action)
    requires Runs(s, run, m) && Enabled(m, a)
    ensures Runs(s, run + [a], Step(m, a))
    decreases |run|
  {
    if run == [] {
      assert [a][1..] == [];
      assert Runs(Step(s, a), [a][1..], Step(m, a));
    } else {
      Extend(Step(s, run[0]), run[1..], m, a);
      assert (run + [a])[1..] == run[1..] + [a];
    }
  }

  const ROOT := Key(0, NodeId(-1, 0, 1))
  const BLANK := PfsNode(ROOT, 0, None, false, false)

  function Empty(h: Key -> nat): State { State(h, map[], map[], {}, map[], map[], {}, 0, 0, false) }

  /** Two calls for the same key have both gone off to allocate. */
  function BothAllocating(h: Key -> nat): State {
    Empty(h).(threads := map[1 := Thread(ROOT, 0, None, Allocating), 2 := Thread(ROOT, 0, None, Allocating)])
  }

  /** The second call has finished and its caller has let go of the vnode. */
  function OneCached(h: Key -> nat): State {
    Empty(h).(threads := map[1 := Thread(ROOT, 0, None, Allocating)],
             buckets := map[h(ROOT) := [20]],
             heap := map[20 := BLANK.(vnode := Some(7))],
             hashed := {20}, allocs := 1,
             vnodes := map[7 := Vnode(0, 0, 0, 1, Live, Some(20))])
  }

  lemma ReachBothAllocating(h: Key -> nat) returns (run: seq<Action>)
    ensures Runs(Empty(h), run, BothAllocating(h))
  {
    var s0 := Empty(h);
    var s1 := Step(s0, Call(1, ROOT, 0));
    var s2 := Step(s1, Top(1));
    assert s2 == Empty(h).(threads := map[1 := Thread(ROOT, 0, None, Allocating)]);
    var s3 := Step(s2, Call(2, ROOT, 0));
    var s4 := Step(s3, Top(2));
    assert s4 == BothAllocating(h);
    Extend(s0, [], s0, Call(1, ROOT, 0));
    Extend(s0, [] + [Call(1, ROOT, 0)], s1, Top(1));
    Extend(s0, [] + [Call(1, ROOT, 0)] + [Top(1)], s2, Call(2, ROOT, 0));
    run := [] + [Call(1, ROOT, 0)] + [Top(1)] + [Call(2, ROOT, 0)];
    Extend(s0, run, s3, Top(2));
    run := run + [Top(2)];
  }

  /** The second call has hashed its allocation and is in the create callback. */
  function SecondCreating(h: Key -> nat): State {
    BothAllocating(h).(threads := map[1 := Thread(ROOT, 0, None, Allocating), 2 := Thread(ROOT, 0, Some(20), Creating(20))],
                      buckets := map[h(ROOT) := [20]],
                      heap := map[20 := BLANK.(attaching := true)],
                      hashed := {20}, allocs := 1)
  }

  lemma EmptyChainInserts(s: State, t: Tid)
    requires t in s.threads && s.threads[t].spare.Some? && Chain(s.buckets, s.bucketOf(s.threads[t].key)) == []
    ensures TopSegment(s, t) == Inserted(s, t, s.threads[t].spare.value)
  {
  }

  function SecondAllocated(h: Key -> nat): State {
    BothAllocating(h).(threads := map[1 := Thread(ROOT, 0, None, Allocating), 2 := Thread(ROOT, 0, Some(20), AtTop)],
                      heap := map[20 := BLANK], allocs := 1)
  }

  lemma SecondInserts(h: Key -> nat)
    ensures Enabled(SecondAllocated(h), Top(2)) && Step(SecondAllocated(h), Top(2)) == SecondCreating(h)
  {
    var s := SecondAllocated(h);
    EmptyChainInserts(s, 2);
    var s' := Inserted(s, 2, 20);
    assert s'.threads == SecondCreating(h).threads && s'.heap == SecondCreating(h).heap;
    assert [20] + Chain(s.buckets, h(ROOT)) == [20];
    assert s'.buckets == SecondCreating(h).buckets && s'.hashed == {20};
  }

  lemma ReachSecondAllocated(h: Key -> nat) returns (run: seq<Action>)
    ensures Runs(Empty(h), run, SecondAllocated(h))
  {
    var r0 := ReachBothAllocating(h);
    var s1 := Step(BothAllocating(h), AllocOk(2, 20, BLANK));
    assert s1.threads == SecondAllocated(h).threads && s1.heap == SecondAllocated(h).heap;
    Extend(Empty(h), r0, BothAllocating(h), AllocOk(2, 20, BLANK));
    run := r0 + [AllocOk(2, 20, BLANK)];
  }

  lemma ReachSecondCreating(h: Key -> nat) returns (run: seq<Action>)
    ensures Runs(Empty(h), run, SecondCreating(h))
  {
    var r0 := ReachSecondAllocated(h);
    SecondInserts(h);
    Extend(Empty(h), r0, SecondAllocated(h), Top(2));
    run := r0 + [Top(2)];
  }

  /** The second call is about to return the node and its vnode. */
  function SecondLeaving(h: Key -> nat): State {
    SecondCreating(h).(threads := map[1 := Thread(ROOT, 0, None, Allocating), 2 := Thread(ROOT, 0, Some(20), Leaving(Found(20, 7)))],
                      heap := map[20 := BLANK.(vnode := Some(7))],
                      vnodes := map[7 := Vnode(0, 1, 0, 1, Live, Some(20))])
  }

  lemma ReachSecondLeaving(h: Key -> nat) returns (run: seq<Action>)
    ensures Runs(Empty(h), run, SecondLeaving(h))
  {
    var r0 := ReachSecondCreating(h);
    var s0 := SecondCreating(h);
    var s1 := Step(s0, CreateOk(2, 7));
    var s2 := Step(s1, AttachOk(2));
    assert s2.heap == SecondLeaving(h).heap && s2.vnodes == SecondLeaving(h).vnodes && s2.threads == SecondLeaving(h).threads;
    assert s2 == SecondLeaving(h);
    Extend(Empty(h), r0, s0, CreateOk(2, 7));
    Extend(Empty(h), r0 + [CreateOk(2, 7)], s1, AttachOk(2));
    run := r0 + [CreateOk(2, 7)] + [AttachOk(2)];
  }

  lemma ReachOneCached(h: Key -> nat) returns (run: seq<Action>)
    ensures Runs(Empty(h), run, OneCached(h))
  {
    var r0 := ReachSecondLeaving(h);
    var s0 := SecondLeaving(h);
    var s1 := Step(s0, Leave(2));
    var s2 := Step(s1, Put(2));
    assert s2.threads == OneCached(h).threads && s2.vnodes == OneCached(h).vnodes;
    assert s2 == OneCached(h);
    Extend(Empty(h), r0, s0, Leave(2));
    Extend(Empty(h), r0 + [Leave(2)], s1, Put(2));
    run := r0 + [Leave(2)] + [Put(2)];
  }

  /** The first call has allocated and found the cached node. */
  function FirstGetting(h: Key -> nat): State {
    OneCached(h).(threads := map[1 := Thread(ROOT, 0, Some(10), Getting(20, 7, 0))],
                  heap := map[10 := BLANK, 20 := BLANK.(vnode := Some(7))], allocs := 2)
  }

  lemma ReachFirstGetting(h: Key -> nat) returns (run: seq<Action>)
    ensures Runs(Empty(h), run, FirstGetting(h))
  {
    var r0 := ReachOneCached(h);
    var s0 := OneCached(h);
    var s1 := Step(s0, AllocOk(1, 10, BLANK));
    assert Chain(s1.buckets, h(ROOT)) == [20];
    var s2 := Step(s1, Top(1));
    assert s2.threads == FirstGetting(h).threads && s2.heap == FirstGetting(h).heap;
    Extend(Empty(h), r0, s0, AllocOk(1, 10, BLANK));
    Extend(Empty(h), r0 + [AllocOk(1, 10, BLANK)], s1, Top(1));
    run := r0 + [AllocOk(1, 10, BLANK)] + [Top(1)];
  }

  /**
   The exceptional runs exist: a call that went off to allocate finds the node in place when it
   comes back, and reclaim of that node's vnode then makes it drop its allocation for good.
   */
  lemma DroppedAllocationIsReachable(h: Key -> nat) returns (run: seq<Action>, s: State)
    ensures Init(Empty(h)) && Runs(Empty(h), run, s) && s.leaked == {10}
  {
    var r0 := ReachFirstGetting(h);
    var s0 := FirstGetting(h);
    var s1 := Step(s0, ReclaimStart(7, 0));
    s := Step(s1, GetErr(1));
    Extend(Empty(h), r0, s0, ReclaimStart(7, 0));
    Extend(Empty(h), r0 + [ReclaimStart(7, 0)], s1, GetErr(1));
    run := r0 + [ReclaimStart(7, 0)] + [GetErr(1)];
  }
}
