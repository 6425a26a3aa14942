/**
 Every step of the pfsnode/vnode cache keeps its invariant.

 Most steps move one thread and leave nodes and vnode links alone (`Moves`).  The others insert a
 node, end an attach, start, run or finish a reclaim; each has its own lemmas.
 */
module NodeCacheSteps {
  import opened Options
  import opened NodeHash
  import opened NodeCache

  // ---------- frames ----------

  /** No hashed node disappears, and only the waiting flag of one may be raised. */
  ghost predicate NodesGrow(s: State, s': State) {
    forall n :: n in s.hashed && n in s.heap ==>
      && n in s'.hashed && n in s'.heap
      && s'.heap[n].key == s.heap[n].key && s'.heap[n].vnode == s.heap[n].vnode
      && s'.heap[n].attaching == s.heap[n].attaching && (s.heap[n].waiting ==> s'.heap[n].waiting)
  }

  /** Apart from its iocounts a vnode is unchanged, unless it was free for reuse. */
  predicate SameLink(vn: Vnode, vn': Vnode) {
    || (vn'.vid == vn.vid && vn'.phase == vn.phase && vn'.fsnode == vn.fsnode && vn'.fsrefs == vn.fsrefs)
    || (vn.phase.Idle? && vn.fsnode.None? && vn'.vid == vn.vid)
  }

  ghost predicate VnodesGrow(s: State, s': State) {
    forall v :: v in s.vnodes ==> v in s'.vnodes && SameLink(s.vnodes[v], s'.vnodes[v])
  }

  lemma FrameThread(s: State, s': State, th: Thread)
    requires ThreadOk(s, th)
    requires NodesGrow(s, s') && VnodesGrow(s, s')
    ensures ThreadOk(s', th)
  {
  }

  /** All threads but `t` are as before. */
  ghost predicate Others(threads: map<Tid, Thread>, threads': map<Tid, Thread>, t: Tid) {
    forall u :: u != t ==> (u in threads <==> u in threads') && (u in threads ==> threads'[u] == threads[u])
  }

  /** A thread that is attaching a vnode keeps doing so, with the same vnode if it has one. */
  predicate AttachKept(threads: map<Tid, Thread>, threads': map<Tid, Thread>, t: Tid) {
    t in threads && Attaching(threads[t].pc).Some? ==>
      && t in threads' && Attaching(threads'[t].pc) == Attaching(threads[t].pc)
      && (threads[t].pc.Created? ==> threads'[t].pc == threads[t].pc)
  }

  lemma FrameThreads(s: State, s': State, t: Tid)
    requires ThreadsOk(s) && NodesGrow(s, s') && VnodesGrow(s, s') && Others(s.threads, s'.threads, t)
    requires t in s'.threads ==> ThreadOk(s', s'.threads[t])
    ensures ThreadsOk(s')
  {
    forall u | u in s'.threads ensures ThreadOk(s', s'.threads[u]) {
      if u != t { FrameThread(s, s', s.threads[u]); }
    }
  }

  lemma FrameAttacher(threads: map<Tid, Thread>, threads': map<Tid, Thread>, t: Tid, n: Ref)
    requires Others(threads, threads', t) && AttachKept(threads, threads', t)
    requires exists u :: u in threads && Attaching(threads[u].pc) == Some(n)
    ensures exists u :: u in threads' && Attaching(threads'[u].pc) == Some(n)
  {
    var u :| u in threads && Attaching(threads[u].pc) == Some(n);
    assert u in threads' && Attaching(threads'[u].pc) == Some(n);
  }

  /** The hashed nodes stay, at most asking for a wakeup; vnodes change at most in their iocounts. */
  ghost predicate Calm(s: State, s': State) {
    && s.hashed <= s'.hashed
    && (forall n :: n in s.hashed && n in s.heap ==>
          && n in s'.heap && s'.heap[n] == s.heap[n].(waiting := s'.heap[n].waiting)
          && (s.heap[n].waiting ==> s'.heap[n].waiting) && (s'.heap[n].waiting ==> s.heap[n].waiting || s.heap[n].attaching))
    && s'.vnodes.Keys == s.vnodes.Keys
    && (forall v :: v in s.vnodes ==> SameButCounts(s.vnodes[v], s'.vnodes[v]))
  }

  ghost predicate Quiet(s: State, s': State) {
    && Calm(s, s') && s'.hashed == s.hashed && s'.bucketOf == s.bucketOf && s'.buckets == s.buckets
  }

  predicate SameButCounts(vn: Vnode, vn': Vnode) {
    && vn' == vn.(iocount := vn'.iocount, external := vn'.external)
    && (!vn.phase.Live? ==> vn' == vn)
  }

  lemma CalmNode(s: State, s': State, t: Tid, n: Ref)
    requires n in s.hashed && n in s.heap && NodeOk(s, n)
    requires Calm(s, s') && Others(s.threads, s'.threads, t) && AttachKept(s.threads, s'.threads, t)
    ensures n in s'.heap && NodeOk(s', n)
  {
    if s.heap[n].attaching { FrameAttacher(s.threads, s'.threads, t, n); }
  }

  lemma CalmVnode(s: State, s': State, t: Tid, v: VRef)
    requires v in s.vnodes && VnodeOk(s, v) && LiveOk(s, v)
    requires Calm(s, s') && Others(s.threads, s'.threads, t) && AttachKept(s.threads, s'.threads, t)
    ensures v in s'.vnodes && VnodeOk(s', v) && LiveOk(s', v)
  {
    if u :| u in s.threads && s.threads[u].pc.Created? && s.threads[u].pc.vnode == v {
      assert u in s'.threads && s'.threads[u].pc.Created? && s'.threads[u].pc.vnode == v;
    }
  }

  /** A step that is quiet and moves one thread keeps the structure. */
  lemma QuietKeeps(s: State, s': State, t: Tid)
    requires Inv(s)
    requires Quiet(s, s') && Others(s.threads, s'.threads, t) && AttachKept(s.threads, s'.threads, t)
    requires t in s'.threads ==> ThreadOk(s', s'.threads[t])
    ensures TableOk(s'.buckets, s'.heap, s'.bucketOf, s'.hashed)
    ensures ThreadsOk(s') && NodesOk(s') && VnodesOk(s')
  {
    KeysKeepTable(s.buckets, s.heap, s'.heap, s.bucketOf, s.hashed);
    FrameThreads(s, s', t);
    forall n | n in s'.hashed ensures n in s'.heap && NodeOk(s', n) { CalmNode(s, s', t, n); }
    forall v | v in s'.vnodes ensures VnodeOk(s', v) && LiveOk(s', v) { CalmVnode(s, s', t, v); }
  }

  // ---------- counting holders ----------

  /** Some thread id outside a finite set. */
  lemma {:induction false} UnusedTid(used: set<Tid>) returns (t: Tid)
    ensures forall u :: u in used ==> u < t
  {
    t := 0;
    if used != {} {
      var x :| x in used;
      var t0 := UnusedTid(used - {x});
      t := if x < t0 then t0 else x + 1;
      forall u | u in used ensures u < t {
        if u != x { assert u in used - {x}; }
      }
    }
  }

  function Holds(threads: map<Tid, Thread>, t: Tid, v: VRef): nat {
    if t in threads && Holding(threads[t].pc) == Some(v) then 1 else 0
  }

  lemma CardWithout(h: set<Tid>, t: Tid)
    ensures |h| == |h - {t}| + (if t in h then 1 else 0)
  {
    if t in h { assert h == (h - {t}) + {t}; } else { assert h == h - {t}; }
  }

  lemma HoldersUpdate(threads: map<Tid, Thread>, threads': map<Tid, Thread>, t: Tid, v: VRef)
    requires Others(threads, threads', t)
    ensures |Holders(threads', v)| == |Holders(threads, v)| - Holds(threads, t, v) + Holds(threads', t, v)
  {
    var h, h' := Holders(threads, v), Holders(threads', v);
    assert h - {t} == h' - {t} by {
      forall u | u != t ensures u in h <==> u in h' {
        assert (u in threads <==> u in threads') && (u in threads ==> threads'[u] == threads[u]);
      }
    }
    CardWithout(h, t);
    CardWithout(h', t);
  }

  /** A thread that holds a vnode is counted in its iocount. */
  lemma HolderCounted(s: State, t: Tid)
    requires CountsOk(s)
    requires t in s.threads && Holding(s.threads[t].pc).Some?
    ensures Holding(s.threads[t].pc).value in s.vnodes ==> s.vnodes[Holding(s.threads[t].pc).value].iocount > 0
  {
    CardWithout(Holders(s.threads, Holding(s.threads[t].pc).value), t);
  }

  /** The iocounts balance when each changes by what one thread and the outside took or gave. */
  lemma CountsKeep(s: State, s': State, t: Tid)
    requires CountsOk(s) && Others(s.threads, s'.threads, t)
    requires CountsMove(s, s', t)
    ensures CountsOk(s')
  {
    forall v | v in s'.vnodes
      ensures s'.vnodes[v].iocount == s'.vnodes[v].external + |Holders(s'.threads, v)|
    {
      HoldersUpdate(s.threads, s'.threads, t, v);
    }
  }

  // ---------- ownership of allocations ----------

  /** The heap and the spares other than `t`'s are as before, and `t` accounts for what it had. */
  lemma OwnersKeep(s: State, s': State, t: Tid)
    requires OwnersOk(s) && Others(s.threads, s'.threads, t)
    requires OwnersSame(s, s', t)
    ensures OwnersOk(s')
  {
    forall r | r in s'.heap ensures r in s'.hashed || r in s'.leaked || IsUnused(s', r) {
      if r !in s.hashed && r !in s.leaked {
        var u :| u in s.threads && Unused(s.threads[u]) == Some(r);
        assert u in s'.threads && Unused(s'.threads[u]) == Some(r);
      }
    }
    assert |s'.heap| == |s'.heap.Keys| && |s.heap| == |s.heap.Keys|;
  }

  // ---------- steps of one thread that leave the structure alone ----------

  ghost predicate CountsMove(s: State, s': State, t: Tid) {
    forall v :: v in s'.vnodes ==>
      v in s.vnodes &&
      s'.vnodes[v].iocount - s'.vnodes[v].external - Holds(s'.threads, t, v)
        == s.vnodes[v].iocount - s.vnodes[v].external - Holds(s.threads, t, v)
  }

  predicate SpareKept(threads: map<Tid, Thread>, threads': map<Tid, Thread>, t: Tid) {
    && (t in threads && Unused(threads[t]).Some? ==> t in threads' && Unused(threads'[t]) == Unused(threads[t]))
    && (t in threads' && threads'[t].spare.Some? ==>
          t in threads && threads'[t].spare == threads[t].spare && Unused(threads'[t]) == Unused(threads[t]))
  }

  /** Thread `t` moves; nodes, tables and everybody else's business stay as they are. */
  ghost predicate Moves(s: State, s': State, t: Tid) {
    && Quiet(s, s') && Others(s.threads, s'.threads, t) && AttachKept(s.threads, s'.threads, t)
    && CountsMove(s, s', t) && !s'.fault
    && (t in s'.threads ==> ThreadOk(s', s'.threads[t]))
  }

  ghost predicate OwnersSame(s: State, s': State, t: Tid) {
    && s'.heap.Keys == s.heap.Keys && s'.hashed == s.hashed && s'.leaked == s.leaked
    && s'.allocs == s.allocs && s'.frees == s.frees && SpareKept(s.threads, s'.threads, t)
  }

  lemma MovesKeeps(s: State, s': State, t: Tid)
    requires Inv(s) && Moves(s, s', t) && (OwnersOk(s') || OwnersSame(s, s', t))
    ensures Inv(s')
  {
    QuietKeeps(s, s', t);
    CountsKeep(s, s', t);
    if OwnersSame(s, s', t) {
      OwnersKeep(s, s', t);
    }
  }

  lemma CallMoves(s: State, t: Tid, key: Key, snode: nat)
    requires Enabled(s, Call(t, key, snode)) && !s.fault
    ensures var s' := Step(s, Call(t, key, snode)); Moves(s, s', t) && OwnersSame(s, s', t)
  {
  }

  lemma CallKeeps(s: State, t: Tid, key: Key, snode: nat)
    requires Inv(s) && Enabled(s, Call(t, key, snode))
    ensures Inv(Step(s, Call(t, key, snode)))
  {
    CallMoves(s, t, key, snode);
    MovesKeeps(s, Step(s, Call(t, key, snode)), t);
  }

  lemma StirMoves(s: State, t: Tid)
    requires Enabled(s, Stir(t)) && !s.fault
    ensures var s' := Step(s, Stir(t)); Moves(s, s', t) && OwnersSame(s, s', t)
  {
  }

  lemma StirKeeps(s: State, t: Tid)
    requires Inv(s) && Enabled(s, Stir(t))
    ensures Inv(Step(s, Stir(t)))
  {
    StirMoves(s, t);
    MovesKeeps(s, Step(s, Stir(t)), t);
  }

  lemma AllocFailMoves(s: State, t: Tid)
    requires Enabled(s, AllocFail(t)) && ThreadOk(s, s.threads[t]) && !s.fault
    ensures var s' := Step(s, AllocFail(t)); Moves(s, s', t) && OwnersSame(s, s', t)
  {
  }

  lemma AllocFailKeeps(s: State, t: Tid)
    requires Inv(s) && Enabled(s, AllocFail(t))
    ensures Inv(Step(s, AllocFail(t)))
  {
    AllocFailMoves(s, t);
    MovesKeeps(s, Step(s, AllocFail(t)), t);
  }

  lemma CreateErrMoves(s: State, t: Tid, e: int)
    requires Enabled(s, CreateErr(t, e)) && ThreadOk(s, s.threads[t]) && !s.fault
    ensures var s' := Step(s, CreateErr(t, e)); Moves(s, s', t) && OwnersSame(s, s', t)
  {
  }

  lemma CreateErrKeeps(s: State, t: Tid, e: int)
    requires Inv(s) && Enabled(s, CreateErr(t, e))
    ensures Inv(Step(s, CreateErr(t, e)))
  {
    CreateErrMoves(s, t, e);
    MovesKeeps(s, Step(s, CreateErr(t, e)), t);
  }

  lemma GetOkCalm(s: State, t: Tid)
    requires Enabled(s, GetOk(t))
    ensures var s' := Step(s, GetOk(t)); Quiet(s, s') && CountsMove(s, s', t)
  {
  }

  lemma GetOkMoves(s: State, t: Tid)
    requires Enabled(s, GetOk(t)) && ThreadOk(s, s.threads[t]) && !s.fault
    requires s.threads[t].spare.Some? ==> s.threads[t].spare.value !in s.hashed
    ensures var s' := Step(s, GetOk(t)); Moves(s, s', t) && OwnersSame(s, s', t)
  {
    GetOkCalm(s, t);
  }

  lemma GetOkKeeps(s: State, t: Tid)
    requires Inv(s) && Enabled(s, GetOk(t))
    ensures Inv(Step(s, GetOk(t)))
  {
    assert Unused(s.threads[t]) == s.threads[t].spare;
    GetOkMoves(s, t);
    MovesKeeps(s, Step(s, GetOk(t)), t);
  }

  lemma PutMoves(s: State, t: Tid)
    requires Enabled(s, Put(t)) && ThreadOk(s, s.threads[t]) && CountsOk(s) && !s.fault
    ensures var s' := Step(s, Put(t)); Moves(s, s', t) && OwnersSame(s, s', t)
  {
    if Holding(s.threads[t].pc).Some? { HolderCounted(s, t); }
  }

  lemma PutKeeps(s: State, t: Tid)
    requires Inv(s) && Enabled(s, Put(t))
    ensures Inv(Step(s, Put(t)))
  {
    PutMoves(s, t);
    MovesKeeps(s, Step(s, Put(t)), t);
  }

  /** Other holders come and go without any thread moving; `t` is any thread id not in use. */
  lemma OtherGetMoves(s: State, v: VRef, t: Tid)
    requires Enabled(s, OtherGet(v)) && t !in s.threads && !s.fault
    ensures var s' := Step(s, OtherGet(v)); Moves(s, s', t) && OwnersSame(s, s', t)
  {
  }

  lemma OtherGetKeeps(s: State, v: VRef)
    requires Inv(s) && Enabled(s, OtherGet(v))
    ensures Inv(Step(s, OtherGet(v)))
  {
    var t := UnusedTid(s.threads.Keys);
    OtherGetMoves(s, v, t);
    MovesKeeps(s, Step(s, OtherGet(v)), t);
  }

  lemma OtherPutMoves(s: State, v: VRef, t: Tid)
    requires Enabled(s, OtherPut(v)) && VnodeOk(s, v) && CountsOk(s) && t !in s.threads && !s.fault
    ensures var s' := Step(s, OtherPut(v)); Moves(s, s', t) && OwnersSame(s, s', t)
  {
  }

  lemma OtherPutKeeps(s: State, v: VRef)
    requires Inv(s) && Enabled(s, OtherPut(v))
    ensures Inv(Step(s, OtherPut(v)))
  {
    var t := UnusedTid(s.threads.Keys);
    OtherPutMoves(s, v, t);
    MovesKeeps(s, Step(s, OtherPut(v)), t);
  }

  // ---------- steps that move an allocation ----------

  lemma AllocOkCovers(s: State, t: Tid, r: Ref, garbage: PfsNode, x: Ref)
    requires Enabled(s, AllocOk(t, r, garbage)) && s.threads[t].spare.None? && IsUnused(s, x)
    ensures IsUnused(Step(s, AllocOk(t, r, garbage)), x)
  {
    var s' := Step(s, AllocOk(t, r, garbage));
    var u :| u in s.threads && Unused(s.threads[u]) == Some(x);
    assert u in s'.threads && Unused(s'.threads[u]) == Some(x);
  }

  lemma AllocOkCover(s: State, t: Tid, r: Ref, garbage: PfsNode)
    requires CoverOk(s) && Enabled(s, AllocOk(t, r, garbage)) && s.threads[t].spare.None?
    ensures CoverOk(Step(s, AllocOk(t, r, garbage)))
  {
    var s' := Step(s, AllocOk(t, r, garbage));
    assert Unused(s'.threads[t]) == Some(r);
    forall x | x in s'.heap ensures x in s'.hashed || x in s'.leaked || IsUnused(s', x) {
      if x != r && x !in s.hashed && x !in s.leaked { AllocOkCovers(s, t, r, garbage, x); }
    }
    assert |s'.heap| == |s.heap| + 1 by { assert s'.heap.Keys == s.heap.Keys + {r}; }
  }

  lemma AllocOkSpares(s: State, t: Tid, r: Ref, garbage: PfsNode)
    requires SparesOk(s) && CoverOk(s) && Enabled(s, AllocOk(t, r, garbage)) && s.threads[t].spare.None?
    ensures SparesOk(Step(s, AllocOk(t, r, garbage)))
  {
  }

  lemma AllocOkMoves(s: State, t: Tid, r: Ref, garbage: PfsNode)
    requires Enabled(s, AllocOk(t, r, garbage)) && ThreadOk(s, s.threads[t]) && !s.fault
    ensures Moves(s, Step(s, AllocOk(t, r, garbage)), t)
  {
  }

  lemma AllocOkKeeps(s: State, t: Tid, r: Ref, garbage: PfsNode)
    requires Inv(s) && Enabled(s, AllocOk(t, r, garbage))
    ensures Inv(Step(s, AllocOk(t, r, garbage)))
  {
    AllocOkMoves(s, t, r, garbage);
    AllocOkCover(s, t, r, garbage);
    AllocOkSpares(s, t, r, garbage);
    MovesKeeps(s, Step(s, AllocOk(t, r, garbage)), t);
  }

  /** Line 194 hands the held allocation over to nobody. */
  lemma GetErrOwners(s: State, t: Tid)
    requires OwnersOk(s) && Enabled(s, GetErr(t))
    ensures OwnersOk(Step(s, GetErr(t)))
  {
    var s' := Step(s, GetErr(t));
    assert Others(s.threads, s'.threads, t);
    assert Unused(s.threads[t]) == s.threads[t].spare;
    forall x | x in s'.heap ensures x in s'.hashed || x in s'.leaked || IsUnused(s', x) {
      if x !in s.hashed && x !in s.leaked {
        var u :| u in s.threads && Unused(s.threads[u]) == Some(x);
        if u != t { assert u in s'.threads && Unused(s'.threads[u]) == Some(x); }
      }
    }
  }

  lemma GetErrMoves(s: State, t: Tid)
    requires Enabled(s, GetErr(t)) && ThreadOk(s, s.threads[t]) && !s.fault
    ensures Moves(s, Step(s, GetErr(t)), t)
  {
  }

  lemma GetErrKeeps(s: State, t: Tid)
    requires Inv(s) && Enabled(s, GetErr(t))
    ensures Inv(Step(s, GetErr(t)))
  {
    GetErrMoves(s, t);
    GetErrOwners(s, t);
    MovesKeeps(s, Step(s, GetErr(t)), t);
  }

  /** The spare is freed exactly when it was not used, and it is live then. */
  lemma LeaveEffect(s: State, t: Tid)
    requires OwnersOk(s) && Enabled(s, Leave(t)) && !s.fault
    ensures var s' := Step(s, Leave(t)); var th := s.threads[t];
            && s' == s.(heap := s'.heap, frees := s'.frees, threads := s'.threads)
            && s'.threads == s.threads[t := th.(spare := None, pc := Returned(th.pc.result))]
            && (Unused(th).None? ==> s'.heap == s.heap && s'.frees == s.frees)
            && (Unused(th).Some? ==> Unused(th).value in s.heap && s'.heap == s.heap - {Unused(th).value} && s'.frees == s.frees + 1)
  {
  }

  lemma SmallerHeap(h: Heap, r: Ref)
    requires r in h
    ensures |h| == |h - {r}| + 1
  {
    assert h.Keys == (h - {r}).Keys + {r};
  }

  lemma FreeCovers(s: State, s': State, t: Tid, r: Ref)
    requires CoverOk(s) && t in s.threads && Unused(s.threads[t]) == Some(r) && r !in s.hashed && r !in s.leaked
    requires Others(s.threads, s'.threads, t) && s'.hashed == s.hashed && s'.leaked == s.leaked
    requires r in s.heap && s'.heap == s.heap - {r} && s'.frees == s.frees + 1 && s'.allocs == s.allocs
    ensures CoverOk(s')
  {
    forall x | x in s'.heap ensures x in s'.hashed || x in s'.leaked || IsUnused(s', x) {
      if x !in s.hashed && x !in s.leaked {
        var u :| u in s.threads && Unused(s.threads[u]) == Some(x);
        assert u in s'.threads && Unused(s'.threads[u]) == Some(x);
      }
    }
    SmallerHeap(s.heap, r);
  }

  lemma FreeOwners(s: State, s': State, t: Tid, r: Ref)
    requires OwnersOk(s) && t in s.threads && Unused(s.threads[t]) == Some(r)
    requires Others(s.threads, s'.threads, t) && t in s'.threads && s'.threads[t].spare.None?
    requires s'.hashed == s.hashed && s'.leaked == s.leaked
    requires r in s.heap && s'.heap == s.heap - {r} && s'.frees == s.frees + 1 && s'.allocs == s.allocs
    ensures OwnersOk(s')
  {
    assert s.threads[t].spare == Some(r);
    FreeCovers(s, s', t, r);
  }

  lemma LeaveCalm(s: State, t: Tid)
    requires Enabled(s, Leave(t)) && OwnersOk(s) && !s.fault
    ensures var s' := Step(s, Leave(t)); Quiet(s, s') && CountsMove(s, s', t)
  {
    LeaveEffect(s, t);
  }

  lemma LeaveMoves(s: State, t: Tid)
    requires Enabled(s, Leave(t)) && ThreadOk(s, s.threads[t]) && OwnersOk(s) && !s.fault
    ensures Moves(s, Step(s, Leave(t)), t)
  {
    LeaveEffect(s, t);
    LeaveCalm(s, t);
  }

  lemma LeaveKeeps(s: State, t: Tid)
    requires Inv(s) && Enabled(s, Leave(t))
    ensures Inv(Step(s, Leave(t)))
  {
    var s' := Step(s, Leave(t));
    LeaveEffect(s, t);
    LeaveMoves(s, t);
    if Unused(s.threads[t]).Some? {
      FreeOwners(s, s', t, Unused(s.threads[t]).value);
    } else {
      assert OwnersSame(s, s', t);
    }
    MovesKeeps(s, s', t);
  }

  // ---------- vnode creation and reclaim ----------

  /** Nobody holds a vnode that is free for reuse or does not exist. */
  lemma NoHolders(s: State, v: VRef)
    requires ThreadsOk(s) && (v in s.vnodes ==> !s.vnodes[v].phase.Live?)
    ensures Holders(s.threads, v) == {}
  {
    forall t | t in s.threads ensures Holding(s.threads[t].pc) != Some(v) {
      assert ThreadOk(s, s.threads[t]);
    }
  }

  lemma CreateOkCounts(s: State, t: Tid, v: VRef)
    requires ThreadsOk(s) && CountsOk(s) && Enabled(s, CreateOk(t, v))
    ensures CountsOk(Step(s, CreateOk(t, v)))
  {
    var s' := Step(s, CreateOk(t, v));
    NoHolders(s, v);
    forall w | w in s'.vnodes ensures s'.vnodes[w].iocount == s'.vnodes[w].external + |Holders(s'.threads, w)| {
      HoldersUpdate(s.threads, s'.threads, t, w);
    }
  }

  lemma CreateOkVnodes(s: State, t: Tid, v: VRef)
    requires ThreadsOk(s) && VnodesOk(s) && Enabled(s, CreateOk(t, v))
    ensures VnodesOk(Step(s, CreateOk(t, v)))
  {
    var s' := Step(s, CreateOk(t, v));
    assert s'.threads[t].pc == Created(s.threads[t].pc.node, v);
    forall w | w in s'.vnodes ensures VnodeOk(s', w) && LiveOk(s', w) {
      if w != v {
        assert VnodeOk(s, w) && LiveOk(s, w) && s'.vnodes[w] == s.vnodes[w];
        if u :| u in s.threads && s.threads[u].pc.Created? && s.threads[u].pc.vnode == w {
          assert u in s'.threads && s'.threads[u].pc.Created? && s'.threads[u].pc.vnode == w;
        }
      }
    }
  }

  lemma CreateOkNodes(s: State, t: Tid, v: VRef)
    requires NodesOk(s) && Enabled(s, CreateOk(t, v))
    ensures NodesOk(Step(s, CreateOk(t, v)))
  {
    var s' := Step(s, CreateOk(t, v));
    forall n | n in s'.hashed ensures n in s'.heap && NodeOk(s', n) {
      assert NodeOk(s, n);
      if s.heap[n].attaching { FrameAttacher(s.threads, s'.threads, t, n); }
    }
  }

  lemma CreateOkThreads(s: State, t: Tid, v: VRef)
    requires ThreadsOk(s) && VnodesOk(s) && Enabled(s, CreateOk(t, v))
    ensures ThreadsOk(Step(s, CreateOk(t, v))) && OwnersSame(s, Step(s, CreateOk(t, v)), t)
  {
    var s' := Step(s, CreateOk(t, v));
    assert ThreadOk(s, s.threads[t]);
    assert v in s.vnodes ==> VnodeOk(s, v);
    FrameThreads(s, s', t);
  }

  lemma CreateOkKeeps(s: State, t: Tid, v: VRef)
    requires Inv(s) && Enabled(s, CreateOk(t, v))
    ensures Inv(Step(s, CreateOk(t, v)))
  {
    var s' := Step(s, CreateOk(t, v));
    CreateOkThreads(s, t, v);
    CreateOkNodes(s, t, v);
    CreateOkVnodes(s, t, v);
    OwnersKeep(s, s', t);
    CreateOkCounts(s, t, v);
  }

  /** With no iocount there is no thread that holds the vnode. */
  lemma NoCountNoHolder(s: State, v: VRef, t: Tid)
    requires CountsOk(s) && v in s.vnodes && s.vnodes[v].iocount == 0 && t in s.threads
    ensures Holding(s.threads[t].pc) != Some(v)
  {
    if Holding(s.threads[t].pc) == Some(v) { HolderCounted(s, t); }
  }

  lemma ReclaimStartThread(s: State, v: VRef, bump: nat, t: Tid)
    requires CountsOk(s) && Enabled(s, ReclaimStart(v, bump)) && t in s.threads && ThreadOk(s, s.threads[t])
    ensures ThreadOk(Step(s, ReclaimStart(v, bump)), s.threads[t])
  {
    NoCountNoHolder(s, v, t);
  }

  lemma ReclaimStartVnodes(s: State, v: VRef, bump: nat)
    requires CountsOk(s) && VnodesOk(s) && Enabled(s, ReclaimStart(v, bump))
    ensures VnodesOk(Step(s, ReclaimStart(v, bump)))
  {
    var s' := Step(s, ReclaimStart(v, bump));
    forall t | t in s.threads ensures Holding(s.threads[t].pc) != Some(v) { NoCountNoHolder(s, v, t); }
    forall w | w in s'.vnodes ensures VnodeOk(s', w) && LiveOk(s', w) {
      assert VnodeOk(s, w) && LiveOk(s, w);
    }
  }

  lemma ReclaimStartNodes(s: State, v: VRef, bump: nat)
    requires NodesOk(s) && Enabled(s, ReclaimStart(v, bump))
    ensures NodesOk(Step(s, ReclaimStart(v, bump)))
  {
    var s' := Step(s, ReclaimStart(v, bump));
    forall n | n in s'.hashed ensures n in s'.heap && NodeOk(s', n) {
      assert NodeOk(s, n);
      if s.heap[n].attaching { assert HasAttacher(s, n); assert HasAttacher(s', n); }
    }
  }

  lemma ReclaimStartKeeps(s: State, v: VRef, bump: nat)
    requires Inv(s) && Enabled(s, ReclaimStart(v, bump))
    ensures Inv(Step(s, ReclaimStart(v, bump)))
  {
    var s' := Step(s, ReclaimStart(v, bump));
    var t := UnusedTid(s.threads.Keys);
    forall u | u in s'.threads ensures ThreadOk(s', s'.threads[u]) { ReclaimStartThread(s, v, bump, u); }
    ReclaimStartNodes(s, v, bump);
    ReclaimStartVnodes(s, v, bump);
    OwnersKeep(s, s', t);
    CountsKeep(s, s', t);
  }

  lemma ReclaimEndKeeps(s: State, v: VRef)
    requires Inv(s) && Enabled(s, ReclaimEnd(v))
    ensures Inv(Step(s, ReclaimEnd(v)))
  {
    var s' := Step(s, ReclaimEnd(v));
    var t := UnusedTid(s.threads.Keys);
    assert VnodeOk(s, v);
    forall u | u in s'.threads ensures ThreadOk(s', s'.threads[u]) { ReclaimEndThread(s, v, u); }
    ReclaimEndNodes(s, v);
    ReclaimEndVnodes(s, v);
    OwnersKeep(s, s', t);
    CountsKeep(s, s', t);
  }

  lemma ReclaimEndThread(s: State, v: VRef, t: Tid)
    requires Enabled(s, ReclaimEnd(v)) && s.vnodes[v].fsrefs > 0 && t in s.threads && ThreadOk(s, s.threads[t])
    ensures ThreadOk(Step(s, ReclaimEnd(v)), s.threads[t])
  {
  }

  lemma ReclaimEndNodes(s: State, v: VRef)
    requires NodesOk(s) && Enabled(s, ReclaimEnd(v)) && s.vnodes[v].fsrefs > 0
    ensures NodesOk(Step(s, ReclaimEnd(v)))
  {
    var s' := Step(s, ReclaimEnd(v));
    forall n | n in s'.hashed ensures n in s'.heap && NodeOk(s', n) {
      assert NodeOk(s, n);
      if s.heap[n].attaching { assert HasAttacher(s, n); assert HasAttacher(s', n); }
    }
  }

  lemma ReclaimEndVnodes(s: State, v: VRef)
    requires VnodesOk(s) && Enabled(s, ReclaimEnd(v))
    ensures s.vnodes[v].fsrefs > 0 && VnodesOk(Step(s, ReclaimEnd(v)))
  {
    var s' := Step(s, ReclaimEnd(v));
    assert VnodeOk(s, v);
    forall w | w in s'.vnodes ensures VnodeOk(s', w) && LiveOk(s', w) {
      assert VnodeOk(s, w) && LiveOk(s, w);
      if u :| u in s.threads && s.threads[u].pc.Created? && s.threads[u].pc.vnode == w {
        assert u in s'.threads && s'.threads[u].pc.Created? && s'.threads[u].pc.vnode == w;
      }
    }
  }

  // ---------- the segment at the head of the loop ----------

  /** A hashed node is one whose attach is under way or one with a vnode. */
  lemma TopFound(s: State, t: Tid, n: Ref)
    requires NodesOk(s) && t in s.threads && n in s.hashed
    ensures n in s.heap
    ensures var s' := UseTarget(s, t, n);
            if s.heap[n].attaching
            then s' == SetPc(s.(heap := s.heap[n := s.heap[n].(waiting := true)]), t, Asleep(n))
            else s.heap[n].vnode.Some? && s.heap[n].vnode.value in s.vnodes
                 && s' == SetPc(s, t, Getting(n, s.heap[n].vnode.value, s.vnodes[s.heap[n].vnode.value].vid))
  {
    assert NodeOk(s, n);
  }

  /** The walk finds the node when there is one; otherwise the spare, if any, is put to use. */
  lemma TopEffect(s: State, t: Tid)
    requires TableOk(s.buckets, s.heap, s.bucketOf, s.hashed) && Enabled(s, Top(t))
    ensures var s' := Step(s, Top(t)); var th := s.threads[t];
            match Search(s.heap, Chain(s.buckets, s.bucketOf(th.key)), th.key)
            case Some(n) => n in s.hashed && n in s.heap && s.heap[n].key == th.key && s' == UseTarget(s, t, n)
            case None =>
              && (forall r :: r in s.hashed ==> s.heap[r].key != th.key)
              && s' == (if th.spare.None? then SetPc(s, t, Allocating) else Inserted(s, t, th.spare.value))
  {
    SearchIsComplete(s.buckets, s.heap, s.bucketOf, s.hashed, s.threads[t].key);
  }

  lemma TopMoves(s: State, t: Tid, s': State)
    requires t in s.threads && s.threads[t].pc.AtTop? && !s.fault
    requires t in s'.threads && s' == s.(heap := s'.heap, threads := s.threads[t := s.threads[t].(pc := s'.threads[t].pc)])
    requires Quiet(s, s') && s'.heap.Keys == s.heap.Keys && ThreadOk(s', s'.threads[t])
    requires Attaching(s'.threads[t].pc).None? && Holding(s'.threads[t].pc).None? && !s'.threads[t].pc.Leaving?
    ensures Moves(s, s', t) && OwnersSame(s, s', t)
  {
  }

  lemma InsertOwners(s: State, s': State, t: Tid, n: Ref)
    requires OwnersOk(s) && t in s.threads && s.threads[t].pc.AtTop? && s.threads[t].spare == Some(n)
    requires s'.threads == s.threads[t := s.threads[t].(pc := Creating(n))]
    requires s'.heap.Keys == s.heap.Keys && s'.hashed == s.hashed + {n} && s'.leaked == s.leaked
    requires s'.allocs == s.allocs && s'.frees == s.frees
    ensures OwnersOk(s')
  {
    assert Unused(s.threads[t]) == Some(n);
    forall r | r in s'.heap ensures r in s'.hashed || r in s'.leaked || IsUnused(s', r) {
      if r !in s'.hashed && r !in s.leaked {
        var u :| u in s.threads && Unused(s.threads[u]) == Some(r);
        assert u in s'.threads && Unused(s'.threads[u]) == Some(r);
      }
    }
    assert |s'.heap| == |s'.heap.Keys| && |s.heap| == |s.heap.Keys|;
  }

  function Inserted(s: State, t: Tid, n: Ref): State
    requires t in s.threads
  {
    var th := s.threads[t];
    SetPc(s.(heap := s.heap[n := PfsNode(th.key, th.snode, None, true, false)],
             buckets := InsertHead(s.buckets, s.bucketOf(th.key), n),
             hashed := s.hashed + {n}), t, Creating(n))
  }

  lemma InsertCalm(s: State, t: Tid, n: Ref)
    requires t in s.threads && s.threads[t].pc.AtTop? && s.threads[t].spare == Some(n) && n !in s.hashed
    ensures var s' := Inserted(s, t, n);
            && Calm(s, s') && NodesGrow(s, s') && VnodesGrow(s, s') && CountsMove(s, s', t)
            && Others(s.threads, s'.threads, t) && AttachKept(s.threads, s'.threads, t)
            && ThreadOk(s', s'.threads[t])
  {
  }

  lemma InsertNodes(s: State, t: Tid, n: Ref)
    requires NodesOk(s) && t in s.threads && s.threads[t].pc.AtTop? && s.threads[t].spare == Some(n) && n !in s.hashed
    requires forall r :: r in s.hashed ==> s.heap[r].key != s.threads[t].key
    ensures NodesOk(Inserted(s, t, n))
  {
    var s' := Inserted(s, t, n);
    InsertCalm(s, t, n);
    forall m | m in s'.hashed ensures m in s'.heap && NodeOk(s', m) {
      if m == n {
        assert Attaching(s'.threads[t].pc) == Some(n);
      } else {
        CalmNode(s, s', t, m);
      }
    }
  }

  lemma InsertKeeps(s: State, t: Tid, n: Ref)
    requires Inv(s) && t in s.threads && s.threads[t].pc.AtTop? && s.threads[t].spare == Some(n)
    requires n in s.heap && n !in s.hashed
    requires forall r :: r in s.hashed ==> s.heap[r].key != s.threads[t].key
    ensures Inv(Inserted(s, t, n))
  {
    var th := s.threads[t];
    var s' := Inserted(s, t, n);
    InsertCalm(s, t, n);
    InsertKeepsTable(s.buckets, s.heap, s.bucketOf, s.hashed, n, PfsNode(th.key, th.snode, None, true, false));
    FrameThreads(s, s', t);
    InsertNodes(s, t, n);
    forall v | v in s'.vnodes ensures VnodeOk(s', v) && LiveOk(s', v) { CalmVnode(s, s', t, v); }
    InsertOwners(s, s', t, n);
    CountsKeep(s, s', t);
  }

  lemma TopFoundMoves(s: State, t: Tid, n: Ref)
    requires NodesOk(s) && t in s.threads && s.threads[t].pc.AtTop? && n in s.hashed && n in s.heap && !s.fault
    requires s.heap[n].key == s.threads[t].key
    ensures Moves(s, UseTarget(s, t, n), t) && OwnersSame(s, UseTarget(s, t, n), t)
  {
    TopFound(s, t, n);
    assert NodeOk(s, n);
    TopMoves(s, t, UseTarget(s, t, n));
  }

  lemma TopKeeps(s: State, t: Tid)
    requires Inv(s) && Enabled(s, Top(t))
    ensures Inv(Step(s, Top(t)))
  {
    var s' := Step(s, Top(t));
    var th := s.threads[t];
    TopEffect(s, t);
    match Search(s.heap, Chain(s.buckets, s.bucketOf(th.key)), th.key)
    case Some(n) =>
      TopFoundMoves(s, t, n);
      MovesKeeps(s, s', t);
    case None =>
      if th.spare.None? {
        TopMoves(s, t, s');
        MovesKeeps(s, s', t);
      } else {
        assert Unused(th) == th.spare;
        InsertKeeps(s, t, th.spare.value);
      }
  }

  // ---------- the end of an attach ----------

  lemma WakeRoles(threads: map<Tid, Thread>, n: Ref, t: Tid)
    requires t in threads
    ensures var w := Wake(threads, n)[t];
            && Attaching(w.pc) == Attaching(threads[t].pc) && Holding(w.pc) == Holding(threads[t].pc)
            && w.spare == threads[t].spare && Unused(w) == Unused(threads[t]) && w.pc != Asleep(n)
            && (w == threads[t] || w.pc.AtTop?)
  {
  }

  lemma WakeOwners(s: State, n: Ref)
    requires OwnersOk(s)
    ensures OwnersOk(s.(threads := Wake(s.threads, n)))
  {
    var s' := s.(threads := Wake(s.threads, n));
    forall t | t in s.threads
      ensures s'.threads[t].spare == s.threads[t].spare && Unused(s'.threads[t]) == Unused(s.threads[t])
    {
      WakeRoles(s.threads, n, t);
    }
    forall r | r in s'.heap ensures r in s'.hashed || r in s'.leaked || IsUnused(s', r) {
      if r !in s'.hashed && r !in s.leaked {
        var u :| u in s.threads && Unused(s.threads[u]) == Some(r);
        assert u in s'.threads && Unused(s'.threads[u]) == Some(r);
      }
    }
  }

  lemma WakeNode(s: State, n: Ref, m: Ref)
    requires m in s.heap && NodeOk(s, m)
    ensures NodeOk(s.(threads := Wake(s.threads, n)), m)
  {
    var s' := s.(threads := Wake(s.threads, n));
    if s.heap[m].attaching {
      var u :| u in s.threads && Attaching(s.threads[u].pc) == Some(m);
      WakeRoles(s.threads, n, u);
      assert u in s'.threads && Attaching(s'.threads[u].pc) == Some(m);
    }
  }

  lemma WakeVnode(s: State, n: Ref, v: VRef)
    requires v in s.vnodes && VnodeOk(s, v) && LiveOk(s, v)
    ensures VnodeOk(s.(threads := Wake(s.threads, n)), v) && LiveOk(s.(threads := Wake(s.threads, n)), v)
  {
    var s' := s.(threads := Wake(s.threads, n));
    if u :| u in s.threads && s.threads[u].pc.Created? && s.threads[u].pc.vnode == v {
      assert u in s'.threads && s'.threads[u].pc.Created? && s'.threads[u].pc.vnode == v;
    }
  }

  lemma WakeThreads(s: State, n: Ref)
    requires ThreadsOk(s)
    ensures ThreadsOk(s.(threads := Wake(s.threads, n)))
    ensures forall t :: t in s.threads ==> Wake(s.threads, n)[t].pc != Asleep(n)
  {
    var s' := s.(threads := Wake(s.threads, n));
    forall t | t in s'.threads ensures ThreadOk(s', s'.threads[t]) { assert ThreadOk(s, s.threads[t]); }
  }

  lemma WakeCounts(s: State, n: Ref)
    requires CountsOk(s)
    ensures CountsOk(s.(threads := Wake(s.threads, n)))
  {
    var s' := s.(threads := Wake(s.threads, n));
    forall v | v in s'.vnodes ensures Holders(s'.threads, v) == Holders(s.threads, v) {
      forall t | t in s.threads ensures Holding(s'.threads[t].pc) == Holding(s.threads[t].pc) { WakeRoles(s.threads, n, t); }
    }
  }

  /** Waking the sleepers of any node keeps the invariant. */
  lemma WakeKeeps(s: State, n: Ref)
    requires Inv(s)
    ensures Inv(s.(threads := Wake(s.threads, n)))
    ensures forall t :: t in s.threads ==> Wake(s.threads, n)[t].pc != Asleep(n)
  {
    var s' := s.(threads := Wake(s.threads, n));
    WakeThreads(s, n);
    WakeOwners(s, n);
    WakeCounts(s, n);
    forall m | m in s'.hashed ensures m in s'.heap && NodeOk(s', m) { WakeNode(s, n, m); }
    forall v | v in s'.vnodes ensures VnodeOk(s', v) && LiveOk(s', v) { WakeVnode(s, n, v); }
  }

  ghost predicate NoSleeper(s: State, n: Ref) {
    forall t :: t in s.threads ==> s.threads[t].pc != Asleep(n)
  }

  /** The state in which the attaching thread's segment has woken the sleepers it must wake. */
  function AfterWake(s: State, n: Ref): State
    requires n in s.heap
  {
    if s.heap[n].waiting then s.(threads := Wake(s.threads, n)) else s
  }

  lemma AfterWakeKeeps(s: State, n: Ref)
    requires Inv(s) && n in s.heap
    ensures Inv(AfterWake(s, n)) && NoSleeper(AfterWake(s, n), n)
    ensures forall t :: t in s.threads && !s.threads[t].pc.Asleep? ==>
              t in AfterWake(s, n).threads && AfterWake(s, n).threads[t] == s.threads[t]
  {
    if s.heap[n].waiting {
      WakeKeeps(s, n);
    } else {
      forall t | t in s.threads ensures s.threads[t].pc != Asleep(n) { assert ThreadOk(s, s.threads[t]); }
    }
  }

  /** The rest of a successful attach, once nobody sleeps on the node. */
  function Attached(s: State, t: Tid, n: Ref, v: VRef): State
    requires t in s.threads && n in s.heap && v in s.vnodes
  {
    SetPc(s.(heap := s.heap[n := s.heap[n].(attaching := false, waiting := false, vnode := Some(v))],
             vnodes := s.vnodes[v := s.vnodes[v].(fsrefs := s.vnodes[v].fsrefs + 1)]), t, Leaving(Found(n, v)))
  }

  lemma AttachOkEffect(s: State, t: Tid)
    requires Enabled(s, AttachOk(t)) && ThreadOk(s, s.threads[t])
    ensures var n, v := s.threads[t].pc.node, s.threads[t].pc.vnode;
            && n in s.heap && v in s.vnodes
            && t in AfterWake(s, n).threads && AfterWake(s, n).threads[t] == s.threads[t]
            && Step(s, AttachOk(t)) == Attached(AfterWake(s, n), t, n, v)
  {
  }

  /** Nobody but `t` has anything to do with the node it is attaching. */
  lemma AttachAlone(s: State, t: Tid, u: Tid)
    requires ThreadsOk(s) && OwnersOk(s) && t in s.threads && u in s.threads && u != t && Attaching(s.threads[t].pc).Some?
    ensures Attaching(s.threads[u].pc) != Attaching(s.threads[t].pc) && s.threads[u].spare != Attaching(s.threads[t].pc)
  {
    assert ThreadOk(s, s.threads[t]) && ThreadOk(s, s.threads[u]);
  }

  lemma AttachedThread(s: State, t: Tid, n: Ref, v: VRef, u: Tid)
    requires ThreadsOk(s) && OwnersOk(s) && t in s.threads && s.threads[t].pc == Created(n, v) && NoSleeper(s, n)
    requires u in s.threads
    requires n in s.heap && v in s.vnodes
    ensures ThreadOk(Attached(s, t, n, v), Attached(s, t, n, v).threads[u])
  {
    assert ThreadOk(s, s.threads[t]) && ThreadOk(s, s.threads[u]);
    if u != t { AttachAlone(s, t, u); }
  }

  lemma AttachedNodes(s: State, t: Tid, n: Ref, v: VRef)
    requires t in s.threads && ThreadOk(s, s.threads[t]) && NodesOk(s) && s.threads[t].pc == Created(n, v)
    requires n in s.heap && v in s.vnodes
    ensures NodesOk(Attached(s, t, n, v))
  {
    var s' := Attached(s, t, n, v);
    forall m | m in s'.hashed ensures m in s'.heap && NodeOk(s', m) {
      assert NodeOk(s, m);
      if m != n && s.heap[m].attaching {
        var u :| u in s.threads && Attaching(s.threads[u].pc) == Some(m);
        assert u in s'.threads && Attaching(s'.threads[u].pc) == Some(m);
      }
    }
  }

  lemma AttachedVnodes(s: State, t: Tid, n: Ref, v: VRef)
    requires t in s.threads && ThreadOk(s, s.threads[t]) && VnodesOk(s) && s.threads[t].pc == Created(n, v)
    requires n in s.heap && v in s.vnodes
    ensures VnodesOk(Attached(s, t, n, v))
  {
    var s' := Attached(s, t, n, v);
    forall w | w in s'.vnodes ensures VnodeOk(s', w) && LiveOk(s', w) {
      assert VnodeOk(s, w) && LiveOk(s, w);
      if w != v {
        if u :| u in s.threads && s.threads[u].pc.Created? && s.threads[u].pc.vnode == w {
          assert u in s'.threads && s'.threads[u].pc.Created? && s'.threads[u].pc.vnode == w;
        }
      }
    }
  }

  lemma AttachedMoves(s: State, t: Tid, n: Ref, v: VRef)
    requires t in s.threads && ThreadOk(s, s.threads[t]) && s.threads[t].pc == Created(n, v)
    requires n in s.heap && v in s.vnodes
    ensures var s' := Attached(s, t, n, v);
            OwnersSame(s, s', t) && CountsMove(s, s', t) && Others(s.threads, s'.threads, t)
  {
  }

  lemma AttachedKeeps(s: State, t: Tid, n: Ref, v: VRef)
    requires Inv(s) && t in s.threads && s.threads[t].pc == Created(n, v) && NoSleeper(s, n)
    requires n in s.heap && v in s.vnodes
    ensures Inv(Attached(s, t, n, v))
  {
    var s' := Attached(s, t, n, v);
    assert ThreadOk(s, s.threads[t]);
    forall u | u in s'.threads ensures ThreadOk(s', s'.threads[u]) { AttachedThread(s, t, n, v, u); }
    AttachedNodes(s, t, n, v);
    AttachedVnodes(s, t, n, v);
    KeysKeepTable(s.buckets, s.heap, s'.heap, s.bucketOf, s.hashed);
    AttachedMoves(s, t, n, v);
    OwnersKeep(s, s', t);
    CountsKeep(s, s', t);
  }

  lemma AttachOkKeeps(s: State, t: Tid)
    requires Inv(s) && Enabled(s, AttachOk(t))
    ensures Inv(Step(s, AttachOk(t)))
  {
    var n, v := s.threads[t].pc.node, s.threads[t].pc.vnode;
    AttachOkEffect(s, t);
    AfterWakeKeeps(s, n);
    AttachedKeeps(AfterWake(s, n), t, n, v);
  }

  // ---------- removal of a node ----------

  /** `t`, if it exists, gives up its claim on `n`, which leaves the table and the heap. */
  ghost predicate Removes(s: State, s': State, n: Ref, t: Tid) {
    && n in s.heap && n in s.hashed
    && s'.heap == s.heap - {n} && s'.hashed == s.hashed - {n} && s'.frees == s.frees + 1
    && s'.allocs == s.allocs && s'.leaked == s.leaked && Others(s.threads, s'.threads, t)
  }

  /** No thread other than `t` refers to `n`. */
  ghost predicate OnlyFor(s: State, n: Ref, t: Tid) {
    forall u :: u in s.threads && u != t ==>
      && s.threads[u].spare != Some(n) && s.threads[u].pc != Asleep(n) && Attaching(s.threads[u].pc) != Some(n)
  }

  lemma RemovesCover(s: State, s': State, n: Ref, t: Tid, r: Ref)
    requires Removes(s, s', n, t) && r in s'.heap && (r in s.hashed || r in s.leaked || IsUnused(s, r))
    requires t in s.threads ==> Unused(s.threads[t]).None?
    ensures r in s'.hashed || r in s'.leaked || IsUnused(s', r)
  {
    if r !in s.hashed && r !in s.leaked {
      var u :| u in s.threads && Unused(s.threads[u]) == Some(r);
      assert u in s'.threads && Unused(s'.threads[u]) == Some(r);
    }
  }

  lemma RemovesCovers(s: State, s': State, n: Ref, t: Tid)
    requires CoverOk(s) && Removes(s, s', n, t)
    requires t in s.threads ==> Unused(s.threads[t]).None?
    ensures CoverOk(s')
  {
    forall r | r in s'.heap ensures r in s'.hashed || r in s'.leaked || IsUnused(s', r) {
      RemovesCover(s, s', n, t, r);
    }
    SmallerHeap(s.heap, n);
  }

  lemma RemovesSpares(s: State, s': State, n: Ref, t: Tid)
    requires SparesOk(s) && Removes(s, s', n, t) && OnlyFor(s, n, t)
    requires t in s'.threads ==> s'.threads[t].spare.None?
    ensures SparesOk(s')
  {
    forall u | u in s'.threads && s'.threads[u].spare.Some?
      ensures u in s.threads && s'.threads[u] == s.threads[u] && s.threads[u].spare != Some(n)
    {
    }
  }

  lemma RemovesOwners(s: State, s': State, n: Ref, t: Tid)
    requires OwnersOk(s) && Removes(s, s', n, t) && OnlyFor(s, n, t)
    requires t in s.threads ==> Unused(s.threads[t]).None?
    requires t in s'.threads ==> s'.threads[t].spare.None?
    ensures OwnersOk(s')
  {
    RemovesCovers(s, s', n, t);
    RemovesSpares(s, s', n, t);
  }

  lemma RemovesNode(s: State, s': State, n: Ref, t: Tid, m: Ref)
    requires Removes(s, s', n, t) && m in s.hashed && m != n && m in s.heap && NodeOk(s, m)
    requires t in s.threads ==> Attaching(s.threads[t].pc) != Some(m)
    requires s.heap[m].vnode.Some? && s.heap[m].vnode.value in s.vnodes ==>
               s.heap[m].vnode.value in s'.vnodes && s'.vnodes[s.heap[m].vnode.value] == s.vnodes[s.heap[m].vnode.value]
    ensures m in s'.heap && NodeOk(s', m)
  {
    if s.heap[m].attaching {
      var u :| u in s.threads && Attaching(s.threads[u].pc) == Some(m);
      assert u in s'.threads && Attaching(s'.threads[u].pc) == Some(m);
    }
  }

  // ---------- a failed attach ----------

  function Detached(s: State, t: Tid, n: Ref, e: int): State
    requires t in s.threads
  {
    s.(heap := s.heap - {n}, hashed := s.hashed - {n}, buckets := Unlink(s.buckets, n), frees := s.frees + 1,
       threads := s.threads[t := s.threads[t].(spare := None, pc := Leaving(Failed(e)))])
  }

  lemma AttachErrEffect(s: State, t: Tid)
    requires Enabled(s, AttachErr(t)) && ThreadOk(s, s.threads[t])
    ensures var n, e := s.threads[t].pc.node, s.threads[t].pc.errno;
            && n in s.heap && n in s.hashed
            && t in AfterWake(s, n).threads && AfterWake(s, n).threads[t] == s.threads[t]
            && Step(s, AttachErr(t)) == Detached(AfterWake(s, n), t, n, e)
  {
    var n := s.threads[t].pc.node;
    var node := s.heap[n].(attaching := false, waiting := false);
    assert s.heap[n := node] - {n} == s.heap - {n};
  }

  lemma DetachedThread(s: State, t: Tid, n: Ref, e: int, u: Tid)
    requires u in s.threads && ThreadOk(s, s.threads[u]) && u != t && t in s.threads
    requires n in s.heap && s.heap[n].vnode.None? && OnlyFor(s, n, t)
    ensures ThreadOk(Detached(s, t, n, e), s.threads[u])
  {
  }

  lemma DetachedVnodes(s: State, t: Tid, n: Ref, e: int)
    requires VnodesOk(s) && t in s.threads && s.threads[t].pc.CreateFailed? && n in s.heap && s.heap[n].vnode.None?
    ensures VnodesOk(Detached(s, t, n, e))
  {
    var s' := Detached(s, t, n, e);
    forall w | w in s'.vnodes ensures VnodeOk(s', w) && LiveOk(s', w) {
      assert VnodeOk(s, w) && LiveOk(s, w);
      if u :| u in s.threads && s.threads[u].pc.Created? && s.threads[u].pc.vnode == w {
        assert u in s'.threads && s'.threads[u].pc.Created? && s'.threads[u].pc.vnode == w;
      }
    }
  }

  lemma DetachedMoves(s: State, t: Tid, n: Ref, e: int)
    requires t in s.threads && s.threads[t].pc == CreateFailed(n, e) && ThreadOk(s, s.threads[t])
    ensures var s' := Detached(s, t, n, e);
            && Removes(s, s', n, t) && CountsMove(s, s', t) && s.heap[n].vnode.None? && Unused(s.threads[t]).None?
            && s'.threads[t].spare.None?
  {
  }

  lemma DetachedAlone(s: State, t: Tid, n: Ref, e: int)
    requires ThreadsOk(s) && OwnersOk(s) && t in s.threads && s.threads[t].pc == CreateFailed(n, e) && NoSleeper(s, n)
    ensures OnlyFor(s, n, t)
  {
    assert ThreadOk(s, s.threads[t]);
    forall u | u in s.threads && u != t
      ensures s.threads[u].spare != Some(n) && s.threads[u].pc != Asleep(n) && Attaching(s.threads[u].pc) != Some(n)
    {
      AttachAlone(s, t, u);
    }
  }

  lemma DetachedThreads(s: State, t: Tid, n: Ref, e: int)
    requires ThreadsOk(s) && OwnersOk(s) && t in s.threads && s.threads[t].pc == CreateFailed(n, e) && NoSleeper(s, n)
    ensures ThreadsOk(Detached(s, t, n, e))
  {
    var s' := Detached(s, t, n, e);
    DetachedAlone(s, t, n, e);
    DetachedMoves(s, t, n, e);
    forall u | u in s'.threads ensures ThreadOk(s', s'.threads[u]) {
      if u != t { DetachedThread(s, t, n, e, u); }
    }
  }

  lemma DetachedNodes(s: State, t: Tid, n: Ref, e: int)
    requires ThreadsOk(s) && OwnersOk(s) && t in s.threads && s.threads[t].pc == CreateFailed(n, e) && NoSleeper(s, n)
    requires NodesOk(s)
    ensures NodesOk(Detached(s, t, n, e))
  {
    var s' := Detached(s, t, n, e);
    DetachedAlone(s, t, n, e);
    DetachedMoves(s, t, n, e);
    forall m | m in s'.hashed ensures m in s'.heap && NodeOk(s', m) { RemovesNode(s, s', n, t, m); }
  }

  lemma DetachedKeeps(s: State, t: Tid, n: Ref, e: int)
    requires Inv(s) && t in s.threads && s.threads[t].pc == CreateFailed(n, e) && NoSleeper(s, n)
    ensures Inv(Detached(s, t, n, e))
  {
    var s' := Detached(s, t, n, e);
    DetachedAlone(s, t, n, e);
    DetachedMoves(s, t, n, e);
    UnlinkKeepsTable(s.buckets, s.heap, s.bucketOf, s.hashed, n);
    DetachedThreads(s, t, n, e);
    DetachedNodes(s, t, n, e);
    DetachedVnodes(s, t, n, e);
    RemovesOwners(s, s', n, t);
    CountsKeep(s, s', t);
  }

  lemma AttachErrKeeps(s: State, t: Tid)
    requires Inv(s) && Enabled(s, AttachErr(t))
    ensures Inv(Step(s, AttachErr(t)))
  {
    var n, e := s.threads[t].pc.node, s.threads[t].pc.errno;
    AttachErrEffect(s, t);
    AfterWakeKeeps(s, n);
    DetachedKeeps(AfterWake(s, n), t, n, e);
  }

  // ---------- procfs_vnop_reclaim ----------

  lemma ReclaimFreeEffect(s: State, v: VRef)
    requires Enabled(s, ReclaimFree(v)) && VnodeOk(s, v)
    ensures s.vnodes[v].fsnode.Some?
    ensures var n := s.vnodes[v].fsnode.value;
            && n in s.heap && n in s.hashed && s.heap[n].vnode == Some(v)
            && Step(s, ReclaimFree(v)) == s.(heap := s.heap - {n}, hashed := s.hashed - {n}, frees := s.frees + 1,
                 buckets := Unlink(s.buckets, n), vnodes := s.vnodes[v := s.vnodes[v].(phase := Reclaimed)])
  {
  }

  lemma ReclaimFreeAlone(s: State, v: VRef, n: Ref, t: Tid)
    requires ThreadsOk(s) && NodesOk(s) && OwnersOk(s) && Enabled(s, ReclaimFree(v))
    requires n in s.hashed && n in s.heap && s.heap[n].vnode == Some(v) && t in s.threads
    ensures s.threads[t].spare != Some(n) && s.threads[t].pc != Asleep(n) && Attaching(s.threads[t].pc) != Some(n)
  {
    assert ThreadOk(s, s.threads[t]) && NodeOk(s, n);
  }

  lemma ReclaimFreeThread(s: State, v: VRef, n: Ref, t: Tid)
    requires t in s.threads && ThreadOk(s, s.threads[t]) && Enabled(s, ReclaimFree(v)) && VnodeOk(s, v)
    requires s.vnodes[v].fsnode == Some(n) && s.threads[t].pc != Asleep(n) && Attaching(s.threads[t].pc) != Some(n)
    ensures ThreadOk(Step(s, ReclaimFree(v)), s.threads[t])
  {
    ReclaimFreeEffect(s, v);
  }

  lemma ReclaimFreeVnodes(s: State, v: VRef)
    requires VnodesOk(s) && Enabled(s, ReclaimFree(v))
    ensures VnodesOk(Step(s, ReclaimFree(v)))
  {
    var s' := Step(s, ReclaimFree(v));
    assert VnodeOk(s, v);
    ReclaimFreeEffect(s, v);
    forall w | w in s'.vnodes ensures VnodeOk(s', w) && LiveOk(s', w) {
      assert VnodeOk(s, w) && LiveOk(s, w);
      if u :| u in s.threads && s.threads[u].pc.Created? && s.threads[u].pc.vnode == w {
        assert u in s'.threads && s'.threads[u].pc.Created? && s'.threads[u].pc.vnode == w;
      }
    }
  }

  lemma ReclaimFreeRemoves(s: State, v: VRef, n: Ref, t: Tid)
    requires ThreadsOk(s) && NodesOk(s) && OwnersOk(s) && Enabled(s, ReclaimFree(v)) && VnodeOk(s, v)
    requires s.vnodes[v].fsnode == Some(n) && t !in s.threads
    ensures OnlyFor(s, n, t) && Removes(s, Step(s, ReclaimFree(v)), n, t)
  {
    ReclaimFreeEffect(s, v);
    forall u | u in s.threads
      ensures s.threads[u].spare != Some(n) && s.threads[u].pc != Asleep(n) && Attaching(s.threads[u].pc) != Some(n)
    {
      ReclaimFreeAlone(s, v, n, u);
    }
  }

  lemma ReclaimFreeThreads(s: State, v: VRef, n: Ref, t: Tid)
    requires ThreadsOk(s) && Enabled(s, ReclaimFree(v)) && VnodeOk(s, v)
    requires s.vnodes[v].fsnode == Some(n) && t !in s.threads && OnlyFor(s, n, t)
    ensures ThreadsOk(Step(s, ReclaimFree(v)))
  {
    var s' := Step(s, ReclaimFree(v));
    ReclaimFreeEffect(s, v);
    forall u | u in s'.threads ensures ThreadOk(s', s'.threads[u]) { ReclaimFreeThread(s, v, n, u); }
  }

  lemma ReclaimFreeNodes(s: State, v: VRef, n: Ref, t: Tid)
    requires NodesOk(s) && Enabled(s, ReclaimFree(v)) && VnodeOk(s, v)
    requires s.vnodes[v].fsnode == Some(n) && t !in s.threads && Removes(s, Step(s, ReclaimFree(v)), n, t)
    ensures NodesOk(Step(s, ReclaimFree(v)))
  {
    var s' := Step(s, ReclaimFree(v));
    ReclaimFreeEffect(s, v);
    forall m | m in s'.hashed ensures m in s'.heap && NodeOk(s', m) {
      assert NodeOk(s, m);
      RemovesNode(s, s', n, t, m);
    }
  }

  lemma ReclaimFreeKeeps(s: State, v: VRef)
    requires Inv(s) && Enabled(s, ReclaimFree(v))
    ensures Inv(Step(s, ReclaimFree(v)))
  {
    var s' := Step(s, ReclaimFree(v));
    var t := UnusedTid(s.threads.Keys);
    assert VnodeOk(s, v);
    ReclaimFreeEffect(s, v);
    var n := s.vnodes[v].fsnode.value;
    ReclaimFreeRemoves(s, v, n, t);
    UnlinkKeepsTable(s.buckets, s.heap, s.bucketOf, s.hashed, n);
    ReclaimFreeThreads(s, v, n, t);
    ReclaimFreeNodes(s, v, n, t);
    ReclaimFreeVnodes(s, v);
    RemovesOwners(s, s', n, t);
    CountsKeep(s, s', t);
  }
}
