/**
 The pfsnode/vnode cache as a step system: any number of threads inside `procfsnode_find`,
 vnode reclaim, and other holders of vnode references, interleaved in any order.

 Every step is one segment that the code runs without giving up the hash mutex, or one
 action outside it.  The kernel interfaces appear as follows.
 - `OSMalloc` returns any address that is not live, so addresses are reused, or fails.
 - `vnode_create` hands out a vnode that is new or has been fully reclaimed, with one iocount.
 - `vnode_getwithvid` succeeds exactly when the vnode is live and still has the given vid.
 - Reclaim starts only at iocount 0.  It marks the vnode terminating, then runs
   `procfs_vnop_reclaim`, then gives the vnode a new vid and makes it available again.
 - `wakeup` makes every thread asleep on the address runnable; a sleeper may also run without one.
 */
module NodeCache {
  import opened Options
  import opened NodeHash

  type VRef = nat
  type Tid = nat

  datatype Phase = Idle | Live | Terminating | Reclaimed

  /** `external` counts the iocounts that belong to nobody inside or returned from a find. */
  datatype Vnode = Vnode(vid: nat, iocount: nat, external: nat, fsrefs: nat, phase: Phase, fsnode: Option<Ref>)

  datatype Result = Found(node: Ref, vnode: VRef) | Failed(errno: int)

  /** Where a thread stands in `procfsnode_find`. */
  datatype Pc =
    | AtTop                                        // about to lock and run the loop body
    | Allocating                                   // unlocked, in OSMalloc
    | Asleep(node: Ref)                            // in msleep on the node
    | Getting(node: Ref, vnode: VRef, vid: nat)    // unlocked, about to call vnode_getwithvid
    | Creating(node: Ref)                          // unlocked, in the create callback
    | Created(node: Ref, vnode: VRef)              // callback succeeded, about to relock
    | CreateFailed(node: Ref, errno: int)          // callback failed, about to relock
    | Leaving(result: Result)                      // loop left, unlocked, spare not yet freed
    | Returned(result: Result)

  /** `spare` is the local variable `new_pfsnode`. */
  datatype Thread = Thread(key: Key, snode: nat, spare: Option<Ref>, pc: Pc)

  /**
   `hashed`, `leaked`, `allocs`, `frees` and `fault` are bookkeeping: the addresses on the hash
   lists, the allocations whose only pointer was overwritten, the numbers of allocations and
   frees, and whether anything dead was dereferenced, unlinked or freed.
   */
  datatype State = State(
    bucketOf: Key -> nat,
    buckets: Buckets,
    heap: Heap,
    hashed: set<Ref>,
    vnodes: map<VRef, Vnode>,
    threads: map<Tid, Thread>,
    leaked: set<Ref>,
    allocs: nat,
    frees: nat,
    fault: bool)

  datatype Action =
    | Call(t: Tid, key: Key, snode: nat)
    | Top(t: Tid)
    | Stir(t: Tid)
    | AllocOk(t: Tid, r: Ref, garbage: PfsNode)
    | AllocFail(t: Tid)
    | CreateOk(t: Tid, v: VRef)
    | CreateErr(t: Tid, errno: int)
    | AttachOk(t: Tid)
    | AttachErr(t: Tid)
    | GetOk(t: Tid)
    | GetErr(t: Tid)
    | Leave(t: Tid)
    | Put(t: Tid)
    | OtherGet(v: VRef)
    | OtherPut(v: VRef)
    | ReclaimStart(v: VRef, bump: nat)
    | ReclaimFree(v: VRef)
    | ReclaimEnd(v: VRef)

  const ENOMEM := 12

  // ---------- building blocks ----------

  function SetPc(s: State, t: Tid, pc: Pc): State
    requires t in s.threads
  {
    s.(threads := s.threads[t := s.threads[t].(pc := pc)])
  }

  /** `OSFree`; freeing a dead address is a fault. */
  function Free(s: State, r: Ref): State {
    if r in s.heap then s.(heap := s.heap - {r}, frees := s.frees + 1) else s.(fault := true)
  }

  /** `procfsnode_free_node` */
  function FreeNode(s: State, r: Ref): State {
    if r in s.heap && r in s.hashed then
      Free(s.(buckets := Unlink(s.buckets, r), hashed := s.hashed - {r}), r)
    else s.(fault := true)
  }

  function Wake(threads: map<Tid, Thread>, n: Ref): map<Tid, Thread> {
    map t | t in threads :: if threads[t].pc == Asleep(n) then threads[t].(pc := AtTop) else threads[t]
  }

  // ---------- the segments of procfsnode_find ----------

  /** What the loop body does once `target_pfsnode` is known (lines 165 to 215). */
  function UseTarget(s: State, t: Tid, n: Ref): State
    requires t in s.threads
  {
    if n !in s.heap then s.(fault := true)
    else if s.heap[n].attaching then
      SetPc(s.(heap := s.heap[n := s.heap[n].(waiting := true)]), t, Asleep(n))
    else if s.heap[n].vnode.Some? then
      var v := s.heap[n].vnode.value;
      if v !in s.vnodes then s.(fault := true)
      else SetPc(s, t, Getting(n, v, s.vnodes[v].vid))
    else
      SetPc(s.(heap := s.heap[n := s.heap[n].(attaching := true)]), t, Creating(n))
  }

  /** From taking the mutex at the head of the loop to releasing it. */
  function TopSegment(s: State, t: Tid): State
    requires t in s.threads
  {
    var th := s.threads[t];
    var b := s.bucketOf(th.key);
    if exists r :: r in Chain(s.buckets, b) && r !in s.heap then s.(fault := true)
    else match Search(s.heap, Chain(s.buckets, b), th.key)
      case Some(n) => UseTarget(s, t, n)
      case None =>
        if th.spare.None? then SetPc(s, t, Allocating)
        else
          var n := th.spare.value;
          var node := PfsNode(th.key, th.snode, None, false, false);
          UseTarget(s.(heap := s.heap[n := node], buckets := InsertHead(s.buckets, b, n), hashed := s.hashed + {n}), t, n)
  }

  /** Lines 222 to 231: relock, clear the attaching flag, wake the sleepers. */
  function EndAttach(s: State, n: Ref): State {
    if n !in s.heap then s.(fault := true)
    else
      var s1 := s.(heap := s.heap[n := s.heap[n].(attaching := false, waiting := false)]);
      if s.heap[n].waiting then s1.(threads := Wake(s1.threads, n)) else s1
  }

  function AttachOkSegment(s: State, t: Tid): State
    requires t in s.threads && s.threads[t].pc.Created?
  {
    var n, v := s.threads[t].pc.node, s.threads[t].pc.vnode;
    if n !in s.heap || v !in s.vnodes then s.(fault := true)
    else
      var s1 := EndAttach(s, n);
      var s2 := s1.(heap := s1.heap[n := s1.heap[n].(vnode := Some(v))],
                    vnodes := s1.vnodes[v := s1.vnodes[v].(fsrefs := s1.vnodes[v].fsrefs + 1)]);
      SetPc(s2, t, Leaving(Found(n, v)))
  }

  function AttachErrSegment(s: State, t: Tid): State
    requires t in s.threads && s.threads[t].pc.CreateFailed?
  {
    var n, e := s.threads[t].pc.node, s.threads[t].pc.errno;
    if n !in s.heap then s.(fault := true)
    else
      var s1 := FreeNode(EndAttach(s, n), n);
      s1.(threads := s1.threads[t := s1.threads[t].(spare := None, pc := Leaving(Failed(e)))])
  }

  /** Lines 192 to 196: `new_pfsnode` is overwritten whether or not it holds an allocation. */
  function GetErrSegment(s: State, t: Tid): State
    requires t in s.threads && s.threads[t].pc.Getting?
  {
    var th := s.threads[t];
    s.(threads := s.threads[t := th.(spare := None, pc := AtTop)],
       leaked := if th.spare.Some? then s.leaked + {th.spare.value} else s.leaked)
  }

  /** Lines 265 to 277: the spare is freed unless it is the node being returned. */
  function LeaveSegment(s: State, t: Tid): State
    requires t in s.threads && s.threads[t].pc.Leaving?
  {
    var th := s.threads[t];
    var s1 := if th.spare.Some? && !(th.pc.result.Found? && th.pc.result.node == th.spare.value)
              then Free(s, th.spare.value) else s;
    s1.(threads := s1.threads[t := th.(spare := None, pc := Returned(th.pc.result))])
  }

  // ---------- the system ----------

  predicate Enabled(s: State, a: Action) {
    match a
    case Call(t, _, _) => t !in s.threads
    case Top(t) => t in s.threads && s.threads[t].pc.AtTop?
    case Stir(t) => t in s.threads && s.threads[t].pc.Asleep?
    case AllocOk(t, r, _) => t in s.threads && s.threads[t].pc.Allocating? && r !in s.heap
    case AllocFail(t) => t in s.threads && s.threads[t].pc.Allocating?
    case CreateOk(t, v) =>
      t in s.threads && s.threads[t].pc.Creating? && (v in s.vnodes ==> s.vnodes[v].phase.Idle?)
    case CreateErr(t, e) => t in s.threads && s.threads[t].pc.Creating? && e != 0
    case AttachOk(t) => t in s.threads && s.threads[t].pc.Created?
    case AttachErr(t) => t in s.threads && s.threads[t].pc.CreateFailed?
    case GetOk(t) => t in s.threads && s.threads[t].pc.Getting? && GetSucceeds(s, s.threads[t].pc)
    case GetErr(t) => t in s.threads && s.threads[t].pc.Getting? && !GetSucceeds(s, s.threads[t].pc)
    case Leave(t) => t in s.threads && s.threads[t].pc.Leaving?
    case Put(t) => t in s.threads && s.threads[t].pc.Returned?
    case OtherGet(v) => v in s.vnodes && s.vnodes[v].phase.Live?
    case OtherPut(v) => v in s.vnodes && s.vnodes[v].external > 0
    case ReclaimStart(v, _) => v in s.vnodes && s.vnodes[v].phase.Live? && s.vnodes[v].iocount == 0
    case ReclaimFree(v) => v in s.vnodes && s.vnodes[v].phase.Terminating?
    case ReclaimEnd(v) => v in s.vnodes && s.vnodes[v].phase.Reclaimed?
  }

  /** `vnode_getwithvid` */
  predicate GetSucceeds(s: State, pc: Pc)
    requires pc.Getting?
  {
    pc.vnode in s.vnodes && s.vnodes[pc.vnode].phase.Live? && s.vnodes[pc.vnode].vid == pc.vid
  }

  function Step(s: State, a: Action): State
    requires Enabled(s, a)
  {
    match a
    case Call(t, key, snode) => s.(threads := s.threads[t := Thread(key, snode, None, AtTop)])
    case Top(t) => TopSegment(s, t)
    case Stir(t) => SetPc(s, t, AtTop)
    case AllocOk(t, r, garbage) =>
      s.(heap := s.heap[r := garbage], allocs := s.allocs + 1,
         threads := s.threads[t := s.threads[t].(spare := Some(r), pc := AtTop)])
    case AllocFail(t) => SetPc(s, t, Leaving(Failed(ENOMEM)))
    case CreateOk(t, v) =>
      var n := s.threads[t].pc.node;
      var vid := if v in s.vnodes then s.vnodes[v].vid else 0;
      SetPc(s.(vnodes := s.vnodes[v := Vnode(vid, 1, 0, 0, Live, Some(n))]), t, Created(n, v))
    case CreateErr(t, e) => SetPc(s, t, CreateFailed(s.threads[t].pc.node, e))
    case AttachOk(t) => AttachOkSegment(s, t)
    case AttachErr(t) => AttachErrSegment(s, t)
    case GetOk(t) =>
      var n, v := s.threads[t].pc.node, s.threads[t].pc.vnode;
      SetPc(s.(vnodes := s.vnodes[v := s.vnodes[v].(iocount := s.vnodes[v].iocount + 1)]), t, Leaving(Found(n, v)))
    case GetErr(t) => GetErrSegment(s, t)
    case Leave(t) => LeaveSegment(s, t)
    case Put(t) => PutSegment(s, t)
    case OtherGet(v) =>
      var vn := s.vnodes[v];
      s.(vnodes := s.vnodes[v := vn.(iocount := vn.iocount + 1, external := vn.external + 1)])
    case OtherPut(v) =>
      var vn := s.vnodes[v];
      if vn.iocount == 0 then s.(fault := true)
      else s.(vnodes := s.vnodes[v := vn.(iocount := vn.iocount - 1, external := vn.external - 1)])
    case ReclaimStart(v, bump) =>
      s.(vnodes := s.vnodes[v := s.vnodes[v].(phase := Terminating, vid := s.vnodes[v].vid + bump)])
    case ReclaimFree(v) =>
      var s1 := if s.vnodes[v].fsnode.Some? then FreeNode(s, s.vnodes[v].fsnode.value) else s;
      s1.(vnodes := s.vnodes[v := s.vnodes[v].(phase := Reclaimed)])
    case ReclaimEnd(v) =>
      var vn := s.vnodes[v];
      if vn.fsrefs == 0 then s.(fault := true)
      else s.(vnodes := s.vnodes[v := vn.(phase := Idle, vid := vn.vid + 1, fsrefs := vn.fsrefs - 1, fsnode := None)])
  }

  /** The caller drops the iocount it was given and goes away. */
  function PutSegment(s: State, t: Tid): State
    requires t in s.threads && s.threads[t].pc.Returned?
  {
    var s1 := s.(threads := s.threads - {t});
    match s.threads[t].pc.result
    case Failed(_) => s1
    case Found(_, v) =>
      if v !in s.vnodes || s.vnodes[v].iocount == 0 then s1.(fault := true)
      else s1.(vnodes := s.vnodes[v := s.vnodes[v].(iocount := s.vnodes[v].iocount - 1)])
  }

  predicate Init(s: State) {
    && s.buckets == map[] && s.heap == map[] && s.hashed == {} && s.vnodes == map[] && s.threads == map[]
    && s.leaked == {} && s.allocs == 0 && s.frees == 0 && !s.fault
  }

  /** `s'` is the state after performing `run` from `s`, every action being enabled when it is taken. */
  ghost predicate Runs(s: State, run: seq<Action>, s': State)
    decreases |run|
  {
    if run == [] then s' == s
    else Enabled(s, run[0]) && Runs(Step(s, run[0]), run[1..], s')
  }

  // ---------- the invariant ----------

  /** The node a thread is attaching a vnode to, if any. */
  function Attaching(pc: Pc): Option<Ref> {
    match pc
    case Creating(n) => Some(n)
    case Created(n, _) => Some(n)
    case CreateFailed(n, _) => Some(n)
    case _ => None
  }

  /** The vnode on which a thread, or the caller it returned to, has an iocount. */
  function Holding(pc: Pc): Option<VRef> {
    match pc
    case Created(_, v) => Some(v)
    case Leaving(Found(_, v)) => Some(v)
    case Returned(Found(_, v)) => Some(v)
    case _ => None
  }

  /** The allocation a thread still has to use or free. */
  function Unused(th: Thread): Option<Ref> {
    if th.spare.None? then None
    else if Attaching(th.pc) == th.spare then None
    else if th.pc.Leaving? && th.pc.result.Found? && th.pc.result.node == th.spare.value then None
    else th.spare
  }

  /** Node `n` is hashed under key `k` and paired with the vnode `v`. */
  predicate Paired(s: State, k: Key, n: Ref, v: VRef) {
    && n in s.hashed && n in s.heap && s.heap[n].key == k && s.heap[n].vnode == Some(v)
    && v in s.vnodes && s.vnodes[v].fsnode == Some(n)
  }

  predicate AttachOk?(s: State, th: Thread, n: Ref) {
    && n in s.hashed && n in s.heap && s.heap[n].key == th.key
    && s.heap[n].attaching && s.heap[n].vnode.None? && th.spare == Some(n)
  }

  predicate ThreadOk(s: State, th: Thread) {
    match th.pc
    case AtTop => true
    case Allocating => th.spare.None?
    case Asleep(n) =>
      n in s.hashed && n in s.heap && s.heap[n].key == th.key && s.heap[n].attaching && s.heap[n].waiting
    case Getting(n, v, vid) =>
      && v in s.vnodes && vid <= s.vnodes[v].vid
      && (vid == s.vnodes[v].vid ==>
            && !s.vnodes[v].phase.Idle?
            && (!s.vnodes[v].phase.Reclaimed? ==> Paired(s, th.key, n, v)))
    case Creating(n) => AttachOk?(s, th, n)
    case CreateFailed(n, _) => AttachOk?(s, th, n)
    case Created(n, v) =>
      && AttachOk?(s, th, n)
      && v in s.vnodes && s.vnodes[v].phase.Live? && s.vnodes[v].fsnode == Some(n) && s.vnodes[v].fsrefs == 0
    case Leaving(Found(n, v)) => Paired(s, th.key, n, v) && s.vnodes[v].phase.Live?
    case Returned(Found(n, v)) => th.spare.None? && Paired(s, th.key, n, v) && s.vnodes[v].phase.Live?
    case Leaving(Failed(_)) => th.spare.None?
    case Returned(Failed(_)) => th.spare.None?
  }

  ghost predicate ThreadsOk(s: State) {
    forall t :: t in s.threads ==> ThreadOk(s, s.threads[t])
  }

  ghost predicate HasAttacher(s: State, n: Ref) {
    exists t :: t in s.threads && Attaching(s.threads[t].pc) == Some(n)
  }

  ghost predicate NodeOk(s: State, n: Ref)
    requires n in s.heap
  {
    var node := s.heap[n];
    if node.attaching then node.vnode.None? && HasAttacher(s, n)
    else
      && !node.waiting && node.vnode.Some? && Paired(s, node.key, n, node.vnode.value)
      && s.vnodes[node.vnode.value].phase in {Live, Terminating} && s.vnodes[node.vnode.value].fsrefs == 1
  }

  ghost predicate NodesOk(s: State) {
    && (forall n :: n in s.hashed ==> n in s.heap && NodeOk(s, n))
    && (forall m, n :: m in s.hashed && n in s.hashed && s.heap[m].key == s.heap[n].key ==> m == n)
  }

  ghost predicate VnodeOk(s: State, v: VRef)
    requires v in s.vnodes
  {
    var vn := s.vnodes[v];
    match vn.phase
    case Idle => vn.fsnode.None? && vn.fsrefs == 0 && vn.iocount == 0
    case Live => true
    case Terminating =>
      && vn.fsrefs == 1 && vn.iocount == 0 && vn.fsnode.Some? && vn.fsnode.value in s.heap
      && Paired(s, s.heap[vn.fsnode.value].key, vn.fsnode.value, v)
    case Reclaimed => vn.fsrefs == 1 && vn.iocount == 0
  }

  /** A live vnode is either linked from its node or still in the hands of the attaching thread. */
  ghost predicate LiveOk(s: State, v: VRef)
    requires v in s.vnodes
  {
    s.vnodes[v].phase.Live? ==>
      || (exists t :: t in s.threads && s.threads[t].pc.Created? && s.threads[t].pc.vnode == v)
      || (s.vnodes[v].fsrefs == 1 && s.vnodes[v].fsnode.Some? && s.vnodes[v].fsnode.value in s.heap
          && Paired(s, s.heap[s.vnodes[v].fsnode.value].key, s.vnodes[v].fsnode.value, v))
  }

  ghost predicate VnodesOk(s: State) {
    forall v :: v in s.vnodes ==> VnodeOk(s, v) && LiveOk(s, v)
  }

  ghost predicate IsUnused(s: State, r: Ref) {
    exists t :: t in s.threads && Unused(s.threads[t]) == Some(r)
  }

  /** Every live allocation is accounted for. */
  ghost predicate CoverOk(s: State) {
    && s.hashed <= s.heap.Keys && s.leaked <= s.heap.Keys && s.hashed !! s.leaked
    && (forall r :: r in s.heap ==> r in s.hashed || r in s.leaked || IsUnused(s, r))
    && |s.heap| + s.frees == s.allocs
  }

  /** No two threads have the same spare, and an unused spare is on no list. */
  ghost predicate SparesOk(s: State) {
    && (forall t :: t in s.threads && s.threads[t].spare.Some? ==>
          s.threads[t].spare.value in s.heap && s.threads[t].spare.value !in s.leaked)
    && (forall t :: t in s.threads && Unused(s.threads[t]).Some? ==> Unused(s.threads[t]).value !in s.hashed)
    && (forall t, u :: t in s.threads && u in s.threads && s.threads[t].spare.Some? ==>
          s.threads[t].spare == s.threads[u].spare ==> t == u)
  }

  ghost predicate OwnersOk(s: State) { CoverOk(s) && SparesOk(s) }

  ghost function Holders(threads: map<Tid, Thread>, v: VRef): set<Tid> {
    set t | t in threads && Holding(threads[t].pc) == Some(v)
  }

  ghost predicate CountsOk(s: State) {
    forall v :: v in s.vnodes ==> s.vnodes[v].iocount == s.vnodes[v].external + |Holders(s.threads, v)|
  }

  ghost predicate Inv(s: State) {
    && TableOk(s.buckets, s.heap, s.bucketOf, s.hashed)
    && ThreadsOk(s) && NodesOk(s) && VnodesOk(s) && OwnersOk(s) && CountsOk(s)
    && !s.fault
  }
}
