/** Looking up a name in a directory of the static tree, and the entries readdir shows for the same directory. */
module Lookup {
  import opened Options
  import opened Structure
  import opened Numbers
  import opened FileIds
  import T = SysctlTree

  // ---------- processes and access ----------

  const MAX_PID: nat := 99999
  const MAX_PROCS: nat := 1024

  type Pid = x: nat | x <= MAX_PID
  type Tid = x: nat | x < 0x1_0000_0000_0000_0000
  type Descriptor = x: nat | x < 0x8000_0000

  /** A process: its name, its threads (none if they cannot be enumerated), its descriptors and its user and group ids. */
  datatype Process =
    Process(comm: string, threads: Option<seq<Tid>>, fds: seq<Descriptor>, uid: nat, ruid: nat, gid: nat, rgid: nat)

  /**
   What stays fixed while a directory is read and its names are looked up: the processes; the caller, with `check` off
   for the superuser and for mounts without access checks; whether the list of pids can be allocated; and the sysctl
   tree, with the oid at each address.
   */
  datatype World = World(
    procs: map<Pid, Process>, check: bool, euid: nat, egid: nat, pidMemory: bool, sysctl: seq<T.Oid>, oids: map<nat, T.Oid>)

  predicate CanAccess(w: World, p: Process) {
    w.euid == p.uid || w.euid == p.ruid || w.egid == p.gid || w.egid == p.rgid
  }

  predicate Visible(w: World, pid: int) {
    pid in w.procs && (!w.check || CanAccess(w, w.procs[pid]))
  }

  /** A checked caller sees a process exactly when they own it, by effective or real user id, or share one of its groups. */
  lemma WhoSees(w: World, pid: Pid)
    requires pid in w.procs
    ensures var p := w.procs[pid];
            && (!w.check ==> Visible(w, pid))
            && (w.euid in {p.uid, p.ruid} ==> Visible(w, pid))
            && (w.egid in {p.gid, p.rgid} ==> Visible(w, pid))
            && (w.check && w.euid !in {p.uid, p.ruid} && w.egid !in {p.gid, p.rgid} ==> !Visible(w, pid))
  {
  }

  /** The visible processes below `n`, in order. */
  function Seen(w: World, n: nat): seq<nat> {
    if n == 0 then [] else Seen(w, n - 1) + (if Visible(w, n - 1) then [n - 1] else [])
  }

  /** The processes a listing shows: at most 1024, and none if the list cannot be allocated. */
  function Pids(w: World): seq<nat> {
    var all := Seen(w, MAX_PID + 1);
    if !w.pidMemory then [] else if |all| <= MAX_PROCS then all else all[..MAX_PROCS]
  }

  lemma {:induction false} SeenGrows(w: World, m: nat, n: nat)
    requires m <= n
    ensures Seen(w, m) <= Seen(w, n)
    decreases n
  {
    if m < n { SeenGrows(w, m, n - 1); }
  }

  /** `procfs_get_pids`: the pid space is walked until the buffer is full; without a buffer nothing is listed. */
  method GetPids(w: World) returns (pids: array?<nat>, count: nat)
    ensures pids == null <==> !w.pidMemory
    ensures pids == null ==> count == 0 && Pids(w) == []
    ensures pids != null ==> fresh(pids) && pids.Length == MAX_PROCS && count <= MAX_PROCS && pids[..count] == Pids(w)
  {
    if !w.pidMemory { return null, 0; }
    var buf := new nat[MAX_PROCS];
    count := 0;
    var pid := 0;
    while pid <= MAX_PID && count < MAX_PROCS
      invariant pid <= MAX_PID + 1 && count <= MAX_PROCS && buf[..count] == Seen(w, pid)
    {
      if pid in w.procs {
        if !w.check || CanAccess(w, w.procs[pid]) {
          buf[count] := pid;
          count := count + 1;
          assert buf[..count] == buf[..count - 1] + [pid];
        }
      }
      pid := pid + 1;
    }
    SeenGrows(w, pid, MAX_PID + 1);
    pids := buf;
  }

  lemma {:induction false} SeenMembers(w: World, n: nat, pid: nat)
    ensures pid in Seen(w, n) <==> pid < n && Visible(w, pid)
  {
    if n > 0 { SeenMembers(w, n - 1, pid); }
  }

  /** A visible process is listed exactly when there is a list and fewer than 1024 visible ones come before it. */
  lemma PidsMembers(w: World, pid: nat)
    requires pid <= MAX_PID
    ensures pid in Pids(w) <==> w.pidMemory && Visible(w, pid) && |Seen(w, pid)| < MAX_PROCS
  {
    var all := Seen(w, MAX_PID + 1);
    SeenMembers(w, MAX_PID + 1, pid);
    if Visible(w, pid) {
      SeenGrows(w, pid + 1, MAX_PID + 1);
      var at := |Seen(w, pid)|;
      assert all[at] == Seen(w, pid + 1)[at] == pid;
      if |all| > MAX_PROCS {
        if at < MAX_PROCS {
          assert all[..MAX_PROCS][at] == pid;
        } else {
          SeenGrows(w, pid, MAX_PID + 1);
          SeenMembers(w, pid, pid);
          assert all[..MAX_PROCS] <= Seen(w, pid);
        }
      }
    }
  }

  // ---------- file ids ----------

  /** The file id that getattr reports. */
  function NodeFileId(nodes: seq<Snode>, v: Pfsnode): nat
    requires v.snode < |nodes|
  {
    FileId(v.id.pid, v.id.obj, nodes[v.snode].base)
  }

  // ---------- lookup ----------

  /** A process's entry in the by-name directory. */
  function ProcDirName(pid: nat, p: Process): string { Decimal(pid) + " " + p.comm }

  /** A 32-bit integer as an unsigned 64-bit object id. */
  function ObjectOf(id: int): nat { id % 0x1_0000_0000_0000_0000 }

  /** What a process, process-by-name or thread entry makes of a name that starts with the number `id`. */
  function NumberMatch(nodes: seq<Snode>, w: World, v: Pfsnode, c: nat, name: string, id: int): Option<Pfsnode>
    requires c < |nodes|
  {
    var k := nodes[c].kind;
    var pid, obj := if k.Thread? then v.id.pid else id, if k.Thread? then ObjectOf(id) else v.id.obj;
    if pid !in w.procs then None
    else if k.ProcName? && (pid < 0 || name != ProcDirName(pid, w.procs[pid])) then None
    else if w.check && !CanAccess(w, w.procs[pid]) then None
    else if k.Thread? && (w.procs[pid].threads.None? || obj !in w.procs[pid].threads.value) then None
    else Some(Pfsnode(c, PfsId(pid, obj, nodes[c].base)))
  }

  /** The children in order: a literal match first, then what the entry's type makes of the name. */
  function Scan(nodes: seq<Snode>, w: World, v: Pfsnode, kids: seq<nat>, name: string): Option<Pfsnode>
    requires forall a :: 0 <= a < |kids| ==> kids[a] < |nodes|
  {
    if kids == [] then None
    else
      var c, rest := kids[0], kids[1..];
      var k := nodes[c].kind;
      if name == nodes[c].name then Some(ChildOf(nodes, v, c, None))
      else if k.Fd? then
        var id := Atoi(name);
        if id >= 0 && v.id.pid in w.procs && id in w.procs[v.id.pid].fds then Some(ChildOf(nodes, v, c, Some(id))) else None
      else if k.Proc? || k.ProcName? || k.Thread? then
        if (!k.ProcName? && Digits(name) < |name|) || Atoi(name) == -1 then Scan(nodes, w, v, rest, name)
        else NumberMatch(nodes, w, v, c, name, Atoi(name))
      else Scan(nodes, w, v, rest, name)
  }

  /** The matching loop of lookup. */
  method MatchChild(nodes: seq<Snode>, w: World, v: Pfsnode, kids: seq<nat>, name: string) returns (r: Option<Pfsnode>)
    requires forall a :: 0 <= a < |kids| ==> kids[a] < |nodes|
    ensures r == Scan(nodes, w, v, kids, name)
  {
    for i := 0 to |kids|
      invariant Scan(nodes, w, v, kids, name) == Scan(nodes, w, v, kids[i..], name)
    {
      var c := kids[i];
      assert kids[i..][0] == c && kids[i..][1..] == kids[i + 1..];
      var k := nodes[c].kind;
      if name == nodes[c].name { return Some(ChildOf(nodes, v, c, None)); }
      if k.Fd? {
        var id, _ := ParseInt(name);
        var valid := false;
        if id != -1 && v.id.pid in w.procs {
          var fds := w.procs[v.id.pid].fds;
          for j := 0 to |fds|
            invariant !valid && (id < 0 || id !in fds[..j])
          {
            assert fds[..j + 1] == fds[..j] + [fds[j]];
            if fds[j] == id {
              valid := true;
              break;
            }
          }
          assert fds[..|fds|] == fds;
        }
        return if valid then Some(ChildOf(nodes, v, c, Some(id))) else None;
      }
      if k.Proc? || k.ProcName? || k.Thread? {
        var id, end := ParseInt(name);
        if !k.ProcName? && end < |name| { continue; }
        if id != -1 { return NumberMatch(nodes, w, v, c, name, id); }
      }
    }
    return None;
  }

  // ---------- whole lookups ----------

  const EINVAL := 22
  const ENOENT := 2

  /** The sysctl directory an object id stands for. */
  function SysctlDir(w: World, obj: nat): Option<T.Dir> {
    if obj == 0 then Some(T.Root(w.sysctl)) else if obj in w.oids then Some(T.Sub(w.oids[obj])) else None
  }

  /** The vnode is a directory. */
  predicate IsDir(nodes: seq<Snode>, w: World, v: Pfsnode)
    requires v.snode < |nodes|
  {
    if nodes[v.snode].kind.Sysctl? then SysctlDir(w, v.id.obj).Some? && T.Children(SysctlDir(w, v.id.obj).value).Some?
    else Directory(nodes[v.snode].kind)
  }

  /** The directory above. */
  function UpNode(nodes: seq<Snode>, v: Pfsnode): Pfsnode
    requires v.snode < |nodes|
  {
    Pfsnode(if nodes[v.snode].parent.Some? then nodes[v.snode].parent.value else v.snode, ParentId(nodes, v))
  }

  /** The node for an oid. */
  function OidNode(nodes: seq<Snode>, v: Pfsnode, o: T.Oid): Pfsnode
    requires v.snode < |nodes|
  {
    Pfsnode(v.snode, PfsId(NO_PID, o.addr, nodes[v.snode].base))
  }

  /** What a name resolves to in a directory. */
  function Find(nodes: seq<Snode>, w: World, v: Pfsnode, name: string): Option<Pfsnode>
    requires Tree(nodes) && v.snode < |nodes|
  {
    if !IsDir(nodes, w, v) || name == "" then None
    else if name == ".." then Some(UpNode(nodes, v))
    else if name == "." then Some(v)
    else if nodes[v.snode].kind.Sysctl? then
      var o := T.First(T.Children(SysctlDir(w, v.id.obj).value).value, name);
      if o.Some? then Some(OidNode(nodes, v, o.value)) else None
    else
      assert Siblings(nodes, nodes[v.snode].kids);
      Scan(nodes, w, v, nodes[v.snode].kids, name)
  }

  /** `procfs_vnop_lookup` up to the node cache: the node, or the error. */
  method LookupName(nodes: seq<Snode>, w: World, v: Pfsnode, name: string) returns (r: Option<Pfsnode>, error: int)
    requires Tree(nodes) && v.snode < |nodes|
    ensures r == Find(nodes, w, v, name)
    ensures error == if r.Some? then 0 else if !IsDir(nodes, w, v) || name == "" then EINVAL else ENOENT
  {
    if !IsDir(nodes, w, v) || |name| < 1 { return None, EINVAL; }
    if name == ".." { return Some(UpNode(nodes, v)), 0; }
    if name == "." { return Some(v), 0; }
    if nodes[v.snode].kind.Sysctl? {
      var o := T.Find(SysctlDir(w, v.id.obj).value, name);
      r := if o.Some? then Some(OidNode(nodes, v, o.value)) else None;
    } else {
      assert Siblings(nodes, nodes[v.snode].kids);
      r := MatchChild(nodes, w, v, nodes[v.snode].kids, name);
    }
    error := if r.Some? then 0 else ENOENT;
  }
}
