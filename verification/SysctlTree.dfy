/**
 The sysctl tree behind /proc/sys: finding a child by name, enumerating children by index, and
 recovering an oid's dotted name by depth-first search.
 */
module SysctlTree {
  import opened Options

  /** An oid; a node without a child list is a node whose list is empty. */
  datatype Oid = Oid(addr: nat, name: Option<string>, isNode: bool, kids: seq<Oid>)

  /** A directory of the tree: the root, or an oid. */
  datatype Dir = Root(list: seq<Oid>) | Sub(oid: Oid)

  function Children(d: Dir): Option<seq<Oid>> {
    match d
    case Root(list) => Some(list)
    case Sub(o) => if o.isNode then Some(o.kids) else None
  }

  // ---------- one level ----------

  /** The first child with the name. */
  function First(list: seq<Oid>, name: string): Option<Oid> {
    if list == [] then None
    else if list[0].name == Some(name) then Some(list[0])
    else First(list[1..], name)
  }

  /** The children that have a name, in list order. */
  function Named(list: seq<Oid>): seq<Oid> {
    if list == [] then []
    else if list[0].name.None? then Named(list[1..])
    else [list[0]] + Named(list[1..])
  }

  method Find(d: Dir, name: string) returns (r: Option<Oid>)
    ensures Children(d).None? ==> r == None
    ensures Children(d).Some? ==> r == First(Children(d).value, name)
  {
    var c := Children(d);
    if c.None? { return None; }
    var list := c.value;
    for i := 0 to |list|
      invariant First(list, name) == First(list[i..], name)
    {
      if list[i].name == Some(name) { return Some(list[i]); }
    }
    return None;
  }

  method ChildAt(d: Dir, index: nat) returns (r: Option<Oid>)
    ensures Children(d).None? ==> r == None
    ensures Children(d).Some? ==>
              r == if index < |Named(Children(d).value)| then Some(Named(Children(d).value)[index]) else None
  {
    var c := Children(d);
    if c.None? { return None; }
    var list := c.value;
    var n := 0;
    for i := 0 to |list|
      invariant n <= index
      invariant |Named(list)| == n + |Named(list[i..])|
      invariant Named(list)[n..] == Named(list[i..])
    {
      if list[i].name.None? { continue; }
      if n == index { return Some(list[i]); }
      n := n + 1;
    }
    return None;
  }

  /** A name that some child bears is found, and what is found bears the name. */
  lemma {:induction false} FirstBears(list: seq<Oid>, name: string)
    ensures First(list, name).Some? <==> exists i :: 0 <= i < |list| && list[i].name == Some(name)
    ensures First(list, name).Some? ==> First(list, name).value in list && First(list, name).value.name == Some(name)
  {
    if list != [] {
      FirstBears(list[1..], name);
      if First(list[1..], name).Some? {
        var i :| 0 <= i < |list[1..]| && list[1..][i].name == Some(name);
        assert list[i + 1].name == Some(name);
      }
    }
  }

  lemma {:induction false} NamedMembers(list: seq<Oid>, o: Oid)
    ensures o in Named(list) <==> o in list && o.name.Some?
  {
    if list != [] { NamedMembers(list[1..], o); }
  }

  ghost predicate DistinctNames(list: seq<Oid>) {
    forall i, j :: 0 <= i < j < |list| && list[i].name.Some? ==> list[i].name != list[j].name
  }

  lemma {:induction false} FirstOfDistinct(list: seq<Oid>, o: Oid)
    requires DistinctNames(list) && o in list && o.name.Some?
    ensures First(list, o.name.value) == Some(o)
  {
    if list[0] != o {
      var i :| 0 <= i < |list| && list[i] == o;
      assert list[1..][i - 1] == o;
      FirstOfDistinct(list[1..], o);
    }
  }

  ghost predicate Findable(list: seq<Oid>, o: Oid) {
    exists name :: First(list, name) == Some(o)
  }

  /** Enumeration by index and lookup by name agree on every child exactly when no two named siblings share a name. */
  lemma EnumerationAgreesWithFind(list: seq<Oid>)
    requires forall i, j :: 0 <= i < j < |list| ==> list[i].addr != list[j].addr
    ensures forall o :: Findable(list, o) ==> o in Named(list)
    ensures (forall o :: o in Named(list) ==> Findable(list, o)) <==> DistinctNames(list)
  {
    forall o | Findable(list, o) ensures o in Named(list) {
      var name :| First(list, name) == Some(o);
      FirstBears(list, name);
      NamedMembers(list, o);
    }
    if DistinctNames(list) {
      forall o | o in Named(list) ensures Findable(list, o) {
        NamedMembers(list, o);
        FirstOfDistinct(list, o);
      }
    } else {
      var i, j :| 0 <= i < j < |list| && list[i].name.Some? && list[i].name == list[j].name;
      SecondIsHidden(list, i, j);
      NamedMembers(list, list[j]);
    }
  }

  lemma SecondIsHidden(list: seq<Oid>, i: nat, j: nat)
    requires i < j < |list| && list[i].name.Some? && list[i].name == list[j].name
    requires forall i, j :: 0 <= i < j < |list| ==> list[i].addr != list[j].addr
    ensures !Findable(list, list[j])
  {
    forall name ensures First(list, name) != Some(list[j]) {
      FirstBears(list, name);
      if list[j].name == Some(name) { FirstIsEarliest(list, name, i); }
    }
  }

  lemma {:induction false} FirstIsEarliest(list: seq<Oid>, name: string, i: nat)
    requires i < |list| && list[i].name == Some(name)
    ensures First(list, name).Some? && exists k :: 0 <= k <= i && First(list, name) == Some(list[k])
  {
    if list[0].name != Some(name) {
      FirstIsEarliest(list[1..], name, i - 1);
      var k :| 0 <= k <= i - 1 && First(list[1..], name) == Some(list[1..][k]);
      assert list[k + 1] == list[1..][k];
    }
  }

  // ---------- recovering a name ----------

  function Cut(s: string, n: nat): string { if |s| <= n then s else s[..n] }

  const PATH_MAX := 255

  function Dotted(prefix: string, name: string): string {
    if prefix != "" then prefix + "." + name else name
  }

  /** The search, in list order, descending into nodes before moving on; each path is cut at 255 characters. */
  function Search(list: seq<Oid>, prefix: string, target: nat): Option<string>
    decreases list
  {
    if list == [] then None
    else
      var o, rest := list[0], list[1..];
      if o.name.None? then Search(rest, prefix, target)
      else
        var path := Cut(Dotted(prefix, o.name.value), PATH_MAX);
        if o.addr == target then Some(path)
        else
          var below := if o.isNode then Search(o.kids, path, target) else None;
          if below.Some? then below else Search(rest, prefix, target)
  }

  method BuildName(list: seq<Oid>, prefix: string, target: nat, outsz: nat) returns (found: bool, out: string)
    requires outsz > 0
    ensures found <==> Search(list, prefix, target).Some?
    ensures found ==> out == Cut(Search(list, prefix, target).value, outsz - 1)
    decreases list
  {
    for i := 0 to |list|
      invariant Search(list, prefix, target) == Search(list[i..], prefix, target)
    {
      var o := list[i];
      assert list[i..][0] == o && list[i..][1..] == list[i + 1..];
      if o.name.None? { continue; }
      var path := Cut(Dotted(prefix, o.name.value), PATH_MAX);
      if o.addr == target { return true, Cut(path, outsz - 1); }
      if o.isNode {
        found, out := BuildName(o.kids, path, target, outsz);
        if found { return; }
      }
    }
    return false, "";
  }

  /** A way down from a list: named oids, each a child of the one before it, all but the last being nodes. */
  ghost predicate Way(list: seq<Oid>, p: seq<Oid>)
    decreases |p|
  {
    && p != [] && p[0] in list && p[0].name.Some?
    && (|p| > 1 ==> p[0].isNode && Way(p[0].kids, p[1..]))
  }

  ghost predicate Reachable(list: seq<Oid>, target: nat) {
    exists p: seq<Oid> :: Way(list, p) && p[|p| - 1].addr == target
  }

  function Names(p: seq<Oid>): seq<string>
    requires forall o :: o in p ==> o.name.Some?
  {
    if p == [] then [] else [p[0].name.value] + Names(p[1..])
  }

  function Join(prefix: string, names: seq<string>): string
    decreases |names|
  {
    if names == [] then prefix else Join(Dotted(prefix, names[0]), names[1..])
  }

  lemma {:induction false} WayIsNamed(list: seq<Oid>, p: seq<Oid>)
    requires Way(list, p)
    ensures forall o :: o in p ==> o.name.Some?
    decreases |p|
  {
    if |p| > 1 {
      WayIsNamed(p[0].kids, p[1..]);
      assert p == [p[0]] + p[1..];
    }
  }

  lemma CutDotted(x: string, name: string)
    ensures Cut(Dotted(Cut(x, PATH_MAX), name), PATH_MAX) == Cut(Dotted(x, name), PATH_MAX)
  {
  }

  /** What the search finds lies on a way down, and the name is that way's dotted name, cut at 255 characters. */
  lemma {:induction false} SearchFindsWay(list: seq<Oid>, x: string, target: nat) returns (p: seq<Oid>)
    requires Search(list, Cut(x, PATH_MAX), target).Some?
    ensures Way(list, p) && p[|p| - 1].addr == target
    ensures forall o :: o in p ==> o.name.Some?
    ensures Search(list, Cut(x, PATH_MAX), target).value == Cut(Join(x, Names(p)), PATH_MAX)
    decreases list
  {
    var o, rest := list[0], list[1..];
    if o.name.Some? {
      var name := o.name.value;
      CutDotted(x, name);
      var path := Cut(Dotted(x, name), PATH_MAX);
      if o.addr == target {
        p := [o];
        return;
      }
      if o.isNode && Search(o.kids, path, target).Some? {
        var q := SearchFindsWay(o.kids, Dotted(x, name), target);
        p := [o] + q;
        assert p[1..] == q;
        return;
      }
    }
    p := SearchFindsWay(rest, x, target);
  }

  lemma {:induction false} WayIsFound(list: seq<Oid>, prefix: string, target: nat, p: seq<Oid>)
    requires Way(list, p) && p[|p| - 1].addr == target
    ensures Search(list, prefix, target).Some?
    decreases list
  {
    var o, rest := list[0], list[1..];
    if p[0] != o {
      assert p[0] in rest;
      WayIsFound(rest, prefix, target, p);
    } else if o.addr != target {
      WayIsFound(o.kids, Cut(Dotted(prefix, o.name.value), PATH_MAX), target, p[1..]);
    }
  }

  /** The search succeeds exactly for the oids that can be reached through named nodes. */
  lemma SearchSucceedsIffReachable(list: seq<Oid>, target: nat)
    ensures Search(list, "", target).Some? <==> Reachable(list, target)
  {
    if Search(list, "", target).Some? {
      var p := SearchFindsWay(list, "", target);
    }
    if Reachable(list, target) {
      var p: seq<Oid> :| Way(list, p) && p[|p| - 1].addr == target;
      WayIsFound(list, "", target, p);
    }
  }

  // ---------- walking a dotted name ----------

  function FirstDot(s: string): (d: nat)
    ensures d <= |s| && '.' !in s[..d] && (d < |s| ==> s[d] == '.')
  {
    if s == "" || s[0] == '.' then 0
    else
      var d := FirstDot(s[1..]);
      assert s[..1 + d] == [s[0]] + s[1..][..d];
      1 + d
  }

  function Components(s: string): seq<string> {
    var d := FirstDot(s);
    if d == |s| then [s] else [s[..d]] + Components(s[d + 1..])
  }

  /** Finds the components one after the other, each among the children of the last. */
  function Walk(list: seq<Oid>, names: seq<string>): Option<Oid>
    decreases |names|
  {
    if names == [] then None
    else
      var o := First(list, names[0]);
      if o.None? || |names| == 1 then o
      else if o.value.isNode then Walk(o.value.kids, names[1..])
      else None
  }

  ghost predicate GoodNames(list: seq<Oid>)
    decreases list
  {
    && DistinctNames(list)
    && (forall i :: 0 <= i < |list| && list[i].name.Some? ==> list[i].name.value != "" && '.' !in list[i].name.value)
    && (forall i :: 0 <= i < |list| ==> GoodNames(list[i].kids))
  }

  lemma {:induction false} WalkFollowsWay(list: seq<Oid>, p: seq<Oid>)
    requires GoodNames(list) && Way(list, p) && forall o :: o in p ==> o.name.Some?
    ensures Walk(list, Names(p)) == Some(p[|p| - 1])
    decreases |p|
  {
    FirstOfDistinct(list, p[0]);
    if |p| > 1 {
      WalkFollowsWay(p[0].kids, p[1..]);
      assert Names(p)[1..] == Names(p[1..]);
    }
  }

  lemma FirstDotIs(s: string, d: nat)
    requires d <= |s| && '.' !in s[..d] && (d < |s| ==> s[d] == '.')
    ensures FirstDot(s) == d
  {
    var e := FirstDot(s);
    assert !(d < e) && !(e < d);
  }

  lemma DotFreeComponent(s: string)
    requires '.' !in s
    ensures Components(s) == [s]
  {
    FirstDotIs(s, |s|);
  }

  lemma {:induction false} ComponentsOfDotted(x: string, name: string)
    requires '.' !in name
    ensures Components(x + "." + name) == Components(x) + [name]
    decreases |x|
  {
    var s, d := x + "." + name, FirstDot(x);
    assert s[..d] == x[..d];
    FirstDotIs(s, d);
    if d == |x| {
      assert s[d + 1..] == name && s[..d] == x;
      DotFreeComponent(name);
    } else {
      var y := x[d + 1..];
      assert s[d + 1..] == y + "." + name;
      ComponentsOfDotted(y, name);
      assert [x[..d]] + (Components(y) + [name]) == [x[..d]] + Components(y) + [name];
    }
  }

  lemma {:induction false} ComponentsOfJoin(x: string, names: seq<string>)
    requires x != "" && forall i :: 0 <= i < |names| ==> '.' !in names[i]
    ensures Components(Join(x, names)) == Components(x) + names
    decreases |names|
  {
    if names != [] {
      ComponentsOfDotted(x, names[0]);
      var y := x + "." + names[0];
      ComponentsOfJoin(y, names[1..]);
      AppendRest(Components(x), names);
    }
  }

  lemma AppendRest(xs: seq<string>, names: seq<string>)
    requires names != []
    ensures xs + [names[0]] + names[1..] == xs + names
  {
  }

  lemma {:induction false} WayHasGoodNames(list: seq<Oid>, p: seq<Oid>)
    requires GoodNames(list) && Way(list, p) && forall o :: o in p ==> o.name.Some?
    ensures |Names(p)| == |p| && forall i :: 0 <= i < |p| ==> Names(p)[i] != "" && '.' !in Names(p)[i]
    decreases |p|
  {
    var i :| 0 <= i < |list| && list[i] == p[0];
    if |p| > 1 {
      assert GoodNames(list[i].kids);
      WayHasGoodNames(p[0].kids, p[1..]);
    }
  }

  /** Every way down the tree has a dotted name of at most 255 characters. */
  ghost predicate PathsFit(list: seq<Oid>) {
    forall p: seq<Oid> :: Way(list, p) && (forall o :: o in p ==> o.name.Some?) ==> |Join("", Names(p))| <= PATH_MAX
  }

  /** Walking the recovered name component by component ends at the oid it was recovered for. */
  lemma NamingInvertsWalking(list: seq<Oid>, target: nat)
    requires GoodNames(list) && PathsFit(list) && Reachable(list, target)
    ensures Search(list, "", target).Some?
    ensures var r := Walk(list, Components(Search(list, "", target).value)); r.Some? && r.value.addr == target
  {
    SearchSucceedsIffReachable(list, target);
    var p := SearchFindsWay(list, "", target);
    WayHasGoodNames(list, p);
    var names := Names(p);
    DotFreeComponent(names[0]);
    ComponentsOfJoin(names[0], names[1..]);
    assert Components(Join("", names)) == names;
    WalkFollowsWay(list, p);
  }
}
