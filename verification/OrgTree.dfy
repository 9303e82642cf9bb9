/**
 The visibility-filtered organization tree.

 Organizations are rows with a parent id; nothing stops the parent links from forming cycles. What
 an actor may view is decided elsewhere and arrives as a field of the row.
 */
module OrgTreeModel {
  import opened Wrappers
  import opened StableSort
  import opened Texts

  type OrgId = nat

  datatype Org = Org(id: OrgId, name: string, parent: Option<OrgId>, deleted: bool, visible: bool)
  datatype Tree = Node(org: Org, children: seq<Tree>)

  datatype Outcome = Listed(nodes: seq<Tree>) | TooDeep | NotFound

  const MAX_TREE_DEPTH := 5

  /** Primary keys are unique. */
  ghost predicate UniqueIds(orgs: seq<Org>) {
    forall i, j :: 0 <= i < j < |orgs| ==> orgs[i].id != orgs[j].id
  }

  predicate IsChild(o: Org, parent: Option<OrgId>) {
    o.parent == parent && !o.deleted
  }

  /** The rows under a parent that are not deleted; under `None`, the roots. */
  function Under(orgs: seq<Org>, parent: Option<OrgId>): (r: seq<Org>)
    ensures forall o :: o in r <==> o in orgs && IsChild(o, parent)
  {
    if orgs == [] then []
    else
      var rest, o := orgs[..|orgs| - 1], orgs[|orgs| - 1];
      assert orgs == rest + [o];
      if IsChild(o, parent) then Under(rest, parent) + [o] else Under(rest, parent)
  }

  predicate NameLe(a: Org, b: Org) { TextLe(a.name, b.name) }

  function ByName(): (Org, Org) -> bool { NameLe }

  /** The parentless organizations, by name. */
  function Roots(orgs: seq<Org>): seq<Org> { Sort(Under(orgs, None), ByName()) }

  function Find(orgs: seq<Org>, id: OrgId): (r: Option<Org>)
    ensures r.Some? ==> r.value in orgs && r.value.id == id && !r.value.deleted
  {
    if orgs == [] then None
    else if orgs[|orgs| - 1].id == id && !orgs[|orgs| - 1].deleted then Some(orgs[|orgs| - 1])
    else Find(orgs[..|orgs| - 1], id)
  }

  /** The node of `o` with `levels` more levels of children below it. */
  function Build(orgs: seq<Org>, o: Org, levels: nat): Option<Tree>
    decreases levels, 1, 0
  {
    if !o.visible then None
    else Some(Node(o, if levels == 0 then [] else BuildAll(orgs, Under(orgs, Some(o.id)), levels - 1)))
  }

  /** The nodes of those listed organizations that are visible. */
  function BuildAll(orgs: seq<Org>, list: seq<Org>, levels: nat): seq<Tree>
    decreases levels, 2, |list|
  {
    if list == [] then []
    else
      var rest := BuildAll(orgs, list[..|list| - 1], levels);
      match Build(orgs, list[|list| - 1], levels)
      case None => rest
      case Some(t) => rest + [t]
  }

  function Levels(maxDepth: int): nat {
    if maxDepth > 0 then maxDepth else 0
  }

  function OrganizationTree(orgs: seq<Org>, root: Option<OrgId>, maxDepth: int): Outcome {
    if maxDepth > MAX_TREE_DEPTH then TooDeep
    else if root.None? then Listed(BuildAll(orgs, Roots(orgs), Levels(maxDepth)))
    else
      match Find(orgs, root.value)
      case None => NotFound
      case Some(o) =>
        match Build(orgs, o, Levels(maxDepth))
        case None => NotFound
        case Some(t) => Listed([t])
  }

  /** Builds a node by looping over the children and keeping the visible ones. */
  method BuildNode(orgs: seq<Org>, o: Org, depth: nat, maxDepth: int) returns (r: Option<Tree>)
    ensures r == Build(orgs, o, Levels(maxDepth - depth))
    decreases Levels(maxDepth - depth)
  {
    if !o.visible { return None; }
    var children: seq<Tree> := [];
    if depth < maxDepth {
      var childOrgs := Under(orgs, Some(o.id));
      for i := 0 to |childOrgs|
        invariant children == BuildAll(orgs, childOrgs[..i], Levels(maxDepth - depth - 1))
      {
        assert childOrgs[..i + 1][..i] == childOrgs[..i];
        var child := BuildNode(orgs, childOrgs[i], depth + 1, maxDepth);
        if child.Some? { children := children + [child.value]; }
      }
      assert childOrgs[..|childOrgs|] == childOrgs;
    }
    r := Some(Node(o, children));
  }

  method GetOrganizationTree(orgs: seq<Org>, root: Option<OrgId>, maxDepth: int) returns (r: Outcome)
    ensures r == OrganizationTree(orgs, root, maxDepth)
  {
    hide Under, Roots;
    if maxDepth > MAX_TREE_DEPTH { return TooDeep; }
    var nodes: seq<Tree> := [];
    if root.Some? {
      var found := Find(orgs, root.value);
      if found.None? || !found.value.visible { return NotFound; }
      var node := BuildNode(orgs, found.value, 0, maxDepth);
      if node.Some? { nodes := nodes + [node.value]; }
    } else {
      var rootOrgs := Roots(orgs);
      for i := 0 to |rootOrgs|
        invariant nodes == BuildAll(orgs, rootOrgs[..i], Levels(maxDepth))
      {
        assert rootOrgs[..i + 1][..i] == rootOrgs[..i];
        var node := BuildNode(orgs, rootOrgs[i], 0, maxDepth);
        if node.Some? { nodes := nodes + [node.value]; }
      }
      assert rootOrgs[..|rootOrgs|] == rootOrgs;
    }
    r := Listed(nodes);
  }
}

/** Exactness of the tree, and when no organization is listed twice. */
module OrgTreeTheorems {
  import opened Wrappers
  import S = StableSort
  import opened Texts
  import opened OrgTreeModel

  /** `path` leads from the root of `t` down to one of its nodes. */
  ghost predicate PathIn(t: Tree, path: seq<Org>)
    decreases |path|
  {
    path != [] && path[0] == t.org
    && (|path| == 1 || exists c :: c in t.children && PathIn(c, path[1..]))
  }

  /** Child links from row to row, every row visible. */
  ghost predicate VisibleChain(orgs: seq<Org>, path: seq<Org>) {
    && path != []
    && (forall i :: 0 <= i < |path| ==> path[i].visible)
    && (forall i :: 0 < i < |path| ==> path[i] in orgs && IsChild(path[i], Some(path[i - 1].id)))
  }

  lemma {:induction false} BuiltFromList(orgs: seq<Org>, list: seq<Org>, levels: nat, t: Tree)
    ensures t in BuildAll(orgs, list, levels) <==> t.org in list && Build(orgs, t.org, levels) == Some(t)
  {
    if list != [] {
      var rest, o := list[..|list| - 1], list[|list| - 1];
      assert list == rest + [o];
      BuiltFromList(orgs, rest, levels, t);
    }
  }

  lemma ChainTail(orgs: seq<Org>, path: seq<Org>)
    requires |path| > 1
    ensures VisibleChain(orgs, path) <==>
      path[0].visible && path[1] in orgs && IsChild(path[1], Some(path[0].id)) && VisibleChain(orgs, path[1..])
  {
    if path[0].visible && path[1] in orgs && IsChild(path[1], Some(path[0].id)) && VisibleChain(orgs, path[1..]) {
      forall i | 0 < i < |path| ensures path[i] in orgs && IsChild(path[i], Some(path[i - 1].id)) {
        if i > 1 { assert path[1..][i - 1] == path[i]; }
      }
      forall i | 0 <= i < |path| ensures path[i].visible {
        if i > 0 { assert path[1..][i - 1] == path[i]; }
      }
    }
  }

  /** Main result 1: an organization is in the tree at a path exactly when the path is a chain of at most
      `levels` child links from the root with everything on it visible. */
  lemma {:induction false} TreeIsExact(orgs: seq<Org>, o: Org, levels: nat, path: seq<Org>)
    ensures (Build(orgs, o, levels).Some? && PathIn(Build(orgs, o, levels).value, path)) <==>
      VisibleChain(orgs, path) && path[0] == o && |path| - 1 <= levels
    decreases levels
  {
    if path != [] && path[0] == o && o.visible && |path| > 1 {
      ChainTail(orgs, path);
      if levels > 0 {
        var t := Build(orgs, o, levels).value;
        TreeIsExact(orgs, path[1], levels - 1, path[1..]);
        forall c ensures c in t.children && PathIn(c, path[1..]) <==>
          path[1] in orgs && IsChild(path[1], Some(o.id))
          && Build(orgs, path[1], levels - 1) == Some(c) && PathIn(c, path[1..])
        {
          BuiltFromList(orgs, Under(orgs, Some(o.id)), levels - 1, c);
        }
      }
    }
  }

  /** The same for a list of starting points. */
  lemma ForestIsExact(orgs: seq<Org>, list: seq<Org>, levels: nat, path: seq<Org>)
    ensures (exists t :: t in BuildAll(orgs, list, levels) && PathIn(t, path)) <==>
      VisibleChain(orgs, path) && path[0] in list && |path| - 1 <= levels
  {
    if path != [] {
      TreeIsExact(orgs, path[0], levels, path);
      if VisibleChain(orgs, path) && path[0] in list && |path| - 1 <= levels {
        var t := Build(orgs, path[0], levels).value;
        BuiltFromList(orgs, list, levels, t);
        assert t in BuildAll(orgs, list, levels) && PathIn(t, path);
      }
      forall t | t in BuildAll(orgs, list, levels) && PathIn(t, path)
        ensures VisibleChain(orgs, path) && path[0] in list && |path| - 1 <= levels
      {
        BuiltFromList(orgs, list, levels, t);
      }
    }
  }

  lemma PathFromList(orgs: seq<Org>, list: seq<Org>, levels: nat, t: Tree, path: seq<Org>)
    requires t in BuildAll(orgs, list, levels) && PathIn(t, path)
    ensures VisibleChain(orgs, path) && path[0] in list
  {
    BuiltFromList(orgs, list, levels, t);
    TreeIsExact(orgs, t.org, levels, path);
  }

  // ---------------------------------------------------------------- listed once

  /** The ids of a tree's nodes, parents first. */
  ghost function Ids(t: Tree): seq<OrgId> {
    [t.org.id] + IdsAll(t.children)
  }

  ghost function IdsAll(ts: seq<Tree>): seq<OrgId> {
    if ts == [] then [] else IdsAll(ts[..|ts| - 1]) + Ids(ts[|ts| - 1])
  }

  ghost predicate Distinct(ids: seq<OrgId>) {
    forall i, j :: 0 <= i < j < |ids| ==> ids[i] != ids[j]
  }

  ghost predicate EndsAt(path: seq<Org>, id: OrgId) {
    path != [] && path[|path| - 1].id == id
  }

  lemma {:induction false} PathTo(ts: seq<Tree>, id: OrgId) returns (t: Tree, path: seq<Org>)
    requires id in IdsAll(ts)
    ensures t in ts && PathIn(t, path) && EndsAt(path, id)
    decreases ts
  {
    if id in IdsAll(ts[..|ts| - 1]) {
      t, path := PathTo(ts[..|ts| - 1], id);
    } else {
      t := ts[|ts| - 1];
      path := PathToIn(t, id);
    }
  }

  lemma {:induction false} PathToIn(t: Tree, id: OrgId) returns (path: seq<Org>)
    requires id in Ids(t)
    ensures PathIn(t, path) && EndsAt(path, id)
    decreases t
  {
    if id == t.org.id {
      path := [t.org];
    } else {
      var c, below := PathTo(t.children, id);
      path := [t.org] + below;
      assert path[1..] == below && PathIn(c, path[1..]);
    }
  }

  lemma {:induction false} PrefixPath(t: Tree, path: seq<Org>, n: nat)
    requires PathIn(t, path) && 1 <= n <= |path|
    ensures PathIn(t, path[..n])
    decreases n
  {
    if n > 1 {
      var c :| c in t.children && PathIn(c, path[1..]);
      PrefixPath(c, path[1..], n - 1);
      assert path[1..][..n - 1] == path[..n][1..];
    }
  }

  /** A path of at least two nodes lists its end below the root. */
  lemma EndListedBelow(t: Tree, path: seq<Org>)
    requires PathIn(t, path) && |path| > 1
    ensures path[|path| - 1].id in IdsAll(t.children)
  {
    var c :| c in t.children && PathIn(c, path[1..]);
    PathLists(c, path[1..]);
    IdsInAll(t.children, c, path[|path| - 1].id);
  }

  lemma {:induction false} PathLists(t: Tree, path: seq<Org>)
    requires PathIn(t, path)
    ensures path[|path| - 1].id in Ids(t)
    decreases |path|
  {
    if |path| > 1 {
      var c :| c in t.children && PathIn(c, path[1..]);
      PathLists(c, path[1..]);
      IdsInAll(t.children, c, path[|path| - 1].id);
    }
  }

  lemma {:induction false} IdsInAll(ts: seq<Tree>, t: Tree, id: OrgId)
    requires t in ts && id in Ids(t)
    ensures id in IdsAll(ts)
  {
    if t != ts[|ts| - 1] {
      assert ts == ts[..|ts| - 1] + [ts[|ts| - 1]];
      IdsInAll(ts[..|ts| - 1], t, id);
    }
  }

  /** No two nodes below one parent, at any level, hold the same organization. */
  ghost predicate DistinctSiblings(ts: seq<Tree>) {
    && (forall i, j :: 0 <= i < j < |ts| ==> ts[i].org.id != ts[j].org.id)
    && (forall t :: t in ts ==> DistinctSiblings(t.children))
  }

  /** Paths of the forest that end at the same organization are the same path. */
  ghost predicate UniquePaths(ts: seq<Tree>) {
    forall t, u, p, q, id :: t in ts && u in ts && PathIn(t, p) && PathIn(u, q) && EndsAt(p, id) && EndsAt(q, id)
      ==> p == q
  }

  lemma PathBelow(t: Tree, c: Tree, path: seq<Org>, id: OrgId)
    requires c in t.children && PathIn(c, path) && EndsAt(path, id)
    ensures PathIn(t, [t.org] + path) && EndsAt([t.org] + path, id)
  {
    assert ([t.org] + path)[1..] == path;
  }

  lemma UniquePathsBelow(ts: seq<Tree>, t: Tree)
    requires UniquePaths(ts) && t in ts
    ensures UniquePaths(t.children)
  {
    forall c, d, p, q, id |
      && c in t.children && d in t.children && PathIn(c, p) && PathIn(d, q) && EndsAt(p, id) && EndsAt(q, id)
      ensures p == q
    {
      PathBelow(t, c, p, id);
      PathBelow(t, d, q, id);
      assert [t.org] + p == [t.org] + q;
      assert ([t.org] + p)[1..] == p && ([t.org] + q)[1..] == q;
    }
  }

  lemma DistinctConcat(a: seq<OrgId>, b: seq<OrgId>)
    requires Distinct(a) && Distinct(b) && forall x :: x in a ==> x !in b
    ensures Distinct(a + b)
  {
    forall i, j | 0 <= i < j < |a + b| ensures (a + b)[i] != (a + b)[j] {
      if i < |a| <= j { assert a[i] in a && b[j - |a|] in b; }
    }
  }

  lemma RootNotBelow(ts: seq<Tree>, t: Tree)
    requires UniquePaths(ts) && t in ts
    ensures t.org.id !in IdsAll(t.children)
  {
    if t.org.id in IdsAll(t.children) {
      var c, p := PathTo(t.children, t.org.id);
      hide PathIn;
      PathBelow(t, c, p, t.org.id);
      RootPath(t);
    }
  }

  lemma RootPath(t: Tree)
    ensures PathIn(t, [t.org]) && EndsAt([t.org], t.org.id)
  {
  }

  lemma PathStarts(t: Tree, path: seq<Org>)
    requires PathIn(t, path)
    ensures path != [] && path[0] == t.org
  {
  }

  lemma BranchesDisjoint(ts: seq<Tree>, rest: seq<Tree>, t: Tree, id: OrgId)
    requires UniquePaths(ts) && t in ts && forall u :: u in rest ==> u in ts && u.org.id != t.org.id
    requires id in IdsAll(rest)
    ensures id !in Ids(t)
  {
    var u, p := PathTo(rest, id);
    PathStarts(u, p);
    if id in Ids(t) {
      hide PathIn, Ids, IdsAll;
      var q := PathToIn(t, id);
      PathStarts(t, q);
    }
  }

  lemma {:induction false} UniquePathsListOnce(ts: seq<Tree>)
    requires UniquePaths(ts) && DistinctSiblings(ts)
    ensures Distinct(IdsAll(ts))
    decreases ts
  {
    if ts != [] {
      hide PathIn, UniquePaths;
      var rest, t := ts[..|ts| - 1], ts[|ts| - 1];
      assert forall u :: u in rest ==> u in ts && u.org.id != t.org.id;
      UniquePathsOfPart(ts, rest);
      UniquePathsListOnce(rest);
      UniquePathsBelow(ts, t);
      UniquePathsListOnce(t.children);
      RootNotBelow(ts, t);
      DistinctConcat([t.org.id], IdsAll(t.children));
      forall id | id in IdsAll(rest) ensures id !in Ids(t) { BranchesDisjoint(ts, rest, t, id); }
      DistinctConcat(IdsAll(rest), Ids(t));
    }
  }

  lemma UniquePathsOfPart(ts: seq<Tree>, part: seq<Tree>)
    requires UniquePaths(ts) && forall u :: u in part ==> u in ts
    ensures UniquePaths(part)
  {
  }

  // ---------------------------------------------------------------- built trees

  ghost predicate DistinctRows(list: seq<Org>) {
    forall i, j :: 0 <= i < j < |list| ==> list[i].id != list[j].id
  }

  lemma {:induction false} UnderIsDistinct(orgs: seq<Org>, parent: Option<OrgId>)
    requires UniqueIds(orgs)
    ensures DistinctRows(Under(orgs, parent))
  {
    if orgs != [] {
      var rest, o := orgs[..|orgs| - 1], orgs[|orgs| - 1];
      UnderIsDistinct(rest, parent);
      forall i | 0 <= i < |Under(rest, parent)| ensures Under(rest, parent)[i].id != o.id {
        assert Under(rest, parent)[i] in Under(rest, parent);
        var k :| 0 <= k < |rest| && rest[k] == Under(rest, parent)[i];
        assert orgs[k].id != orgs[|orgs| - 1].id;
      }
    }
  }

  lemma {:induction false} BuiltSiblingsDistinct(orgs: seq<Org>, list: seq<Org>, levels: nat)
    requires UniqueIds(orgs) && DistinctRows(list)
    ensures DistinctSiblings(BuildAll(orgs, list, levels))
    decreases levels, |list|
  {
    if list != [] {
      var rest, o := list[..|list| - 1], list[|list| - 1];
      BuiltSiblingsDistinct(orgs, rest, levels);
      if o.visible {
        var t := Build(orgs, o, levels).value;
        if levels > 0 {
          UnderIsDistinct(orgs, Some(o.id));
          BuiltSiblingsDistinct(orgs, Under(orgs, Some(o.id)), levels - 1);
        }
        assert t.org == o && DistinctSiblings(t.children);
        var ts := BuildAll(orgs, rest, levels);
        forall i | 0 <= i < |ts| ensures ts[i].org.id != o.id {
          BuiltFromList(orgs, rest, levels, ts[i]);
          var k :| 0 <= k < |rest| && rest[k] == ts[i].org;
          assert list[k].id != list[|list| - 1].id;
        }
        OneMoreSibling(ts, t);
      }
    }
  }

  lemma OneMoreSibling(ts: seq<Tree>, t: Tree)
    requires DistinctSiblings(ts) && DistinctSiblings(t.children)
    requires forall i :: 0 <= i < |ts| ==> ts[i].org.id != t.org.id
    ensures DistinctSiblings(ts + [t])
  {
  }

  ghost predicate Rooted(orgs: seq<Org>, path: seq<Org>) {
    VisibleChain(orgs, path) && path[0] in orgs
  }

  /** Two chains to one organization agree upwards as far as the shorter one goes. */
  lemma {:induction false} ChainsAgree(orgs: seq<Org>, p: seq<Org>, q: seq<Org>)
    requires UniqueIds(orgs) && Rooted(orgs, p) && Rooted(orgs, q) && |p| <= |q|
    requires p[|p| - 1].id == q[|q| - 1].id
    ensures p == q[|q| - |p|..]
  {
    var a, b := p[|p| - 1], q[|q| - 1];
    assert a in orgs && b in orgs;
    var i, j :| 0 <= i < |orgs| && orgs[i] == a && 0 <= j < |orgs| && orgs[j] == b;
    assert a == b;
    if |p| > 1 {
      ChainsAgree(orgs, p[..|p| - 1], q[..|q| - 1]);
      assert p == p[..|p| - 1] + [a];
      assert q[|q| - |p|..] == q[..|q| - 1][|q| - |p|..] + [b];
    } else {
      assert q[|q| - 1..] == [b];
    }
  }

  lemma NameOrder()
    ensures S.Preorder(ByName())
  {
    forall x, y ensures ByName()(x, y) || ByName()(y, x) {
      TextOrder(x.name, y.name, "");
    }
    forall x, y, z | ByName()(x, y) && ByName()(y, z) ensures ByName()(x, z) {
      TextOrder(x.name, y.name, z.name);
    }
  }

  /** Sorting changes neither which organizations are roots nor that there are no two with one id. */
  lemma RootsAreUnder(orgs: seq<Org>)
    requires UniqueIds(orgs)
    ensures forall o :: o in Roots(orgs) <==> o in orgs && IsChild(o, None)
    ensures DistinctRows(Roots(orgs))
  {
    var under, roots := Under(orgs, None), Roots(orgs);
    UnderIsDistinct(orgs, None);
    S.SortKeepsElements(under, ByName());
    S.InMultiset(under, roots);
    S.PermutedDistinct(under, roots);
    hide Roots, Under;
    forall i, j | 0 <= i < j < |roots| ensures roots[i].id != roots[j].id {
      assert roots[i] in roots && roots[j] in roots;
      var p, q :| 0 <= p < |under| && under[p] == roots[i] && 0 <= q < |under| && under[q] == roots[j];
      assert p != q;
    }
  }

  lemma {:induction false} BuiltInOrder(orgs: seq<Org>, list: seq<Org>, levels: nat)
    requires S.Ordered(list, ByName())
    ensures var ts := BuildAll(orgs, list, levels);
      forall i: nat, j: nat :: i < j < |ts| ==> NameLe(ts[i].org, ts[j].org)
    decreases |list|
  {
    if list != [] {
      var n := |list| - 1;
      var rest, ts := BuildAll(orgs, list[..n], levels), BuildAll(orgs, list, levels);
      BuiltInOrder(orgs, list[..n], levels);
      forall i: nat | i < |rest| ensures NameLe(rest[i].org, list[n]) {
        BuiltFromList(orgs, list[..n], levels, rest[i]);
        var k: nat :| k < n && list[k] == rest[i].org;
        assert ByName()(list[k], list[n]);
      }
    }
  }

  /** The listing from the parentless organizations shows them by name. */
  lemma RootsByName(orgs: seq<Org>, levels: nat)
    ensures var ts := BuildAll(orgs, Roots(orgs), levels);
      forall i: nat, j: nat :: i < j < |ts| ==> NameLe(ts[i].org, ts[j].org)
  {
    NameOrder();
    S.SortOrders(Under(orgs, None), ByName());
    BuiltInOrder(orgs, Roots(orgs), levels);
  }

  /** Main result 2: listing from the parentless organizations names no organization twice, cycles or not. */
  lemma RootsListOnce(orgs: seq<Org>, levels: nat)
    requires UniqueIds(orgs)
    ensures Distinct(IdsAll(BuildAll(orgs, Roots(orgs), levels)))
  {
    var roots := Roots(orgs);
    var ts := BuildAll(orgs, roots, levels);
    RootsAreUnder(orgs);
    hide Roots;
    BuiltSiblingsDistinct(orgs, roots, levels);
    forall t, u, p, q, id | t in ts && u in ts && PathIn(t, p) && PathIn(u, q) && EndsAt(p, id) && EndsAt(q, id)
      ensures p == q
    {
      PathFromList(orgs, roots, levels, t, p);
      PathFromList(orgs, roots, levels, u, q);
      if |p| <= |q| { ParentlessChainsAgree(orgs, p, q); } else { ParentlessChainsAgree(orgs, q, p); }
    }
    UniquePathsListOnce(ts);
  }

  lemma ParentlessChainsAgree(orgs: seq<Org>, p: seq<Org>, q: seq<Org>)
    requires UniqueIds(orgs) && Rooted(orgs, p) && Rooted(orgs, q) && |p| <= |q|
    requires p[|p| - 1].id == q[|q| - 1].id && p[0].parent == None
    ensures p == q
  {
    var k := |q| - |p|;
    assert k > 0 ==> IsChild(q[k], Some(q[k - 1].id));
    ChainsAgree(orgs, p, q);
    assert q[k..][0] == q[k];
  }

  /** Main result 3: listing from a given root names no organization twice exactly when the root is not
      listed again below itself. */
  lemma SubtreeListsOnceIff(orgs: seq<Org>, o: Org, levels: nat)
    requires UniqueIds(orgs) && o in orgs && o.visible
    ensures var t := Build(orgs, o, levels).value;
      Distinct(Ids(t)) <==> o.id !in IdsAll(t.children)
  {
    var t := Build(orgs, o, levels).value;
    if o.id !in IdsAll(t.children) {
      forall p, q, id | PathIn(t, p) && PathIn(t, q) && EndsAt(p, id) && EndsAt(q, id) ensures p == q {
        if |p| <= |q| { SameRootChainsAgree(orgs, o, levels, p, q); }
        else { SameRootChainsAgree(orgs, o, levels, q, p); }
      }
      assert UniquePaths([t]);
      BuiltSiblingsDistinct(orgs, [o], levels);
      assert BuildAll(orgs, [o], levels) == [t] by { assert [o][..0] == []; }
      UniquePathsListOnce([t]);
      assert IdsAll([t]) == Ids(t) by { assert [t][..0] == []; }
    } else {
      var j :| 0 <= j < |IdsAll(t.children)| && IdsAll(t.children)[j] == o.id;
      assert Ids(t)[0] == Ids(t)[j + 1];
    }
  }

  lemma SameRootChainsAgree(orgs: seq<Org>, o: Org, levels: nat, p: seq<Org>, q: seq<Org>)
    requires UniqueIds(orgs) && o in orgs && o.visible && |p| <= |q|
    requires var t := Build(orgs, o, levels).value; PathIn(t, p) && PathIn(t, q) && o.id !in IdsAll(t.children)
    requires p[|p| - 1].id == q[|q| - 1].id
    ensures p == q
  {
    var t := Build(orgs, o, levels).value;
    TreeIsExact(orgs, o, levels, p);
    TreeIsExact(orgs, o, levels, q);
    hide PathIn, Build, IdsAll;
    ChainsAgree(orgs, p, q);
    var k := |q| - |p|;
    assert q[k..][0] == q[k];
    if k > 0 {
      PrefixPath(t, q, k + 1);
      EndListedBelow(t, q[..k + 1]);
    }
  }

  /** The root is listed again exactly when a visible chain of at most `levels` links leads back to it. */
  lemma ListedAgainIffCycle(orgs: seq<Org>, o: Org, levels: nat)
    requires UniqueIds(orgs) && o in orgs && o.visible
    ensures o.id in IdsAll(Build(orgs, o, levels).value.children) <==>
      exists path :: VisibleChain(orgs, path) && path[0] == o && EndsAt(path, o.id) && 1 < |path| <= levels + 1
  {
    var t := Build(orgs, o, levels).value;
    if o.id in IdsAll(t.children) {
      var c, below := PathTo(t.children, o.id);
      PathBelow(t, c, below, o.id);
      TreeIsExact(orgs, o, levels, [o] + below);
    }
    if path :| VisibleChain(orgs, path) && path[0] == o && EndsAt(path, o.id) && 1 < |path| <= levels + 1 {
      TreeIsExact(orgs, o, levels, path);
      EndListedBelow(t, path);
    }
  }

  /** The row with an id that is not deleted. */
  ghost predicate IsRow(orgs: seq<Org>, id: OrgId, o: Org) {
    o in orgs && o.id == id && !o.deleted
  }

  /** What a listing answers: it is too deep beyond five levels, not found for a root that is missing, deleted or not
      visible, and otherwise one tree for a given root or the visible parentless ones. */
  lemma ListingAnswers(orgs: seq<Org>, root: Option<OrgId>, maxDepth: int)
    requires UniqueIds(orgs)
    ensures var out := OrganizationTree(orgs, root, maxDepth);
      && (out == TooDeep <==> maxDepth > 5)
      && (out == NotFound <==> (
            maxDepth <= 5 && root.Some? && forall o :: IsRow(orgs, root.value, o) ==> !o.visible))
      && (out.Listed? && root.Some? ==> |out.nodes| == 1 && IsRow(orgs, root.value, out.nodes[0].org))
      && (out.Listed? && root.None? ==> forall o :: o in orgs && IsChild(o, None) && o.visible ==>
            exists t :: t in out.nodes && t.org == o)
  {
    if root.Some? {
      FindIsRow(orgs, root.value);
    } else {
      RootsAreUnder(orgs);
      forall o | o in orgs && IsChild(o, None) && o.visible
        ensures exists t :: t in BuildAll(orgs, Roots(orgs), Levels(maxDepth)) && t.org == o
      {
        BuiltFromList(orgs, Roots(orgs), Levels(maxDepth), Build(orgs, o, Levels(maxDepth)).value);
      }
    }
    hide Find, Roots, IsRow;
  }

  lemma {:induction false} FindIsRow(orgs: seq<Org>, id: OrgId)
    requires UniqueIds(orgs)
    ensures forall o :: IsRow(orgs, id, o) <==> Find(orgs, id) == Some(o)
  {
    if orgs != [] {
      var n := |orgs| - 1;
      assert orgs == orgs[..n] + [orgs[n]];
      FindIsRow(orgs[..n], id);
      forall o | IsRow(orgs, id, o) && orgs[n].id == id ensures o == orgs[n] {
        var i :| 0 <= i < |orgs| && orgs[i] == o;
      }
    }
  }
}
