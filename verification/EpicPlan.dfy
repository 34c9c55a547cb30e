/**
  Planning the dependencies of an epic's children: a chain or a star of base edges, and synthetic bump
  tickets between the repositories of consumers and producers.
*/
module EpicPlan {
  import opened Options
  import opened Graphs

  /** A new child: whether it creates a repository, its own repository, and the packages its
      prerequisites name. */
  datatype Child = Child(id: string, initRepo: bool, repo: Option<string>, prereqs: seq<string>)

  type Edges = map<string, seq<string>>

  function DepsOf(edges: Edges, x: string): seq<string> {
    if x in edges then edges[x] else []
  }

  predicate DistinctIds(children: seq<Child>) {
    forall i, j :: 0 <= i < j < |children| ==> children[i].id != children[j].id
  }

  function IndexOf(children: seq<Child>, id: string): (r: Option<nat>)
    ensures r.Some? ==> r.value < |children| && children[r.value].id == id
    ensures r.None? ==> forall i :: 0 <= i < |children| ==> children[i].id != id
  {
    if children == [] then None
    else
      var n := |children| - 1;
      if children[n].id == id then Some(n) else IndexOf(children[..n], id)
  }

  // ---- Base edges ----

  function InitIndex(children: seq<Child>): (r: Option<nat>)
    ensures r.Some? ==> r.value < |children| && children[r.value].initRepo
    ensures r.Some? ==> forall i :: 0 <= i < r.value ==> !children[i].initRepo
    ensures r.None? ==> forall i :: 0 <= i < |children| ==> !children[i].initRepo
  {
    if children == [] then None
    else
      var n := |children| - 1;
      match InitIndex(children[..n])
      case Some(i) => Some(i)
      case None => if children[n].initRepo then Some(n) else None
  }

  function Anchor(predecessor: Option<string>): seq<string> {
    if predecessor.Some? then [predecessor.value] else []
  }

  /** What child `i` depends on before bumps: the init child (star) or the child before it (chain); the
      head of either depends on the predecessor, if any. */
  function BaseDeps(children: seq<Child>, predecessor: Option<string>, i: nat): seq<string>
    requires i < |children|
  {
    match InitIndex(children)
    case Some(k) => if i == k then Anchor(predecessor) else [children[k].id]
    case None => if i == 0 then Anchor(predecessor) else [children[i - 1].id]
  }

  function Ids(children: seq<Child>): set<string> { set c | c in children :: c.id }

  /** `_compute_base_edges`. */
  method ComputeBaseEdges(children: seq<Child>, predecessor: Option<string>) returns (edges: Edges)
    requires DistinctIds(children)
    ensures forall i: nat :: i < |children| ==> DepsOf(edges, children[i].id) == BaseDeps(children, predecessor, i)
    ensures edges.Keys <= Ids(children)
  {
    var initIndex := FindInit(children);
    if initIndex.Some? {
      edges := StarEdges(children, predecessor, initIndex.value);
    } else {
      edges := ChainEdges(children, predecessor);
    }
  }

  method StarEdges(children: seq<Child>, predecessor: Option<string>, k: nat) returns (edges: Edges)
    requires DistinctIds(children) && k < |children|
    ensures forall i: nat :: i < |children| ==>
      DepsOf(edges, children[i].id) == if i == k then Anchor(predecessor) else [children[k].id]
    ensures edges.Keys <= Ids(children)
  {
    edges := map[];
    var initId := children[k].id;
    if predecessor.Some? {
      edges := edges[initId := [predecessor.value]];
    }
    for i := 0 to |children|
      invariant DepsOf(edges, initId) == Anchor(predecessor)
      invariant forall j: nat :: j < i && j != k ==> DepsOf(edges, children[j].id) == [initId]
      invariant edges.Keys <= Ids(children)
    {
      if i != k {
        assert children[i].id != initId;
        edges := edges[children[i].id := [initId]];
      }
    }
  }

  method ChainEdges(children: seq<Child>, predecessor: Option<string>) returns (edges: Edges)
    requires DistinctIds(children)
    ensures forall i: nat :: i < |children| ==>
      DepsOf(edges, children[i].id) == if i == 0 then Anchor(predecessor) else [children[i - 1].id]
    ensures edges.Keys <= Ids(children)
  {
    edges := map[];
    for i := 0 to |children|
      invariant forall j: nat :: j < i ==>
        DepsOf(edges, children[j].id) == if j == 0 then Anchor(predecessor) else [children[j - 1].id]
      invariant forall j: nat :: i <= j < |children| ==> children[j].id !in edges
      invariant edges.Keys <= Ids(children)
    {
      if i == 0 {
        if predecessor.Some? {
          edges := edges[children[i].id := [predecessor.value]];
        }
      } else {
        edges := edges[children[i].id := [children[i - 1].id]];
      }
    }
  }

  method FindInit(children: seq<Child>) returns (r: Option<nat>)
    ensures r == InitIndex(children)
  {
    for i := 0 to |children|
      invariant forall j :: 0 <= j < i ==> !children[j].initRepo
    {
      if children[i].initRepo {
        return Some(i);
      }
    }
    r := None;
  }

  // ---- Who consumes what ----

  /** One prerequisite of a child that a sibling's repository provides. */
  datatype Want = Want(consumer: string, producer: string, id: string, package: string)

  /** The consumers in one repository of another repository among the siblings. */
  datatype Group = Group(consumer: string, producer: string, ids: seq<string>, packages: set<string>)

  function RepoChildren(children: seq<Child>, repo: string): seq<string> {
    if children == [] then []
    else
      var n := |children| - 1;
      RepoChildren(children[..n], repo) + if children[n].repo == Some(repo) then [children[n].id] else []
  }

  function WantOf(children: seq<Child>, packageRepo: map<string, string>, c: Child, package: string): Option<Want> {
    if c.repo.None? || package !in packageRepo then None
    else
      var producer := packageRepo[package];
      if producer == c.repo.value || RepoChildren(children, producer) == [] then None
      else Some(Want(c.repo.value, producer, c.id, package))
  }

  function WantsOfChild(children: seq<Child>, packageRepo: map<string, string>, c: Child,
                        packages: seq<string>): seq<Want> {
    if packages == [] then []
    else
      var n := |packages| - 1;
      WantsOfChild(children, packageRepo, c, packages[..n]) + AsSeq(WantOf(children, packageRepo, c, packages[n]))
  }

  function Wants(children: seq<Child>, packageRepo: map<string, string>, n: nat): seq<Want>
    requires n <= |children|
  {
    if n == 0 then []
    else
      Wants(children, packageRepo, n - 1)
      + WantsOfChild(children, packageRepo, children[n - 1], children[n - 1].prereqs)
  }

  predicate IsFor(g: Group, w: Want) { g.consumer == w.consumer && g.producer == w.producer }

  function GroupFor(groups: seq<Group>, w: Want): (r: Option<nat>)
    ensures r.Some? ==> r.value < |groups| && IsFor(groups[r.value], w)
    ensures r.None? ==> forall i :: 0 <= i < |groups| ==> !IsFor(groups[i], w)
  {
    if groups == [] then None
    else
      var n := |groups| - 1;
      if IsFor(groups[n], w) then Some(n) else GroupFor(groups[..n], w)
  }

  function AddWant(groups: seq<Group>, w: Want): seq<Group> {
    match GroupFor(groups, w)
    case None => groups + [Group(w.consumer, w.producer, [w.id], {w.package})]
    case Some(k) =>
      var g := groups[k];
      groups[k := g.(ids := if w.id in g.ids then g.ids else g.ids + [w.id], packages := g.packages + {w.package})]
  }

  function Collect(wants: seq<Want>): seq<Group> {
    if wants == [] then [] else AddWant(Collect(wants[..|wants| - 1]), wants[|wants| - 1])
  }

  lemma {:induction false} CollectMore(wants: seq<Want>, w: Option<Want>)
    ensures Collect(wants + AsSeq(w)) == if w.Some? then AddWant(Collect(wants), w.value) else Collect(wants)
  {
    if w.Some? {
      assert (wants + [w.value])[..|wants|] == wants;
    } else {
      assert wants + [] == wants;
    }
  }

  lemma {:induction false} WantsMore(children: seq<Child>, packageRepo: map<string, string>, c: Child,
                                     packages: seq<string>, j: nat)
    requires j < |packages|
    ensures WantsOfChild(children, packageRepo, c, packages[..j + 1])
         == WantsOfChild(children, packageRepo, c, packages[..j]) + AsSeq(WantOf(children, packageRepo, c, packages[j]))
  {
    assert packages[..j + 1][..j] == packages[..j];
  }

  lemma {:induction false} CollectStep(children: seq<Child>, packageRepo: map<string, string>, c: Child,
                                       wants: seq<Want>, j: nat)
    requires j < |c.prereqs|
    ensures var before := Collect(wants + WantsOfChild(children, packageRepo, c, c.prereqs[..j]));
      var w := WantOf(children, packageRepo, c, c.prereqs[j]);
      Collect(wants + WantsOfChild(children, packageRepo, c, c.prereqs[..j + 1]))
      == if w.Some? then AddWant(before, w.value) else before
  {
    var soFar := WantsOfChild(children, packageRepo, c, c.prereqs[..j]);
    var w := WantOf(children, packageRepo, c, c.prereqs[j]);
    WantsMore(children, packageRepo, c, c.prereqs, j);
    CollectMore(wants + soFar, w);
    assert wants + (soFar + AsSeq(w)) == wants + soFar + AsSeq(w);
  }

  /** The inner loop of `_group_bump_candidates`, over one child's packages. */
  method AddChildWants(children: seq<Child>, packageRepo: map<string, string>, c: Child, before: seq<Group>,
                       ghost wants: seq<Want>)
    returns (groups: seq<Group>)
    requires before == Collect(wants)
    ensures groups == Collect(wants + WantsOfChild(children, packageRepo, c, c.prereqs))
  {
    groups := before;
    assert wants + [] == wants;
    for j := 0 to |c.prereqs|
      invariant groups == Collect(wants + WantsOfChild(children, packageRepo, c, c.prereqs[..j]))
    {
      CollectStep(children, packageRepo, c, wants, j);
      var w := WantOf(children, packageRepo, c, c.prereqs[j]);
      if w.Some? {
        groups := AddWant(groups, w.value);
      }
    }
    assert c.prereqs[..|c.prereqs|] == c.prereqs;
  }

  /** `_group_bump_candidates`. */
  method GroupBumpCandidates(children: seq<Child>, packageRepo: map<string, string>) returns (groups: seq<Group>)
    ensures groups == Collect(Wants(children, packageRepo, |children|))
  {
    groups := [];
    for i := 0 to |children|
      invariant groups == Collect(Wants(children, packageRepo, i))
    {
      groups := AddChildWants(children, packageRepo, children[i], groups, Wants(children, packageRepo, i));
    }
  }

  ghost predicate DifferentPairs(groups: seq<Group>) {
    forall g, h :: 0 <= g < h < |groups| ==>
      groups[g].consumer != groups[h].consumer || groups[g].producer != groups[h].producer
  }

  ghost predicate WantedIn(wants: seq<Want>, g: Group, x: string) {
    exists i :: 0 <= i < |wants| && IsFor(g, wants[i]) && wants[i].id == x
  }

  ghost predicate OnlyWanted(wants: seq<Want>, groups: seq<Group>) {
    forall g, x :: 0 <= g < |groups| && x in groups[g].ids ==> WantedIn(wants, groups[g], x)
  }

  ghost predicate Served(groups: seq<Group>, w: Want) {
    exists g :: 0 <= g < |groups| && IsFor(groups[g], w) && w.id in groups[g].ids
  }

  /** Groups have different repository pairs, and hold exactly the wanting children. */
  ghost predicate Grouped(wants: seq<Want>, groups: seq<Group>) {
    && DifferentPairs(groups)
    && OnlyWanted(wants, groups)
    && (forall i :: 0 <= i < |wants| ==> Served(groups, wants[i]))
    && (forall g :: 0 <= g < |groups| ==> groups[g].ids != [])
  }

  lemma {:induction false} AddKeepsWanted(wants: seq<Want>, groups: seq<Group>, w: Want)
    requires OnlyWanted(wants, groups)
    ensures OnlyWanted(wants + [w], AddWant(groups, w))
  {
    var all, after := wants + [w], AddWant(groups, w);
    forall g, x | 0 <= g < |after| && x in after[g].ids
      ensures WantedIn(all, after[g], x)
    {
      if g < |groups| && x in groups[g].ids {
        assert WantedIn(wants, groups[g], x);
        var i :| 0 <= i < |wants| && IsFor(groups[g], wants[i]) && wants[i].id == x;
        assert all[i] == wants[i];
      } else {
        assert all[|wants|] == w;
      }
    }
  }

  lemma {:induction false} AddServes(groups: seq<Group>, w: Want)
    ensures Served(AddWant(groups, w), w)
  {
    var after := AddWant(groups, w);
    var g := if GroupFor(groups, w).Some? then GroupFor(groups, w).value else |groups|;
    assert IsFor(after[g], w) && w.id in after[g].ids;
  }

  lemma {:induction false} AddKeepsServed(groups: seq<Group>, w: Want, v: Want)
    requires Served(groups, v)
    ensures Served(AddWant(groups, w), v)
  {
    var after := AddWant(groups, w);
    var g :| 0 <= g < |groups| && IsFor(groups[g], v) && v.id in groups[g].ids;
    assert IsFor(after[g], v) && v.id in after[g].ids;
  }

  lemma {:induction false} AddKeepsPairs(groups: seq<Group>, w: Want)
    requires DifferentPairs(groups) && forall g :: 0 <= g < |groups| ==> groups[g].ids != []
    ensures DifferentPairs(AddWant(groups, w))
    ensures forall g :: 0 <= g < |AddWant(groups, w)| ==> AddWant(groups, w)[g].ids != []
  {
  }

  lemma {:induction false} ServedByGroups(front: seq<Want>, before: seq<Group>, w: Want)
    requires forall i :: 0 <= i < |front| ==> Served(before, front[i])
    ensures forall i :: 0 <= i < |front + [w]| ==> Served(AddWant(before, w), (front + [w])[i])
  {
    AddServes(before, w);
    forall i | 0 <= i < |front + [w]|
      ensures Served(AddWant(before, w), (front + [w])[i])
    {
      if i < |front| {
        AddKeepsServed(before, w, front[i]);
      }
    }
  }

  lemma {:induction false} CollectGroups(wants: seq<Want>)
    ensures Grouped(wants, Collect(wants))
  {
    if wants != [] {
      var n := |wants| - 1;
      var front, w := wants[..n], wants[n];
      assert wants == front + [w];
      CollectGroups(front);
      var before := Collect(front);
      AddKeepsWanted(front, before, w);
      AddKeepsPairs(before, w);
      ServedByGroups(front, before, w);
    }
  }

  // ---- Bump tickets ----

  /** `create` gives the id of the ticket made for a group, or nothing when that failed. */
  type Create = nat -> Option<string>

  /** The edges of one bump ticket: it depends on every producer, and each consumer on it. */
  function BumpEdges(children: seq<Child>, g: Group, bump: string): Edges {
    map[bump := RepoChildren(children, g.producer)] + map x | x in g.ids :: [bump]
  }

  /** Later groups override the edges of earlier ones. */
  function Extra(children: seq<Child>, groups: seq<Group>, create: Create, n: nat): Edges
    requires n <= |groups|
  {
    if n == 0 then map[]
    else
      var before := Extra(children, groups, create, n - 1);
      match create(n - 1)
      case None => before
      case Some(bump) => before + BumpEdges(children, groups[n - 1], bump)
  }

  /** `_detect_cross_repo_deps`. */
  method DetectCrossRepoDeps(children: seq<Child>, groups: seq<Group>, create: Create) returns (extra: Edges)
    ensures extra == Extra(children, groups, create, |groups|)
  {
    extra := map[];
    for g := 0 to |groups|
      invariant extra == Extra(children, groups, create, g)
    {
      var bump := create(g);
      if bump.Some? {
        extra := extra + BumpEdges(children, groups[g], bump.value);
      }
    }
  }

  /** The last group with a ticket that has the child as a consumer. */
  function LastGroup(groups: seq<Group>, create: Create, n: nat, id: string): (r: Option<nat>)
    requires n <= |groups|
    ensures r.Some? ==> r.value < n && create(r.value).Some? && id in groups[r.value].ids
    ensures forall g :: (if r.Some? then r.value + 1 else 0) <= g < n ==> !(create(g).Some? && id in groups[g].ids)
  {
    if n == 0 then None
    else if create(n - 1).Some? && id in groups[n - 1].ids then Some(n - 1)
    else LastGroup(groups, create, n - 1, id)
  }

  function BumpIndex(create: Create, n: nat, x: string): (r: Option<nat>)
    ensures r.Some? ==> r.value < n && create(r.value) == Some(x)
    ensures r.None? ==> forall g :: 0 <= g < n ==> create(g) != Some(x)
  {
    if n == 0 then None
    else if create(n - 1) == Some(x) then Some(n - 1)
    else BumpIndex(create, n - 1, x)
  }

  /** Ticket ids are new and different. */
  ghost predicate FreshBumps(children: seq<Child>, predecessor: Option<string>, create: Create, n: nat) {
    && (forall g :: 0 <= g < n && create(g).Some? ==>
          IndexOf(children, create(g).value).None? && create(g) != predecessor)
    && (forall g, h :: 0 <= g < h < n && create(g).Some? ==> create(g) != create(h))
  }

  /** Consumers are children. */
  ghost predicate ConsumersAreChildren(children: seq<Child>, groups: seq<Group>) {
    forall g, x :: 0 <= g < |groups| && x in groups[g].ids ==> IndexOf(children, x).Some?
  }

  function BumpDep(groups: seq<Group>, create: Create, n: nat, id: string): seq<string>
    requires n <= |groups|
  {
    match LastGroup(groups, create, n, id) case None => [] case Some(g) => [create(g).value]
  }

  /** What one more ticket changes. */
  lemma {:induction false} ExtraStep(children: seq<Child>, groups: seq<Group>, create: Create, n: nat, x: string)
    requires n < |groups|
    ensures DepsOf(Extra(children, groups, create, n + 1), x)
         == if create(n) == Some(x) && x !in groups[n].ids then RepoChildren(children, groups[n].producer)
            else if create(n).Some? && x in groups[n].ids && create(n) != Some(x) then [create(n).value]
            else if create(n) == Some(x) then DepsOf(BumpEdges(children, groups[n], x), x)
            else DepsOf(Extra(children, groups, create, n), x)
  {
  }

  lemma {:induction false} BumpDepStep(groups: seq<Group>, create: Create, n: nat, x: string)
    requires n < |groups|
    ensures BumpDep(groups, create, n + 1, x)
         == if create(n).Some? && x in groups[n].ids then [create(n).value] else BumpDep(groups, create, n, x)
  {
  }

  lemma {:induction false} BumpIndexStep(create: Create, n: nat, x: string)
    ensures BumpIndex(create, n + 1, x) == if create(n) == Some(x) then Some(n) else BumpIndex(create, n, x)
  {
  }

  lemma {:induction false} ConsumerIsNoBump(children: seq<Child>, predecessor: Option<string>, groups: seq<Group>,
                                            create: Create, k: nat, x: string)
    requires FreshBumps(children, predecessor, create, |groups|) && ConsumersAreChildren(children, groups)
    requires k < |groups| && x in groups[k].ids
    ensures forall g :: 0 <= g < |groups| ==> create(g) != Some(x)
    ensures forall n :: 0 <= n <= |groups| ==> BumpIndex(create, n, x) == None
  {
    assert IndexOf(children, x).Some?;
  }

  /** What the first `n` groups add: a ticket depends on its producers, a consumer on its last ticket. */
  function ExtraDep(children: seq<Child>, groups: seq<Group>, create: Create, n: nat, x: string): seq<string>
    requires n <= |groups|
  {
    match BumpIndex(create, n, x)
    case Some(g) => RepoChildren(children, groups[g].producer)
    case None => BumpDep(groups, create, n, x)
  }

  lemma {:induction false} ExtraDepStep(children: seq<Child>, groups: seq<Group>, create: Create, n: nat, x: string)
    requires n < |groups| && (x in groups[n].ids ==> BumpIndex(create, n, x).None?)
    ensures ExtraDep(children, groups, create, n + 1, x)
         == if create(n) == Some(x) then RepoChildren(children, groups[n].producer)
            else if create(n).Some? && x in groups[n].ids then [create(n).value]
            else ExtraDep(children, groups, create, n, x)
  {
    BumpDepStep(groups, create, n, x);
    BumpIndexStep(create, n, x);
  }

  lemma {:induction false} ExtraDeps(children: seq<Child>, predecessor: Option<string>, groups: seq<Group>,
                                     create: Create, n: nat, x: string)
    requires n <= |groups| && FreshBumps(children, predecessor, create, |groups|)
    requires ConsumersAreChildren(children, groups)
    ensures DepsOf(Extra(children, groups, create, n), x) == ExtraDep(children, groups, create, n, x)
  {
    forall k: nat, m: nat | k < |groups| && m <= |groups| && x in groups[k].ids
      ensures BumpIndex(create, m, x).None?
    {
      ConsumerIsNoBump(children, predecessor, groups, create, k, x);
    }
    ExtraDepsOfOne(children, groups, create, n, x);
  }

  lemma {:induction false} ExtraDepsOfOne(children: seq<Child>, groups: seq<Group>, create: Create, n: nat, x: string)
    requires n <= |groups|
    requires forall k: nat, m: nat :: k < |groups| && m <= |groups| && x in groups[k].ids ==>
      BumpIndex(create, m, x).None?
    ensures DepsOf(Extra(children, groups, create, n), x) == ExtraDep(children, groups, create, n, x)
  {
    if n > 0 {
      ExtraDepsOfOne(children, groups, create, n - 1, x);
      ExtraStep(children, groups, create, n - 1, x);
      ExtraDepStep(children, groups, create, n - 1, x);
      assert create(n - 1) == Some(x) ==> BumpIndex(create, n, x).Some?;
    }
  }

  // ---- The plan ----

  datatype Plan = Plan(children: seq<Child>, predecessor: Option<string>, groups: seq<Group>, create: Create)

  ghost predicate Valid(p: Plan) {
    && DistinctIds(p.children)
    && FreshBumps(p.children, p.predecessor, p.create, |p.groups|)
    && ConsumersAreChildren(p.children, p.groups)
    && (p.predecessor.Some? ==> IndexOf(p.children, p.predecessor.value).None?)
  }

  /** What each ticket depends on. */
  function Deps(p: Plan, x: string): seq<string> {
    match IndexOf(p.children, x)
    case Some(i) => BaseDeps(p.children, p.predecessor, i) + BumpDep(p.groups, p.create, |p.groups|, x)
    case None =>
      match BumpIndex(p.create, |p.groups|, x)
      case Some(g) => RepoChildren(p.children, p.groups[g].producer)
      case None => []
  }

  /** The plan the planner makes. */
  function Planned(children: seq<Child>, predecessor: Option<string>, packageRepo: map<string, string>,
                   create: Create): Plan {
    Plan(children, predecessor, Collect(Wants(children, packageRepo, |children|)), create)
  }

  /** `plan_child_dependencies` with cross-repository detection. */
  method PlanChildDependencies(children: seq<Child>, predecessor: Option<string>, packageRepo: map<string, string>,
                               create: Create)
    returns (edges: Edges)
    requires DistinctIds(children)
    requires predecessor.Some? ==> IndexOf(children, predecessor.value).None?
    requires forall n: nat :: FreshBumps(children, predecessor, create, n)
    ensures Valid(Planned(children, predecessor, packageRepo, create))
    ensures forall x :: DepsOf(edges, x) == Deps(Planned(children, predecessor, packageRepo, create), x)
  {
    var groups := GroupBumpCandidates(children, packageRepo);
    WantersAreChildren(children, packageRepo);
    ghost var p := Planned(children, predecessor, packageRepo, create);
    var base := ComputeBaseEdges(children, predecessor);
    var extra := DetectCrossRepoDeps(children, groups, create);
    edges := AddEdges(base, extra);
    forall x
      ensures DepsOf(edges, x) == Deps(p, x)
    {
      PlannedDeps(p, base, x);
    }
  }

  /** Extends or sets each ticket's list. */
  method AddEdges(base: Edges, extra: Edges) returns (edges: Edges)
    ensures forall x :: DepsOf(edges, x) == DepsOf(base, x) + DepsOf(extra, x)
  {
    edges := base;
    var left := extra.Keys;
    while left != {}
      invariant left <= extra.Keys
      invariant forall x :: DepsOf(edges, x) == DepsOf(base, x) + (if x in left then [] else DepsOf(extra, x))
    {
      var id :| id in left;
      left := left - {id};
      assert DepsOf(edges, id) == DepsOf(base, id);
      if id in edges {
        edges := edges[id := edges[id] + extra[id]];
      } else {
        edges := edges[id := extra[id]];
      }
    }
  }

  lemma {:induction false} NoBumpDep(groups: seq<Group>, create: Create, n: nat, x: string)
    requires n <= |groups| && forall g :: 0 <= g < n ==> x !in groups[g].ids
    ensures BumpDep(groups, create, n, x) == []
  {
  }

  lemma {:induction false} NoBump(create: Create, n: nat, x: string)
    requires forall g :: 0 <= g < n ==> create(g) != Some(x)
    ensures BumpIndex(create, n, x).None?
  {
  }

  lemma {:induction false} PlannedDeps(p: Plan, base: Edges, x: string)
    requires Valid(p)
    requires forall i: nat :: i < |p.children| ==>
      DepsOf(base, p.children[i].id) == BaseDeps(p.children, p.predecessor, i)
    requires base.Keys <= Ids(p.children)
    ensures DepsOf(base, x) + DepsOf(Extra(p.children, p.groups, p.create, |p.groups|), x) == Deps(p, x)
  {
    var n := |p.groups|;
    ExtraDeps(p.children, p.predecessor, p.groups, p.create, n, x);
    if IndexOf(p.children, x).Some? {
      forall g | 0 <= g < n
        ensures p.create(g) != Some(x)
      {
      }
      NoBump(p.create, n, x);
    } else {
      assert x !in Ids(p.children) && DepsOf(base, x) == [];
      NoBumpDep(p.groups, p.create, n, x);
    }
  }

  lemma {:induction false} WantersOfChild(children: seq<Child>, packageRepo: map<string, string>, c: Child,
                                          packages: seq<string>)
    ensures forall i :: 0 <= i < |WantsOfChild(children, packageRepo, c, packages)| ==>
      var w := WantsOfChild(children, packageRepo, c, packages)[i];
      w.id == c.id && c.repo == Some(w.consumer) && w.producer != w.consumer && RepoChildren(children, w.producer) != []
  {
    if packages != [] {
      WantersOfChild(children, packageRepo, c, packages[..|packages| - 1]);
    }
  }

  /** Every want is some child's, of another repository than its own. */
  lemma {:induction false} WantersAre(children: seq<Child>, packageRepo: map<string, string>, n: nat)
    requires n <= |children|
    ensures forall i :: 0 <= i < |Wants(children, packageRepo, n)| ==>
      var w := Wants(children, packageRepo, n)[i];
      && w.producer != w.consumer && RepoChildren(children, w.producer) != []
      && exists j :: 0 <= j < n && children[j].id == w.id && children[j].repo == Some(w.consumer)
  {
    if n > 0 {
      WantersAre(children, packageRepo, n - 1);
      WantersOfChild(children, packageRepo, children[n - 1], children[n - 1].prereqs);
    }
  }

  lemma {:induction false} WantersAreChildren(children: seq<Child>, packageRepo: map<string, string>)
    ensures ConsumersAreChildren(children, Collect(Wants(children, packageRepo, |children|)))
  {
    var wants := Wants(children, packageRepo, |children|);
    WantersAre(children, packageRepo, |children|);
    CollectGroups(wants);
    forall g, x | 0 <= g < |Collect(wants)| && x in Collect(wants)[g].ids
      ensures IndexOf(children, x).Some?
    {
      assert WantedIn(wants, Collect(wants)[g], x);
    }
  }

  // ---- What the plan guarantees ----

  predicate Edge(p: Plan, x: string, y: string) { y in Deps(p, x) }

  function EdgesOf(p: Plan): Relation { (x, y) => Edge(p, x, y) }

  /** The place of a child in the base order: the init child comes first in a star. */
  function Place(children: seq<Child>, i: nat): nat {
    if InitIndex(children) == Some(i) then 0 else i + 1
  }

  function HighestPlace(children: seq<Child>, repo: string, n: nat): (h: nat)
    requires n <= |children|
    ensures forall j :: 0 <= j < n && children[j].repo == Some(repo) ==> Place(children, j) <= h
    ensures h == 0 || exists j :: 0 <= j < n && children[j].repo == Some(repo) && Place(children, j) == h
  {
    if n == 0 then 0
    else
      var h := HighestPlace(children, repo, n - 1);
      if children[n - 1].repo == Some(repo) && Place(children, n - 1) > h then Place(children, n - 1) else h
  }

  /** Base order on children, and each bump ticket right above the last of its producers. */
  function Rank(p: Plan, x: string): int {
    match IndexOf(p.children, x)
    case Some(i) => 2 * Place(p.children, i) + 2
    case None =>
      match BumpIndex(p.create, |p.groups|, x)
      case Some(g) => 2 * HighestPlace(p.children, p.groups[g].producer, |p.children|) + 3
      case None => 0
  }

  /** Each child that waits for a bump ticket comes after all the producers of that ticket; in a star the
      init child waits for none. */
  ghost predicate ProducersFirst(p: Plan) {
    forall i, j, g :: 0 <= i < |p.children| && 0 <= j < |p.children| && 0 <= g < |p.groups|
      && LastGroup(p.groups, p.create, |p.groups|, p.children[i].id) == Some(g)
      && p.children[j].repo == Some(p.groups[g].producer)
      ==> Place(p.children, j) < Place(p.children, i)
  }

  lemma {:induction false} RepoChildrenAre(children: seq<Child>, repo: string)
    ensures forall x :: x in RepoChildren(children, repo) <==>
      exists j :: 0 <= j < |children| && children[j].id == x && children[j].repo == Some(repo)
  {
    if children != [] {
      var n := |children| - 1;
      RepoChildrenAre(children[..n], repo);
      forall x
        ensures x in RepoChildren(children, repo) <==>
          exists j :: 0 <= j < |children| && children[j].id == x && children[j].repo == Some(repo)
      {
        if x in RepoChildren(children[..n], repo) {
          var j :| 0 <= j < n && children[..n][j].id == x && children[..n][j].repo == Some(repo);
          assert children[j].id == x;
        }
        if exists j :: 0 <= j < |children| && children[j].id == x && children[j].repo == Some(repo) {
          var j :| 0 <= j < |children| && children[j].id == x && children[j].repo == Some(repo);
          if j < n {
            assert children[..n][j].id == x && children[..n][j].repo == Some(repo);
          }
        }
      }
    }
  }

  lemma {:induction false} IndexOfChild(children: seq<Child>, i: nat)
    requires DistinctIds(children) && i < |children|
    ensures IndexOf(children, children[i].id) == Some(i)
  {
  }

  lemma {:induction false} RankOfChild(p: Plan, i: nat)
    requires Valid(p) && i < |p.children|
    ensures Rank(p, p.children[i].id) == 2 * Place(p.children, i) + 2
  {
    IndexOfChild(p.children, i);
  }

  lemma {:induction false} BumpIndexOf(p: Plan, g: nat)
    requires Valid(p) && g < |p.groups| && p.create(g).Some?
    ensures IndexOf(p.children, p.create(g).value).None?
    ensures BumpIndex(p.create, |p.groups|, p.create(g).value) == Some(g)
  {
    var h := BumpIndex(p.create, |p.groups|, p.create(g).value);
    assert h.Some?;
    assert p.create(h.value) == p.create(g);
  }

  lemma {:induction false} RankOfBump(p: Plan, g: nat)
    requires Valid(p) && g < |p.groups| && p.create(g).Some?
    ensures Rank(p, p.create(g).value) == 2 * HighestPlace(p.children, p.groups[g].producer, |p.children|) + 3
  {
    BumpIndexOf(p, g);
  }

  lemma {:induction false} RankOfPredecessor(p: Plan)
    requires Valid(p) && p.predecessor.Some?
    ensures Rank(p, p.predecessor.value) == 0
  {
    NoBump(p.create, |p.groups|, p.predecessor.value);
  }

  lemma {:induction false} BaseEdgeDescends(p: Plan, i: nat, y: string)
    requires Valid(p) && i < |p.children| && y in BaseDeps(p.children, p.predecessor, i)
    ensures Rank(p, y) < Rank(p, p.children[i].id)
  {
    RankOfChild(p, i);
    match InitIndex(p.children) {
      case Some(k) =>
        RankOfChild(p, k);
        if i == k {
          RankOfPredecessor(p);
        }
      case None =>
        if i == 0 {
          RankOfPredecessor(p);
        } else {
          RankOfChild(p, i - 1);
        }
    }
  }

  lemma {:induction false} WaitDescends(p: Plan, i: nat, g: nat)
    requires Valid(p) && ProducersFirst(p) && i < |p.children|
    requires LastGroup(p.groups, p.create, |p.groups|, p.children[i].id) == Some(g)
    requires RepoChildren(p.children, p.groups[g].producer) != []
    ensures Rank(p, p.create(g).value) < Rank(p, p.children[i].id)
  {
    RankOfChild(p, i);
    RankOfBump(p, g);
    var repo := p.groups[g].producer;
    RepoChildrenAre(p.children, repo);
    assert RepoChildren(p.children, repo)[0] in RepoChildren(p.children, repo);
    var k :| 0 <= k < |p.children| && p.children[k].id == RepoChildren(p.children, repo)[0]
      && p.children[k].repo == Some(repo);
    assert Place(p.children, k) < Place(p.children, i);
    var h := HighestPlace(p.children, repo, |p.children|);
    if h != 0 {
      var j :| 0 <= j < |p.children| && p.children[j].repo == Some(repo) && Place(p.children, j) == h;
      assert h < Place(p.children, i);
    }
  }

  lemma {:induction false} BumpDescends(p: Plan, g: nat, y: string)
    requires Valid(p) && g < |p.groups| && p.create(g).Some? && y in RepoChildren(p.children, p.groups[g].producer)
    ensures Rank(p, y) < Rank(p, p.create(g).value)
  {
    RankOfBump(p, g);
    RepoChildrenAre(p.children, p.groups[g].producer);
    var j :| 0 <= j < |p.children| && p.children[j].id == y && p.children[j].repo == Some(p.groups[g].producer);
    RankOfChild(p, j);
  }

  /** Every group has a producer among the children. */
  ghost predicate GroupsHaveProducers(p: Plan) {
    forall g :: 0 <= g < |p.groups| ==> RepoChildren(p.children, p.groups[g].producer) != []
  }

  /** With producers before their consumers the plan has no cycle. */
  lemma {:induction false} PlanIsAcyclic(p: Plan)
    requires Valid(p) && GroupsHaveProducers(p) && ProducersFirst(p)
    ensures Acyclic(EdgesOf(p))
  {
    forall x, y | Edge(p, x, y)
      ensures Rank(p, y) < Rank(p, x)
    {
      EdgeDescends(p, x, y);
    }
    DescendingIsAcyclic(EdgesOf(p), x => Rank(p, x));
  }

  lemma {:induction false} EdgeDescends(p: Plan, x: string, y: string)
    requires Valid(p) && GroupsHaveProducers(p) && ProducersFirst(p) && Edge(p, x, y)
    ensures Rank(p, y) < Rank(p, x)
  {
    if IndexOf(p.children, x).Some? {
      var i := IndexOf(p.children, x).value;
      if y in BaseDeps(p.children, p.predecessor, i) {
        BaseEdgeDescends(p, i, y);
      } else {
        var g := LastGroup(p.groups, p.create, |p.groups|, x).value;
        WaitDescends(p, i, g);
      }
    } else {
      BumpDescends(p, BumpIndex(p.create, |p.groups|, x).value, y);
    }
  }

  // ---- Who waits for whom ----

  lemma {:induction false} ChildEdges(p: Plan, i: nat, y: string)
    requires Valid(p) && i < |p.children|
    ensures y in BaseDeps(p.children, p.predecessor, i) ==> Edge(p, p.children[i].id, y)
    ensures y in BumpDep(p.groups, p.create, |p.groups|, p.children[i].id) ==> Edge(p, p.children[i].id, y)
  {
    IndexOfChild(p.children, i);
  }

  function ChildIds(children: seq<Child>): seq<string> {
    seq(|children|, i requires 0 <= i < |children| => children[i].id)
  }

  lemma {:induction false} ChildrenFormChain(p: Plan)
    requires Valid(p) && InitIndex(p.children).None?
    ensures IsChain(EdgesOf(p), ChildIds(p.children))
  {
    forall k | 0 < k < |p.children|
      ensures Edge(p, p.children[k].id, p.children[k - 1].id)
    {
      ChildEdges(p, k, p.children[k - 1].id);
    }
  }

  /** In a chain every child depends on all earlier ones. */
  lemma {:induction false} ChainReaches(p: Plan, i: nat, j: nat)
    requires Valid(p) && InitIndex(p.children).None? && j <= i < |p.children|
    ensures Reaches(EdgesOf(p), p.children[i].id, p.children[j].id, i - j)
  {
    ChildrenFormChain(p);
    ChainReachesBack(EdgesOf(p), ChildIds(p.children), i, j);
  }

  /** In a star every other child depends on the init child. */
  lemma {:induction false} StarReaches(p: Plan, i: nat)
    requires Valid(p) && i < |p.children|
    requires InitIndex(p.children).Some? && InitIndex(p.children) != Some(i)
    ensures Reaches(EdgesOf(p), p.children[i].id, p.children[InitIndex(p.children).value].id, 1)
  {
    var y := p.children[InitIndex(p.children).value].id;
    ChildEdges(p, i, y);
    OneStep(EdgesOf(p), p.children[i].id, y);
  }

  /** The two steps from a child that waits for a group's ticket to a child of the producing repository. */
  lemma {:induction false} StepsToProducer(p: Plan, i: nat, g: nat, j: nat)
    requires Valid(p) && i < |p.children| && j < |p.children|
    requires LastGroup(p.groups, p.create, |p.groups|, p.children[i].id) == Some(g)
    requires p.children[j].repo == Some(p.groups[g].producer)
    ensures EdgesOf(p)(p.children[i].id, p.create(g).value) && EdgesOf(p)(p.create(g).value, p.children[j].id)
  {
    BumpIndexOf(p, g);
    RepoChildrenAre(p.children, p.groups[g].producer);
    ChildEdges(p, i, p.create(g).value);
    assert Edge(p, p.create(g).value, p.children[j].id);
  }

  /** A child that waits for a group's ticket depends on every child of the producing repository. */
  lemma {:induction false} ConsumerReachesProducers(p: Plan, i: nat, g: nat, j: nat)
    requires Valid(p) && i < |p.children| && j < |p.children|
    requires LastGroup(p.groups, p.create, |p.groups|, p.children[i].id) == Some(g)
    requires p.children[j].repo == Some(p.groups[g].producer)
    ensures Reaches(EdgesOf(p), p.children[i].id, p.children[j].id, 2)
  {
    StepsToProducer(p, i, g, j);
    OneStep(EdgesOf(p), p.create(g).value, p.children[j].id);
    OneMore(EdgesOf(p), p.children[i].id, p.create(g).value, p.children[j].id, 1);
  }

  /** With only one group that has the child, and its ticket created, that is the group it waits for; so
      a consumer of one producing repository waits for all of that repository's children. */
  lemma {:induction false} OnlyGroupIsLast(p: Plan, i: nat, g: nat)
    requires i < |p.children| && g < |p.groups| && p.create(g).Some? && p.children[i].id in p.groups[g].ids
    requires forall h :: 0 <= h < |p.groups| && h != g ==> p.children[i].id !in p.groups[h].ids
    ensures LastGroup(p.groups, p.create, |p.groups|, p.children[i].id) == Some(g)
  {
  }

  /** No child waits for a ticket on its own repository. */
  ghost predicate NoSelfConsumers(p: Plan) {
    forall i, g :: 0 <= i < |p.children| && 0 <= g < |p.groups| && p.children[i].id in p.groups[g].ids
      ==> p.children[i].repo != Some(p.groups[g].producer)
  }

  /** In a chain, waiting for the ticket of a repository with a child further on closes a cycle. */
  lemma {:induction false} LateProducerMakesCycle(p: Plan, i: nat, g: nat, j: nat)
    requires Valid(p) && InitIndex(p.children).None? && i <= j < |p.children|
    requires LastGroup(p.groups, p.create, |p.groups|, p.children[i].id) == Some(g)
    requires p.children[j].repo == Some(p.groups[g].producer)
    ensures !Acyclic(EdgesOf(p))
  {
    ChildrenFormChain(p);
    StepsToProducer(p, i, g, j);
    DetourMakesCycle(EdgesOf(p), ChildIds(p.children), i, p.create(g).value, j);
  }

  /** In a chain the plan is acyclic exactly when every child that waits for a bump ticket comes after all
      the children of the producing repository. */
  lemma {:induction false} ChainIsAcyclicExactly(p: Plan)
    requires Valid(p) && GroupsHaveProducers(p) && InitIndex(p.children).None?
    ensures Acyclic(EdgesOf(p)) <==> ProducersFirst(p)
  {
    if ProducersFirst(p) {
      PlanIsAcyclic(p);
    } else {
      var i, j, g :| 0 <= i < |p.children| && 0 <= j < |p.children| && 0 <= g < |p.groups|
        && LastGroup(p.groups, p.create, |p.groups|, p.children[i].id) == Some(g)
        && p.children[j].repo == Some(p.groups[g].producer)
        && Place(p.children, j) >= Place(p.children, i);
      LateProducerMakesCycle(p, i, g, j);
    }
  }

  /** In a star an init child that waits for a bump ticket always closes a cycle. */
  lemma {:induction false} WaitingInitChildMakesCycle(p: Plan, g: nat)
    requires Valid(p) && GroupsHaveProducers(p) && NoSelfConsumers(p) && InitIndex(p.children).Some?
    requires LastGroup(p.groups, p.create, |p.groups|, p.children[InitIndex(p.children).value].id) == Some(g)
    ensures !Acyclic(EdgesOf(p))
  {
    var k := InitIndex(p.children).value;
    var repo := p.groups[g].producer;
    RepoChildrenAre(p.children, repo);
    assert RepoChildren(p.children, repo)[0] in RepoChildren(p.children, repo);
    var j :| 0 <= j < |p.children| && p.children[j].id == RepoChildren(p.children, repo)[0]
      && p.children[j].repo == Some(repo);
    ConsumerReachesProducers(p, k, g, j);
    StarReaches(p, j);
    CycleBreaksIt(EdgesOf(p), p.children[k].id, p.children[j].id, 2, 1);
  }

  /** `x` and `y` are children, and `x` waits for a ticket that depends on `y`. */
  ghost predicate Waits(p: Plan, x: string, y: string) {
    exists i: nat, j: nat, g: nat :: i < |p.children| && j < |p.children| && g < |p.groups|
      && p.children[i].id == x && p.children[j].id == y
      && LastGroup(p.groups, p.create, |p.groups|, p.children[i].id) == Some(g)
      && p.children[j].repo == Some(p.groups[g].producer)
  }

  ghost function WaitsOf(p: Plan): Relation { (x: string, y: string) => Waits(p, x, y) }

  lemma {:induction false} WaitIsTwoEdges(p: Plan, x: string, y: string)
    requires Valid(p) && Waits(p, x, y)
    ensures TwoSteps(EdgesOf(p), x, y)
  {
    var i: nat, j: nat, g: nat :| i < |p.children| && j < |p.children| && g < |p.groups|
      && p.children[i].id == x && p.children[j].id == y
      && LastGroup(p.groups, p.create, |p.groups|, p.children[i].id) == Some(g)
      && p.children[j].repo == Some(p.groups[g].producer);
    StepsToProducer(p, i, g, j);
  }

  lemma {:induction false} WaitCycleIsCycle(p: Plan)
    requires Valid(p) && !Acyclic(WaitsOf(p))
    ensures !Acyclic(EdgesOf(p))
  {
    var x, n: nat :| n >= 1 && Reaches(WaitsOf(p), x, x, n);
    forall a, b | Waits(p, a, b)
      ensures TwoSteps(EdgesOf(p), a, b)
    {
      WaitIsTwoEdges(p, a, b);
    }
    DoubleSteps(EdgesOf(p), WaitsOf(p), x, x, n);
  }

  predicate IsChild(children: seq<Child>, x: string) { IndexOf(children, x).Some? }

  /** In a star whose init child waits for nothing, the init child and the predecessor are dead ends. */
  predicate DeadEnd(p: Plan, x: string) {
    Some(x) == p.predecessor || (InitIndex(p.children).Some? && x == p.children[InitIndex(p.children).value].id)
  }

  ghost predicate InitWaits(p: Plan) {
    && InitIndex(p.children).Some?
    && LastGroup(p.groups, p.create, |p.groups|, p.children[InitIndex(p.children).value].id).Some?
  }

  lemma {:induction false} PredecessorHasNoDeps(p: Plan, x: string)
    requires Valid(p) && p.predecessor == Some(x)
    ensures Deps(p, x) == []
  {
    assert forall g :: 0 <= g < |p.groups| ==> p.create(g) != Some(x);
    NoBump(p.create, |p.groups|, x);
  }

  lemma {:induction false} InitDeps(p: Plan)
    requires Valid(p) && InitIndex(p.children).Some? && !InitWaits(p)
    ensures Deps(p, p.children[InitIndex(p.children).value].id) == Anchor(p.predecessor)
  {
    IndexOfChild(p.children, InitIndex(p.children).value);
  }

  lemma {:induction false} DeadEndsAreClosed(p: Plan)
    requires Valid(p) && InitIndex(p.children).Some? && !InitWaits(p)
    ensures Closed(EdgesOf(p), (x: string) => DeadEnd(p, x))
  {
    forall a, b | DeadEnd(p, a) && Edge(p, a, b)
      ensures DeadEnd(p, b)
    {
      if Some(a) == p.predecessor {
        PredecessorHasNoDeps(p, a);
      } else {
        InitDeps(p);
      }
    }
  }

  lemma {:induction false} NoCycleAtDeadEnd(p: Plan, x: string, n: nat)
    requires Valid(p) && InitIndex(p.children).Some? && !InitWaits(p) && DeadEnd(p, x) && n >= 1
    ensures !Reaches(EdgesOf(p), x, x, n)
  {
    if Reaches(EdgesOf(p), x, x, n) {
      var z :| EdgesOf(p)(x, z) && Reaches(EdgesOf(p), z, x, n - 1);
      if Some(x) == p.predecessor {
        PredecessorHasNoDeps(p, x);
      } else {
        InitDeps(p);
        PredecessorHasNoDeps(p, z);
        InitIsNotPredecessor(p);
      }
    }
  }

  lemma {:induction false} InitIsNotPredecessor(p: Plan)
    requires Valid(p) && InitIndex(p.children).Some?
    ensures p.predecessor != Some(p.children[InitIndex(p.children).value].id)
  {
    IndexOfChild(p.children, InitIndex(p.children).value);
  }

  /** Where the steps of a star lead from a child that is no dead end. */
  lemma {:induction false} ChildStep(p: Plan, a: string, b: string)
    requires Valid(p) && InitIndex(p.children).Some? && IsChild(p.children, a) && !DeadEnd(p, a) && Edge(p, a, b)
    ensures DeadEnd(p, b) || Joins(EdgesOf(p), WaitsOf(p), (x: string) => IsChild(p.children, x), a, b)
  {
    var i := IndexOf(p.children, a).value;
    if !DeadEnd(p, b) {
      var g := LastGroup(p.groups, p.create, |p.groups|, a).value;
      BumpIndexOf(p, g);
      forall c | Edge(p, b, c)
        ensures IsChild(p.children, c) && Waits(p, a, c)
      {
        BumpStep(p, g, c);
        var j :| 0 <= j < |p.children| && p.children[j].id == c && p.children[j].repo == Some(p.groups[g].producer);
        assert p.children[i].id == a;
      }
    }
  }

  lemma {:induction false} BumpStep(p: Plan, g: nat, c: string)
    requires Valid(p) && g < |p.groups| && p.create(g).Some? && Edge(p, p.create(g).value, c)
    ensures IsChild(p.children, c)
    ensures exists j ::
      0 <= j < |p.children| && p.children[j].id == c && p.children[j].repo == Some(p.groups[g].producer)
  {
    BumpIndexOf(p, g);
    RepoChildrenAre(p.children, p.groups[g].producer);
    var j :| 0 <= j < |p.children| && p.children[j].id == c && p.children[j].repo == Some(p.groups[g].producer);
    IndexOfChild(p.children, j);
  }

  lemma {:induction false} OtherStep(p: Plan, b: string, c: string)
    requires Valid(p) && !IsChild(p.children, b) && Edge(p, b, c)
    ensures IsChild(p.children, c)
  {
    BumpStep(p, BumpIndex(p.create, |p.groups|, b).value, c);
  }

  lemma {:induction false} StarAlternates(p: Plan)
    requires Valid(p) && InitIndex(p.children).Some? && !InitWaits(p)
    ensures Alternates(EdgesOf(p), WaitsOf(p), (x: string) => IsChild(p.children, x), (x: string) => DeadEnd(p, x))
  {
    DeadEndsAreClosed(p);
    forall a, b | IsChild(p.children, a) && !DeadEnd(p, a) && Edge(p, a, b)
      ensures DeadEnd(p, b) || Joins(EdgesOf(p), WaitsOf(p), (x: string) => IsChild(p.children, x), a, b)
    {
      ChildStep(p, a, b);
    }
    forall b, c | !IsChild(p.children, b) && Edge(p, b, c)
      ensures IsChild(p.children, c)
    {
      OtherStep(p, b, c);
    }
  }

  /** A star is acyclic exactly when its init child waits for no ticket and no child waits, over tickets
      alone, for itself. */
  lemma {:induction false} StarIsAcyclicExactly(p: Plan)
    requires Valid(p) && GroupsHaveProducers(p) && NoSelfConsumers(p) && InitIndex(p.children).Some?
    ensures Acyclic(EdgesOf(p)) <==> !InitWaits(p) && Acyclic(WaitsOf(p))
  {
    if InitWaits(p) {
      var init := p.children[InitIndex(p.children).value].id;
      WaitingInitChildMakesCycle(p, LastGroup(p.groups, p.create, |p.groups|, init).value);
    } else if !Acyclic(WaitsOf(p)) {
      WaitCycleIsCycle(p);
    } else if !Acyclic(EdgesOf(p)) {
      var x, n: nat :| n >= 1 && Reaches(EdgesOf(p), x, x, n);
      NoLiveCycle(p, x, n);
    }
  }

  lemma {:induction false} NoLiveCycle(p: Plan, x: string, n: nat)
    requires Valid(p) && InitIndex(p.children).Some? && !InitWaits(p) && Acyclic(WaitsOf(p)) && n >= 1
    ensures !Reaches(EdgesOf(p), x, x, n)
  {
    if DeadEnd(p, x) {
      NoCycleAtDeadEnd(p, x, n);
    } else if Reaches(EdgesOf(p), x, x, n) {
      StarAlternates(p);
      CycleCoarsens(EdgesOf(p), WaitsOf(p), (y: string) => IsChild(p.children, y), (y: string) => DeadEnd(p, y), x, n);
    }
  }

  lemma {:induction false} WantedElsewhere(children: seq<Child>, packageRepo: map<string, string>, g: Group, i: nat)
    requires DistinctIds(children) && i < |children|
    requires WantedIn(Wants(children, packageRepo, |children|), g, children[i].id)
    ensures children[i].repo == Some(g.consumer) && g.producer != g.consumer
  {
    var wants := Wants(children, packageRepo, |children|);
    WantersAre(children, packageRepo, |children|);
    var n :| 0 <= n < |wants| && IsFor(g, wants[n]) && wants[n].id == children[i].id;
    var j :| 0 <= j < |children| && children[j].id == wants[n].id && children[j].repo == Some(wants[n].consumer);
    assert i == j;
  }

  lemma {:induction false} WantedHasProducers(children: seq<Child>, packageRepo: map<string, string>, g: Group,
                                              x: string)
    requires WantedIn(Wants(children, packageRepo, |children|), g, x)
    ensures RepoChildren(children, g.producer) != []
  {
    WantersAre(children, packageRepo, |children|);
  }

  /** Plans made by the planner satisfy what the guarantees ask of groups. */
  lemma {:induction false} PlannedGroups(children: seq<Child>, predecessor: Option<string>,
                                         packageRepo: map<string, string>, create: Create)
    requires DistinctIds(children)
    ensures var p := Planned(children, predecessor, packageRepo, create);
      NoSelfConsumers(p) && GroupsHaveProducers(p)
  {
    var wants := Wants(children, packageRepo, |children|);
    var groups := Collect(wants);
    CollectGroups(wants);
    forall i: nat, g: nat | i < |children| && g < |groups| && children[i].id in groups[g].ids
      ensures children[i].repo != Some(groups[g].producer)
    {
      WantedElsewhere(children, packageRepo, groups[g], i);
    }
    forall g: nat | g < |groups|
      ensures RepoChildren(children, groups[g].producer) != []
    {
      assert groups[g].ids[0] in groups[g].ids;
      WantedHasProducers(children, packageRepo, groups[g], groups[g].ids[0]);
    }
  }

  // ---- Which tickets a consumer waits for ----

  /** The group's ticket was created and its consumers have the child. */
  predicate Listed(p: Plan, g: nat, x: string)
    requires g < |p.groups|
  {
    p.create(g).Some? && x in p.groups[g].ids
  }

  predicate IsLast(p: Plan, g: nat, x: string) { LastGroup(p.groups, p.create, |p.groups|, x) == Some(g) }

  lemma {:induction false} BaseDepsAreNoTickets(p: Plan, i: nat, g: nat)
    requires Valid(p) && i < |p.children| && g < |p.groups| && p.create(g).Some?
    ensures p.create(g).value !in BaseDeps(p.children, p.predecessor, i)
  {
    assert IndexOf(p.children, p.create(g).value).None? && p.create(g) != p.predecessor;
  }

  /** A child depends on a ticket directly exactly when the ticket is the last one made for it. */
  lemma {:induction false} TicketEdgeExactly(p: Plan, i: nat, g: nat)
    requires Valid(p) && i < |p.children| && g < |p.groups| && p.create(g).Some?
    ensures Edge(p, p.children[i].id, p.create(g).value) <==> IsLast(p, g, p.children[i].id)
  {
    var x := p.children[i].id;
    IndexOfChild(p.children, i);
    BaseDepsAreNoTickets(p, i, g);
    var last := LastGroup(p.groups, p.create, |p.groups|, x);
    if last.Some? && last.value != g {
      assert p.create(last.value) != p.create(g);
    }
  }

  ghost predicate WaitsForAll(p: Plan, x: string) {
    forall g: nat | g < |p.groups| && Listed(p, g, x) :: Edge(p, x, p.create(g).value)
  }

  ghost predicate ListedAtMostOnce(p: Plan, x: string) {
    forall g: nat, h: nat | g < |p.groups| && h < |p.groups| && Listed(p, g, x) && Listed(p, h, x) :: g == h
  }

  /** A child depends directly on the ticket of every group that lists it if and only if at most one group with a
      ticket lists it: any further one is lost. */
  lemma {:induction false} AllTicketsKeptExactly(p: Plan, i: nat)
    requires Valid(p) && i < |p.children|
    ensures WaitsForAll(p, p.children[i].id) <==> ListedAtMostOnce(p, p.children[i].id)
  {
    var x := p.children[i].id;
    forall g: nat | g < |p.groups| && Listed(p, g, x)
      ensures Edge(p, x, p.create(g).value) <==> IsLast(p, g, x)
    {
      TicketEdgeExactly(p, i, g);
    }
    var last := LastGroup(p.groups, p.create, |p.groups|, x);
    if last.Some? {
      assert Listed(p, last.value, x);
      forall g: nat | g < |p.groups| && Listed(p, g, x) && Edge(p, x, p.create(g).value)
        ensures g == last.value
      {
        assert IsLast(p, g, x);
      }
    }
  }

  /** Only children whose last ticket it is lead to a ticket. */
  lemma {:induction false} WhoseTicket(p: Plan, y: string, g: nat)
    requires Valid(p) && g < |p.groups| && p.create(g).Some?
    ensures Edge(p, y, p.create(g).value) <==> IsChild(p.children, y) && IsLast(p, g, y)
  {
    var t := p.create(g).value;
    assert IndexOf(p.children, t).None?;
    if IsChild(p.children, y) {
      TicketEdgeExactly(p, IndexOf(p.children, y).value, g);
    } else if Edge(p, y, t) {
      OtherStep(p, y, t);
    }
  }

  ghost predicate Depends(p: Plan, x: string, y: string) { exists n: nat :: Reaches(EdgesOf(p), x, y, n) }

  ghost predicate DependsOverWaits(p: Plan, x: string, y: string) { exists n: nat :: Reaches(WaitsOf(p), x, y, n) }

  lemma {:induction false} LastStep(edge: Relation, x: string, y: string, n: nat) returns (z: string)
    requires n >= 1 && Reaches(edge, x, y, n)
    ensures Reaches(edge, x, z, n - 1) && edge(z, y)
    decreases n
  {
    var first :| edge(x, first) && Reaches(edge, first, y, n - 1);
    if n == 1 {
      z := x;
    } else {
      z := LastStep(edge, first, y, n - 1);
    }
  }

  /** Whoever depends on a ticket, however far, depends on or is a child whose last ticket it is. */
  lemma {:induction false} TicketThroughWaiter(p: Plan, x: string, g: nat)
    requires Valid(p) && g < |p.groups| && p.create(g).Some? && IsChild(p.children, x)
    ensures Depends(p, x, p.create(g).value)
       <==> exists y :: IsChild(p.children, y) && IsLast(p, g, y) && Depends(p, x, y)
  {
    var t := p.create(g).value;
    assert IndexOf(p.children, t).None?;
    if Depends(p, x, t) {
      var n: nat :| Reaches(EdgesOf(p), x, t, n);
      var y := LastStep(EdgesOf(p), x, t, n);
      WhoseTicket(p, y, g);
      assert Depends(p, x, y);
    }
    if y :| IsChild(p.children, y) && IsLast(p, g, y) && Depends(p, x, y) {
      var n: nat :| Reaches(EdgesOf(p), x, y, n);
      WhoseTicket(p, y, g);
      OneStep(EdgesOf(p), y, t);
      ReachFurther(EdgesOf(p), x, y, t, n, 1);
    }
  }

  /** In a star whose init child waits for nothing, a child depends on a ticket exactly when it is, or waits over
      tickets alone for, a child whose last ticket that is. */
  lemma {:induction false} StarTicketExactly(p: Plan, x: string, g: nat)
    requires Valid(p) && g < |p.groups| && p.create(g).Some? && IsChild(p.children, x)
    requires InitIndex(p.children).Some? && !InitWaits(p)
    ensures Depends(p, x, p.create(g).value)
       <==> exists y :: IsChild(p.children, y) && IsLast(p, g, y) && DependsOverWaits(p, x, y)
  {
    TicketThroughWaiter(p, x, g);
    forall y | IsChild(p.children, y) && IsLast(p, g, y)
      ensures Depends(p, x, y) <==> DependsOverWaits(p, x, y)
    {
      WaiterReached(p, x, y, g);
    }
  }

  lemma {:induction false} WaiterReached(p: Plan, x: string, y: string, g: nat)
    requires Valid(p) && IsChild(p.children, x) && IsChild(p.children, y) && IsLast(p, g, y)
    requires InitIndex(p.children).Some? && !InitWaits(p)
    ensures Depends(p, x, y) <==> DependsOverWaits(p, x, y)
  {
    if Depends(p, x, y) {
      var n: nat :| Reaches(EdgesOf(p), x, y, n);
      StarAlternates(p);
      var m := WalkCoarsens(EdgesOf(p), WaitsOf(p), (z: string) => IsChild(p.children, z),
                            (z: string) => DeadEnd(p, z), x, y, n);
    }
    if DependsOverWaits(p, x, y) {
      var n: nat :| Reaches(WaitsOf(p), x, y, n);
      forall a, b | Waits(p, a, b)
        ensures TwoSteps(EdgesOf(p), a, b)
      {
        WaitIsTwoEdges(p, a, b);
      }
      DoubleSteps(EdgesOf(p), WaitsOf(p), x, y, n);
    }
  }

  /** In a chain without a cycle, a child depends on a ticket exactly when it, or an earlier child, has it as its
      last. */
  lemma {:induction false} ChainTicketExactly(p: Plan, i: nat, g: nat)
    requires Valid(p) && i < |p.children| && g < |p.groups| && p.create(g).Some?
    requires InitIndex(p.children).None? && GroupsHaveProducers(p) && ProducersFirst(p)
    ensures Depends(p, p.children[i].id, p.create(g).value)
       <==> exists j: nat :: j <= i && IsLast(p, g, p.children[j].id)
  {
    var x := p.children[i].id;
    IndexOfChild(p.children, i);
    TicketThroughWaiter(p, x, g);
    if y :| IsChild(p.children, y) && IsLast(p, g, y) && Depends(p, x, y) {
      var j := IndexOf(p.children, y).value;
      OnlyEarlier(p, i, j);
      assert IsLast(p, g, p.children[j].id);
    }
    if j: nat :| j <= i && IsLast(p, g, p.children[j].id) {
      IndexOfChild(p.children, j);
      ChainReaches(p, i, j);
      assert IsChild(p.children, p.children[j].id) && Depends(p, x, p.children[j].id);
    }
  }

  lemma {:induction false} OnlyEarlier(p: Plan, i: nat, j: nat)
    requires Valid(p) && i < |p.children| && j < |p.children|
    requires InitIndex(p.children).None? && GroupsHaveProducers(p) && ProducersFirst(p)
    requires Depends(p, p.children[i].id, p.children[j].id)
    ensures j <= i
  {
    var n: nat :| Reaches(EdgesOf(p), p.children[i].id, p.children[j].id, n);
    forall x, y | Edge(p, x, y)
      ensures Rank(p, y) < Rank(p, x)
    {
      EdgeDescends(p, x, y);
    }
    RankFalls(EdgesOf(p), x => Rank(p, x), p.children[i].id, p.children[j].id, n);
    RankOfChild(p, i);
    RankOfChild(p, j);
  }

  /** A star of four children, the last a consumer of the two before it. */
  const TWO_PRODUCERS := [Child("init", true, None, []), Child("a", false, Some("A"), []),
                          Child("b", false, Some("B"), []), Child("c", false, Some("C"), ["pa", "pb"])]

  const TWO_PACKAGES: map<string, string> := map["pa" := "A", "pb" := "B"]

  function TwoBumps(g: nat): Option<string> {
    if g == 0 then Some("bump-a") else if g == 1 then Some("bump-b") else None
  }

  const TWO_TICKETS := Planned(TWO_PRODUCERS, None, TWO_PACKAGES, TwoBumps)

  lemma {:induction false} ProducerA()
    ensures RepoChildren(TWO_PRODUCERS, "A") == ["a"]
  {
    var c := TWO_PRODUCERS;
    assert c[..3][..2] == c[..2] && c[..2][..1] == c[..1] && c[..1][..0] == [];
    assert RepoChildren(c[..1], "A") == [];
    assert RepoChildren(c[..2], "A") == ["a"];
    assert RepoChildren(c[..3], "A") == ["a"];
  }

  lemma {:induction false} WantsOfC()
    ensures WantsOfChild(TWO_PRODUCERS, TWO_PACKAGES, TWO_PRODUCERS[3], ["pa", "pb"])
         == [Want("C", "A", "c", "pa"), Want("C", "B", "c", "pb")]
  {
    ProducerA();
    OnlyProducerIsB();
    var c := TWO_PRODUCERS[3];
    assert ["pa", "pb"][..1] == ["pa"] && ["pa"][..0] == [];
    assert WantOf(TWO_PRODUCERS, TWO_PACKAGES, c, "pa") == Some(Want("C", "A", "c", "pa"));
    assert WantOf(TWO_PRODUCERS, TWO_PACKAGES, c, "pb") == Some(Want("C", "B", "c", "pb"));
    assert WantsOfChild(TWO_PRODUCERS, TWO_PACKAGES, c, []) == [];
    assert WantsOfChild(TWO_PRODUCERS, TWO_PACKAGES, c, ["pa"]) == [Want("C", "A", "c", "pa")];
  }

  lemma {:induction false} TwoWants()
    ensures Wants(TWO_PRODUCERS, TWO_PACKAGES, 4) == [Want("C", "A", "c", "pa"), Want("C", "B", "c", "pb")]
  {
    WantsOfC();
    var children := TWO_PRODUCERS;
    assert Wants(children, TWO_PACKAGES, 0) == [];
    assert Wants(children, TWO_PACKAGES, 1) == [];
    assert Wants(children, TWO_PACKAGES, 2) == [];
    assert Wants(children, TWO_PACKAGES, 3) == [];
  }

  /** The planner makes two tickets for one consumer. */
  lemma {:induction false} TwoGroups()
    ensures TWO_TICKETS.groups == [Group("C", "A", ["c"], {"pa"}), Group("C", "B", ["c"], {"pb"})]
  {
    TwoWants();
    var first, second := Want("C", "A", "c", "pa"), Want("C", "B", "c", "pb");
    assert [first, second][..1] == [first] && [first][..0] == [];
    assert Collect([]) == [];
    assert Collect([first]) == [Group("C", "A", ["c"], {"pa"})];
  }

  lemma {:induction false} TwoBumpsAreFresh()
    ensures FreshBumps(TWO_PRODUCERS, None, TwoBumps, 2)
  {
    NotAChild("bump-a");
    NotAChild("bump-b");
  }

  lemma {:induction false} NotAChild(x: string)
    requires x == "bump-a" || x == "bump-b"
    ensures IndexOf(TWO_PRODUCERS, x).None?
  {
    assert forall i :: 0 <= i < 4 ==> |TWO_PRODUCERS[i].id| < |x|;
  }

  lemma {:induction false} TwoTicketsAreValid()
    ensures Valid(TWO_TICKETS)
  {
    WantersAreChildren(TWO_PRODUCERS, TWO_PACKAGES);
    TwoGroups();
    TwoBumpsAreFresh();
    assert DistinctIds(TWO_PRODUCERS);
  }

  const REACHED_FROM_C := {"init", "b", "c", "bump-b"}

  lemma {:induction false} FourAreClosed(deps: string -> seq<string>, x: string, y: string)
    requires deps("init") == [] && deps("b") == ["init"] && deps("c") == ["init", "bump-b"] && deps("bump-b") == ["b"]
    requires x in REACHED_FROM_C && y in deps(x)
    ensures y in REACHED_FROM_C
  {
  }

  lemma {:induction false} ReachedIsClosed(x: string, y: string)
    requires x in REACHED_FROM_C && y in Deps(TWO_TICKETS, x)
    ensures y in REACHED_FROM_C
  {
    LostTicketDeps();
    FourAreClosed(z => Deps(TWO_TICKETS, z), x, y);
  }

  /** Only the last of a consumer's tickets is kept: in this plan of the planner's own, the consumer of two
      repositories is listed for both tickets and never waits for the first, nor for its producer. */
  lemma {:induction false} FirstOfTwoTicketsIsLost(n: nat)
    ensures Valid(TWO_TICKETS) && |TWO_TICKETS.groups| == 2 && Listed(TWO_TICKETS, 0, "c")
      && Listed(TWO_TICKETS, 1, "c")
    ensures !Reaches(EdgesOf(TWO_TICKETS), "c", "a", n) && !Reaches(EdgesOf(TWO_TICKETS), "c", "bump-a", n)
  {
    TwoTicketsAreValid();
    TwoGroups();
    forall x, y | x in REACHED_FROM_C && Edge(TWO_TICKETS, x, y)
      ensures y in REACHED_FROM_C
    {
      ReachedIsClosed(x, y);
    }
    NeverReached(EdgesOf(TWO_TICKETS), REACHED_FROM_C, "c", "a", n);
    NeverReached(EdgesOf(TWO_TICKETS), REACHED_FROM_C, "c", "bump-a", n);
  }

  lemma {:induction false} InitIsFirst(children: seq<Child>)
    requires children != [] && children[0].initRepo
    ensures InitIndex(children) == Some(0)
  {
  }

  lemma {:induction false} ChildDeps(i: nat)
    requires i < 4
    ensures Deps(TWO_TICKETS, TWO_PRODUCERS[i].id)
         == (if i == 0 then [] else ["init"])
            + BumpDep(TWO_TICKETS.groups, TwoBumps, |TWO_TICKETS.groups|, TWO_PRODUCERS[i].id)
  {
    InitIsFirst(TWO_PRODUCERS);
    TwoTicketsAreValid();
    TwoGroups();
    IndexOfChild(TWO_PRODUCERS, i);
  }

  lemma {:induction false} LastTickets(groups: seq<Group>, x: string)
    requires |groups| == 2 && groups[0].ids == groups[1].ids == ["c"]
    ensures BumpDep(groups, TwoBumps, 2, x) == if x == "c" then ["bump-b"] else []
  {
    assert LastGroup(groups, TwoBumps, 0, x) == None;
    assert LastGroup(groups, TwoBumps, 1, x) == if x == "c" then Some(0) else None;
  }

  lemma {:induction false} LostTicketDeps()
    ensures Deps(TWO_TICKETS, "init") == [] && Deps(TWO_TICKETS, "b") == ["init"]
    ensures Deps(TWO_TICKETS, "c") == ["init", "bump-b"] && Deps(TWO_TICKETS, "bump-b") == ["b"]
  {
    DepsOfChild(0);
    DepsOfChild(2);
    DepsOfChild(3);
    TicketDeps();
  }

  lemma {:induction false} DepsOfChild(i: nat)
    requires i < 4
    ensures Deps(TWO_TICKETS, TWO_PRODUCERS[i].id)
         == (if i == 0 then [] else ["init"]) + if TWO_PRODUCERS[i].id == "c" then ["bump-b"] else []
  {
    TwoGroups();
    LastTickets(TWO_TICKETS.groups, TWO_PRODUCERS[i].id);
    ChildDeps(i);
  }

  lemma {:induction false} TicketDeps()
    ensures Deps(TWO_TICKETS, "bump-b") == ["b"]
  {
    TwoGroups();
    NotAChild("bump-b");
    assert BumpIndex(TwoBumps, 2, "bump-b") == Some(1);
    OnlyProducerIsB();
  }

  lemma {:induction false} OnlyProducerIsB()
    ensures RepoChildren(TWO_PRODUCERS, "B") == ["b"]
  {
    var c := TWO_PRODUCERS;
    assert c[..3][..2] == c[..2] && c[..2][..1] == c[..1] && c[..1][..0] == [];
    assert RepoChildren(c[..1], "B") == [];
    assert RepoChildren(c[..2], "B") == [];
    assert RepoChildren(c[..3], "B") == ["b"];
  }
}
