/** Which Cargo packages a release depends on, and how (scripts/macos_release_compliance/collectors.py). */
module CargoRoles {
  import opened Wrappers

  type Id = string

  const RUST_RELEASE_ROOTS := {"roammand-host-agent", "roammand-privileged-bridge"}

  /** An entry of `dep_kinds`; one that is no object is passed over. */
  datatype DepKind = Kind(kind: Option<string>) | NotAnObject

  datatype Dependency = Dependency(pkg: Id, kinds: seq<DepKind>) | NotADependency

  datatype Node = Node(deps: seq<Dependency>, dependencies: seq<Id>)

  datatype Package = Package(name: string, hasSource: bool)

  /** The metadata, its lists already turned into dictionaries by identifier. */
  datatype Document = Document(packages: map<Id, Package>, nodes: map<Id, Node>)

  datatype Role = Runtime | Build

  datatype Relationship = DependsOn | BuildDependencyOf

  type Visit = (Id, Role)

  type Roles = map<Id, Relationship>

  function RelationshipFor(role: Role): Relationship {
    if role.Runtime? then DependsOn else BuildDependencyOf
  }

  predicate IsNonDev(kind: DepKind) {
    kind.Kind? && kind.kind != Some("dev")
  }

  predicate IsNormal(kind: DepKind) {
    kind.Kind? && (kind.kind == None || kind.kind == Some("normal"))
  }

  /** A dependency with kinds counts only if some kind is not "dev", and only if it names a package. */
  predicate Counts(dependency: Dependency) {
    && dependency.Dependency?
    && (dependency.kinds == [] || exists kind <- dependency.kinds :: IsNonDev(kind))
    && dependency.pkg != ""
  }

  /** The role under which a counting dependency of a package in `role` is reached. */
  function EdgeRole(dependency: Dependency, role: Role): Role
    requires dependency.Dependency?
  {
    if role.Runtime? && (dependency.kinds == [] || exists kind <- dependency.kinds :: IsNormal(kind)) then Runtime else Build
  }

  function DepEdges(deps: seq<Dependency>, role: Role): seq<Visit> {
    if deps == [] then []
    else
      var last := deps[|deps| - 1];
      DepEdges(deps[..|deps| - 1], role) + (if Counts(last) then [(last.pkg, EdgeRole(last, role))] else [])
  }

  function PlainEdges(dependencies: seq<Id>, role: Role): seq<Visit> {
    if dependencies == [] then []
    else PlainEdges(dependencies[..|dependencies| - 1], role) + [(dependencies[|dependencies| - 1], role)]
  }

  /** Where a package visited in a role leads: its detailed dependencies, or else its plain list. */
  function EdgesOf(document: Document, visit: Visit): seq<Visit> {
    if visit.0 !in document.nodes then []
    else
      var node := document.nodes[visit.0];
      DepEdges(node.deps, visit.1) + (if node.deps == [] then PlainEdges(node.dependencies, visit.1) else [])
  }

  function Roots(document: Document): set<Id> {
    set id <- document.packages | document.packages[id].name in RUST_RELEASE_ROOTS
  }

  // ---- What the answer means ----

  /** A walk from a release root, starting at runtime. */
  ghost predicate IsWalk(document: Document, walk: seq<Visit>) {
    && walk != []
    && walk[0].0 in Roots(document) && walk[0].1.Runtime?
    && forall i | 0 <= i < |walk| - 1 :: walk[i + 1] in EdgesOf(document, walk[i])
  }

  ghost predicate Reachable(document: Document, visit: Visit) {
    exists walk :: IsWalk(document, walk) && walk[|walk| - 1] == visit
  }

  ghost predicate ReachedBy(document: Document, id: Id, role: Role) {
    exists visit :: Reachable(document, visit) && (id, role) in EdgesOf(document, visit)
  }

  /**
   * The answer: with release roots, DEPENDS_ON exactly for an incoming runtime edge from a
   * reachable visit, BUILD_DEPENDENCY_OF exactly for any other incoming edge, nothing else.
   */
  ghost predicate Exact(document: Document, roles: Roles) {
    if Roots(document) == {} then
      forall id :: (id in roles <==> id in document.packages && document.packages[id].hasSource) && (id in roles ==> roles[id] == DependsOn)
    else
      forall id ::
        && (id in roles && roles[id] == DependsOn <==> ReachedBy(document, id, Runtime))
        && (id in roles && roles[id] == BuildDependencyOf <==> !ReachedBy(document, id, Runtime) && ReachedBy(document, id, Build))
  }

  /** The answer does not depend on the order of roots or of visits: only one is exact. */
  lemma ExactIsUnique(document: Document, a: Roles, b: Roles)
    requires Exact(document, a) && Exact(document, b)
    ensures a == b
  {
    forall id: Id
      ensures id in a <==> id in b
      ensures id in a && id in b ==> a[id] == b[id]
    {
      assert id in a ==> a[id] == DependsOn || a[id] == BuildDependencyOf;
      assert id in b ==> b[id] == DependsOn || b[id] == BuildDependencyOf;
    }
  }

  /** A runtime visit is reached through runtime edges only. */
  lemma {:induction false} RuntimeWalksStayRuntime(document: Document, walk: seq<Visit>)
    requires IsWalk(document, walk) && walk[|walk| - 1].1.Runtime?
    ensures forall visit <- walk :: visit.1.Runtime?
    decreases |walk|
  {
    if |walk| > 1 {
      var front, last := walk[..|walk| - 1], walk[|walk| - 1];
      assert last in EdgesOf(document, walk[|walk| - 2]);
      RuntimeEdgesComeFromRuntime(document, walk[|walk| - 2], last);
      RuntimeWalksStayRuntime(document, front);
      assert walk == front + [last];
    }
  }

  lemma RuntimeEdgesComeFromRuntime(document: Document, visit: Visit, edge: Visit)
    requires edge in EdgesOf(document, visit) && edge.1.Runtime?
    ensures visit.1.Runtime?
  {
    var node := document.nodes[visit.0];
    EdgeRoles(node.deps, node.dependencies, visit.1, edge);
  }

  lemma {:induction false} EdgeRoles(deps: seq<Dependency>, dependencies: seq<Id>, role: Role, edge: Visit)
    ensures edge in DepEdges(deps, role) && edge.1.Runtime? ==> role.Runtime?
    ensures edge in PlainEdges(dependencies, role) ==> edge.1 == role
    decreases |deps| + |dependencies|
  {
    if deps != [] {
      EdgeRoles(deps[..|deps| - 1], dependencies, role, edge);
    } else if dependencies != [] {
      EdgeRoles(deps, dependencies[..|dependencies| - 1], role, edge);
    }
  }

  // ---- Marking ----

  /** A package once marked DEPENDS_ON stays so. */
  function Mark(roles: Roles, edge: Visit): Roles {
    if edge.0 in roles && roles[edge.0] == DependsOn then roles else roles[edge.0 := RelationshipFor(edge.1)]
  }

  function MarkAll(roles: Roles, edges: seq<Visit>): Roles {
    if edges == [] then roles else Mark(MarkAll(roles, edges[..|edges| - 1]), edges[|edges| - 1])
  }

  lemma MarkAllAppend(roles: Roles, edges: seq<Visit>, edge: Visit)
    ensures MarkAll(roles, edges + [edge]) == Mark(MarkAll(roles, edges), edge)
  {
    assert (edges + [edge])[..|edges|] == edges;
  }

  lemma {:induction false} MarkAllExactly(roles: Roles, edges: seq<Visit>, id: Id)
    ensures var marked := MarkAll(roles, edges);
            && (id in marked <==> id in roles || (id, Runtime) in edges || (id, Build) in edges)
            && (id in marked && marked[id] == DependsOn <==> (id in roles && roles[id] == DependsOn) || (id, Runtime) in edges)
    decreases |edges|
  {
    if edges != [] {
      var front, last := edges[..|edges| - 1], edges[|edges| - 1];
      MarkAllExactly(roles, front, id);
      assert edges == front + [last];
    }
  }

  // ---- The worklist ----

  /** Every visit the traversal can ever make. */
  function Universe(document: Document): set<Visit> {
    (set id <- Roots(document) :: (id, Runtime))
    + (set id, role: Role, edge | id in document.nodes && edge in EdgesOf(document, (id, role)) :: edge)
  }

  /** Roots and followed edges are visited or waiting. */
  ghost predicate Covers(document: Document, visited: set<Visit>, pending: seq<Visit>) {
    && (forall id <- Roots(document) :: (id, Runtime) in visited || (id, Runtime) in pending)
    && (forall visit, edge | visit in visited && edge in EdgesOf(document, visit) :: edge in visited || edge in pending)
  }

  /** What is marked is what the visits made so far lead to. */
  ghost predicate Marks(document: Document, visited: set<Visit>, roles: Roles) {
    && (forall id :: id in roles <==> LeadsTo(document, visited, id, Runtime) || LeadsTo(document, visited, id, Build))
    && (forall id :: id in roles && roles[id] == DependsOn <==> LeadsTo(document, visited, id, Runtime))
  }

  predicate Member(document: Document, visit: Visit) {
    visit in Universe(document)
  }

  /** The traversal half done. */
  ghost predicate Traversed(document: Document, visited: set<Visit>, pending: seq<Visit>, roles: Roles) {
    && (forall visit <- visited :: Reachable(document, visit) && Member(document, visit))
    && (forall visit <- pending :: Reachable(document, visit) && Member(document, visit))
    && Covers(document, visited, pending)
    && Marks(document, visited, roles)
  }

  ghost predicate LeadsTo(document: Document, visited: set<Visit>, id: Id, role: Role) {
    exists visit <- visited :: (id, role) in EdgesOf(document, visit)
  }

  lemma EdgeIsReachable(document: Document, visit: Visit, edge: Visit)
    requires Reachable(document, visit) && edge in EdgesOf(document, visit)
    ensures Reachable(document, edge) && Member(document, edge)
  {
    hide DepEdges;
    hide PlainEdges;
    var walk :| IsWalk(document, walk) && walk[|walk| - 1] == visit;
    assert IsWalk(document, walk + [edge]);
    assert visit == (visit.0, visit.1);
  }

  lemma CoversMore(document: Document, visited: set<Visit>, rest: seq<Visit>, visit: Visit)
    requires Covers(document, visited, rest + [visit])
    ensures Covers(document, visited + {visit}, rest + EdgesOf(document, visit))
  {
    hide EdgesOf;
    assert forall v <- rest + [visit] :: v in rest || v == visit;
  }

  lemma MarksMore(document: Document, visited: set<Visit>, visit: Visit, roles: Roles)
    requires Marks(document, visited, roles)
    ensures Marks(document, visited + {visit}, MarkAll(roles, EdgesOf(document, visit)))
  {
    hide EdgesOf;
    hide MarkAll;
    var edges, all := EdgesOf(document, visit), visited + {visit};
    forall id
      ensures id in MarkAll(roles, edges) <==> LeadsTo(document, all, id, Runtime) || LeadsTo(document, all, id, Build)
      ensures id in MarkAll(roles, edges) && MarkAll(roles, edges)[id] == DependsOn <==> LeadsTo(document, all, id, Runtime)
    {
      MarkAllExactly(roles, edges, id);
      assert LeadsTo(document, all, id, Runtime) <==> LeadsTo(document, visited, id, Runtime) || (id, Runtime) in edges;
      assert LeadsTo(document, all, id, Build) <==> LeadsTo(document, visited, id, Build) || (id, Build) in edges;
    }
  }

  /** Visiting one more pair: its edges are marked and become pending. */
  lemma VisitKeeps(document: Document, visited: set<Visit>, rest: seq<Visit>, visit: Visit, roles: Roles)
    requires Traversed(document, visited, rest + [visit], roles)
    ensures Traversed(document, visited + {visit}, rest + EdgesOf(document, visit), MarkAll(roles, EdgesOf(document, visit)))
    ensures visit in Universe(document)
  {
    hide EdgesOf;
    hide MarkAll;
    hide Reachable;
    CoversMore(document, visited, rest, visit);
    MarksMore(document, visited, visit, roles);
    hide Covers;
    hide Marks;
    var edges := EdgesOf(document, visit);
    assert visit in rest + [visit];
    assert Member(document, visit);
    hide Universe;
    forall v | v in rest + edges
      ensures Reachable(document, v) && Member(document, v)
    {
      if v in edges {
        EdgeIsReachable(document, visit, v);
      } else {
        assert v in rest + [visit];
      }
    }
  }

  lemma SkipKeeps(document: Document, visited: set<Visit>, rest: seq<Visit>, visit: Visit, roles: Roles)
    requires Traversed(document, visited, rest + [visit], roles) && visit in visited
    ensures Traversed(document, visited, rest, roles)
  {
    hide EdgesOf;
    hide Reachable;
    hide Marks;
    hide Universe;
    assert forall v <- rest :: v in rest + [visit];
    assert forall v <- rest + [visit] :: v in rest || v == visit;
  }

  /** With nothing pending, every reachable visit has been made. */
  lemma {:induction false} WalksAreVisited(document: Document, visited: set<Visit>, walk: seq<Visit>)
    requires Covers(document, visited, []) && IsWalk(document, walk)
    ensures walk[|walk| - 1] in visited
    decreases |walk|
  {
    hide EdgesOf;
    hide Roots;
    if |walk| == 1 {
      assert walk[0] == (walk[0].0, Runtime);
    } else {
      var front := walk[..|walk| - 1];
      assert forall i | 0 <= i < |front| :: front[i] == walk[i];
      WalksAreVisited(document, visited, front);
      assert walk[(|walk| - 2) + 1] in EdgesOf(document, walk[|walk| - 2]);
    }
  }

  lemma LeadsIffReached(document: Document, visited: set<Visit>, id: Id, role: Role)
    requires Covers(document, visited, []) && forall visit <- visited :: Reachable(document, visit)
    ensures LeadsTo(document, visited, id, role) <==> ReachedBy(document, id, role)
  {
    hide EdgesOf;
    if ReachedBy(document, id, role) {
      var visit :| Reachable(document, visit) && (id, role) in EdgesOf(document, visit);
      var walk :| IsWalk(document, walk) && walk[|walk| - 1] == visit;
      WalksAreVisited(document, visited, walk);
    }
    hide Covers;
    hide IsWalk;
  }

  lemma DoneIsExact(document: Document, visited: set<Visit>, roles: Roles)
    requires Traversed(document, visited, [], roles) && Roots(document) != {}
    ensures Exact(document, roles)
  {
    hide LeadsTo;
    hide ReachedBy;
    hide Covers;
    hide Reachable;
    hide Roots;
    forall id
      ensures LeadsTo(document, visited, id, Runtime) <==> ReachedBy(document, id, Runtime)
      ensures LeadsTo(document, visited, id, Build) <==> ReachedBy(document, id, Build)
    {
      LeadsIffReached(document, visited, id, Runtime);
      LeadsIffReached(document, visited, id, Build);
    }
  }

  method MarkOne(roles: Roles, edge: Visit) returns (next: Roles)
    ensures next == Mark(roles, edge)
  {
    next := roles;
    if edge.0 !in next || next[edge.0] != DependsOn {
      next := next[edge.0 := RelationshipFor(edge.1)];
    }
  }

  /** The detailed dependencies, in order: each that counts marks its package and queues it. */
  method FollowDeps(deps: seq<Dependency>, role: Role, roles: Roles, pending: seq<Visit>) returns (nextRoles: Roles, nextPending: seq<Visit>)
    ensures nextRoles == MarkAll(roles, DepEdges(deps, role)) && nextPending == pending + DepEdges(deps, role)
  {
    hide Mark;
    hide MarkAll;
    hide Counts;
    hide EdgeRole;
    nextRoles, nextPending := roles, pending;
    NothingMarked(roles);
    ghost var edges: seq<Visit> := [];
    var i := 0;
    while i < |deps|
      invariant 0 <= i <= |deps|
      invariant edges == DepEdges(deps[..i], role)
      invariant nextRoles == MarkAll(roles, edges) && nextPending == pending + edges
    {
      var dependency := deps[i];
      assert deps[..i + 1][..i] == deps[..i];
      if Counts(dependency) {
        assert dependency.Dependency? by {
          CountingIsDependency(dependency);
        }
        var edge := (dependency.pkg, EdgeRole(dependency, role));
        MarkAllAppend(roles, edges, edge);
        nextRoles := MarkOne(nextRoles, edge);
        nextPending := nextPending + [edge];
        edges := edges + [edge];
      }
      i := i + 1;
    }
    assert deps[..i] == deps;
  }

  lemma CountingIsDependency(dependency: Dependency)
    requires Counts(dependency)
    ensures dependency.Dependency?
  {
  }

  lemma NothingMarked(roles: Roles)
    ensures MarkAll(roles, []) == roles
  {
  }

  /** The plain list, followed only by a node without detailed dependencies. */
  method FollowPlain(dependencies: seq<Id>, role: Role, roles: Roles, pending: seq<Visit>) returns (nextRoles: Roles, nextPending: seq<Visit>)
    ensures nextRoles == MarkAll(roles, PlainEdges(dependencies, role)) && nextPending == pending + PlainEdges(dependencies, role)
  {
    hide Mark;
    hide MarkAll;
    nextRoles, nextPending := roles, pending;
    NothingMarked(roles);
    ghost var edges: seq<Visit> := [];
    var i := 0;
    while i < |dependencies|
      invariant 0 <= i <= |dependencies|
      invariant edges == PlainEdges(dependencies[..i], role)
      invariant nextRoles == MarkAll(roles, edges) && nextPending == pending + edges
    {
      var edge := (dependencies[i], role);
      assert dependencies[..i + 1][..i] == dependencies[..i];
      MarkAllAppend(roles, edges, edge);
      nextRoles := MarkOne(nextRoles, edge);
      nextPending := nextPending + [edge];
      edges := edges + [edge];
      i := i + 1;
    }
    assert dependencies[..i] == dependencies;
  }

  /** One visit: an unknown package leads nowhere. */
  method Follow(document: Document, visit: Visit, roles: Roles, pending: seq<Visit>) returns (nextRoles: Roles, nextPending: seq<Visit>)
    ensures nextRoles == MarkAll(roles, EdgesOf(document, visit)) && nextPending == pending + EdgesOf(document, visit)
  {
    hide DepEdges;
    hide PlainEdges;
    hide MarkAll;
    if visit.0 !in document.nodes {
      NothingMarked(roles);
      return roles, pending;
    }
    var node := document.nodes[visit.0];
    if node.deps != [] {
      nextRoles, nextPending := FollowDeps(node.deps, visit.1, roles, pending);
      assert DepEdges(node.deps, visit.1) + [] == EdgesOf(document, visit) == DepEdges(node.deps, visit.1);
    } else {
      nextRoles, nextPending := FollowPlain(node.dependencies, visit.1, roles, pending);
      NoDepEdges(visit.1);
      assert [] + PlainEdges(node.dependencies, visit.1) == EdgesOf(document, visit) == PlainEdges(node.dependencies, visit.1);
    }
  }

  /** `cargo_dependency_roles`: terminates with the one exact answer, in whatever order the roots come. */
  method CargoDependencyRoles(document: Document) returns (roles: Roles)
    ensures Exact(document, roles)
  {
    var roots := Roots(document);
    if roots == {} {
      return map id | id in document.packages && document.packages[id].hasSource :: DependsOn;
    }
    roles := Traverse(document, roots);
  }

  method Traverse(document: Document, roots: set<Id>) returns (roles: Roles)
    requires roots == Roots(document) != {}
    ensures Exact(document, roles)
  {
    hide *;
    roles := map[];
    var pending := QueueRoots(roots);
    var visited: set<Visit> := {};
    StartIsTraversed(document, pending);
    while pending != []
      invariant Traversed(document, visited, pending, roles)
      decreases |Universe(document) - visited|, |pending|
    {
      var rest, visit := pending[..|pending| - 1], pending[|pending| - 1];
      assert pending == rest + [visit];
      pending := rest;
      if visit in visited {
        SkipKeeps(document, visited, rest, visit, roles);
        continue;
      }
      VisitKeeps(document, visited, rest, visit, roles);
      VisitShrinks(document, visited, visit);
      visited := visited + {visit};
      roles, pending := Follow(document, visit, roles, rest);
    }
    DoneIsExact(document, visited, roles);
  }

  lemma NoDepEdges(role: Role)
    ensures DepEdges([], role) == []
  {
  }

  method QueueRoots(roots: set<Id>) returns (pending: seq<Visit>)
    ensures forall visit <- pending :: visit.1.Runtime? && visit.0 in roots
    ensures forall id <- roots :: (id, Runtime) in pending
  {
    pending := [];
    var rest := roots;
    while rest != {}
      invariant rest <= roots
      invariant forall visit <- pending :: visit.1.Runtime? && visit.0 in roots
      invariant forall id <- roots :: id in rest || (id, Runtime) in pending
      decreases rest
    {
      var root :| root in rest;
      ghost var before := pending;
      pending := pending + [(root, Runtime)];
      assert forall visit <- before :: visit in pending;
      assert pending[|before|] == (root, Runtime);
      rest := rest - {root};
    }
  }

  lemma StartIsTraversed(document: Document, pending: seq<Visit>)
    requires forall visit <- pending :: visit.1.Runtime? && visit.0 in Roots(document)
    requires forall id <- Roots(document) :: (id, Runtime) in pending
    ensures Traversed(document, {}, pending, map[])
  {
    forall visit | visit in pending
      ensures Reachable(document, visit) && visit in Universe(document)
    {
      assert IsWalk(document, [visit]);
      assert [visit][|[visit]| - 1] == visit;
      assert visit == (visit.0, Runtime);
    }
  }

  lemma VisitShrinks(document: Document, visited: set<Visit>, visit: Visit)
    requires visit in Universe(document) && visit !in visited
    ensures |Universe(document) - (visited + {visit})| < |Universe(document) - visited|
  {
    assert Universe(document) - visited == (Universe(document) - (visited + {visit})) + {visit};
  }
}
