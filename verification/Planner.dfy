/** The quality-gate planner: which gates a set of changed paths must run, failing closed. */
module Planner {
  import opened Base
  import opened DependencyClosure

  datatype Gate =
    | Architecture | Contract | Rustfmt | EmbeddedBoundary | EmbeddedSqlite | Clippy
    | Test | Coverage | Container | Helm | Benches | Publish

  const GATES: set<Gate> :=
    {Architecture, Contract, Rustfmt, EmbeddedBoundary, EmbeddedSqlite, Clippy,
     Test, Coverage, Container, Helm, Benches, Publish}

  const WORKSPACE_WIDE: set<Gate> := {Architecture, Rustfmt, Clippy, Test, Coverage, Benches}

  const EMBEDDED_BOUNDARY_CRATES := {"made-embedded", "made-mcp"}
  const EMBEDDED_SQLITE_CRATES := {"made-adapters", "made-embedded", "made-mcp"}
  const CONTAINER_CRATES := {"made"}
  const PUBLISHED_CRATES := {"made-client", "made-console", "made-mcp", "made-mcp-proto"}

  datatype Route = Route(prefix: string, gates: set<Gate>)

  /** The routing tables and the workspace: everything the plan depends on besides the paths. */
  datatype Workspace = Workspace(
    packages: map<string, string>, dependencies: Dependencies,
    exact: map<string, set<Gate>>, prefixes: seq<Route>,
    fullMatrix: set<string>, fragments: set<string>)

  datatype Reason =
    | PathSpecific | ChangedCrates | ExplicitFullRun | NoPaths | ContractChanged | UnknownPaths(paths: set<string>)

  datatype Plan = Plan(full: bool, reason: Reason, changed: set<string>, affected: set<string>, gates: set<Gate>)

  // --------------------------------------------------------------------- paths

  predicate StartsWith(path: string, prefix: string) {
    |prefix| <= |path| && path[..|prefix|] == prefix
  }

  predicate EndsWith(path: string, suffix: string) {
    |suffix| <= |path| && path[|path| - |suffix|..] == suffix
  }

  predicate Contains(path: string, part: string) {
    exists i :: 0 <= i <= |path| && StartsWith(path[i..], part)
  }

  function RemovePrefix(path: string): string {
    if StartsWith(path, "./") then path[2..] else path
  }

  predicate IsDocumentation(path: string) {
    StartsWith(path, "docs/") || EndsWith(path, ".md") || EndsWith(path, ".txt")
  }

  function Normalized(paths: seq<string>): set<string> {
    set i | 0 <= i < |paths| && paths[i] != "" :: RemovePrefix(paths[i])
  }

  ghost predicate Splits(path: string, front: string, text: string, rest: string) {
    path == front + text + rest
  }

  lemma {:induction false} StartsWithIs(path: string, text: string)
    ensures StartsWith(path, text) <==> exists rest :: Splits(path, "", text, rest)
  {
    if StartsWith(path, text) {
      assert Splits(path, "", text, path[|text|..]);
    }
  }

  lemma {:induction false} EndsWithIs(path: string, text: string)
    ensures EndsWith(path, text) <==> exists front :: Splits(path, front, text, "")
  {
    if EndsWith(path, text) {
      assert Splits(path, path[..|path| - |text|], text, "");
    }
    if front :| Splits(path, front, text, "") {
      assert path == front + text;
    }
  }

  lemma {:induction false} SplitsBehind(path: string, i: nat, text: string, rest: string)
    requires i <= |path| && Splits(path[i..], "", text, rest)
    ensures Splits(path, path[..i], text, rest)
  {
    assert path == path[..i] + path[i..];
    assert path[i..] == text + rest;
  }

  lemma {:induction false} ContainsIs(path: string, text: string)
    ensures Contains(path, text) <==> exists front, rest :: Splits(path, front, text, rest)
  {
    if i :| 0 <= i <= |path| && StartsWith(path[i..], text) {
      StartsWithIs(path[i..], text);
      var rest :| Splits(path[i..], "", text, rest);
      SplitsBehind(path, i, text, rest);
    }
    if front, rest :| Splits(path, front, text, rest) {
      assert path[|front|..] == text + rest;
    }
  }

  /** A leading `./` goes, once; empty paths go altogether. */
  lemma {:induction false} NormalizedAre(paths: seq<string>, path: string)
    ensures path in Normalized(paths) <==>
              || (path != "" && path in paths && !StartsWith(path, "./"))
              || "./" + path in paths
  {
    forall p ensures RemovePrefix(p) == path <==> p == "./" + path || (p == path && !StartsWith(p, "./")) {
      assert StartsWith(p, "./") ==> p == "./" + p[2..];
    }
  }

  /** Markdown and text files, and everything under `docs`. */
  lemma {:induction false} DocumentationIs(path: string)
    ensures IsDocumentation(path) <==>
              || (exists rest :: Splits(path, "", "docs/", rest))
              || (exists front :: Splits(path, front, ".md", ""))
              || (exists front :: Splits(path, front, ".txt", ""))
  {
    StartsWithIs(path, "docs/");
    EndsWithIs(path, ".md");
    EndsWithIs(path, ".txt");
  }

  /** The first prefix route that matches. */
  function ByPrefix(prefixes: seq<Route>, path: string): Option<set<Gate>> {
    if prefixes == [] then None
    else if StartsWith(path, prefixes[0].prefix) then Some(prefixes[0].gates)
    else ByPrefix(prefixes[1..], path)
  }

  /** `route_path`: exact routes, then prefixes in order, then documentation; otherwise unknown. */
  function RoutePath(ws: Workspace, path: string): Option<set<Gate>> {
    if path in ws.exact then Some(ws.exact[path])
    else
      match ByPrefix(ws.prefixes, path)
      case Some(gates) => Some(gates)
      case None => if IsDocumentation(path) then Some({}) else None
  }

  /** The route at `i` matches and none before it does. */
  ghost predicate FirstMatch(prefixes: seq<Route>, path: string, i: int) {
    && 0 <= i < |prefixes| && StartsWith(path, prefixes[i].prefix)
    && forall j :: 0 <= j < i ==> !StartsWith(path, prefixes[j].prefix)
  }

  ghost predicate NoMatch(prefixes: seq<Route>, path: string) {
    forall j :: 0 <= j < |prefixes| ==> !StartsWith(path, prefixes[j].prefix)
  }

  lemma {:induction false} ByPrefixIsFirst(prefixes: seq<Route>, path: string)
    ensures forall i :: FirstMatch(prefixes, path, i) ==> ByPrefix(prefixes, path) == Some(prefixes[i].gates)
    ensures ByPrefix(prefixes, path).None? <==> NoMatch(prefixes, path)
    ensures ByPrefix(prefixes, path).Some? ==> exists i :: FirstMatch(prefixes, path, i)
  {
    if prefixes != [] {
      var rest := prefixes[1..];
      ByPrefixIsFirst(rest, path);
      if StartsWith(path, prefixes[0].prefix) {
        assert FirstMatch(prefixes, path, 0);
      } else {
        forall i | FirstMatch(prefixes, path, i) ensures ByPrefix(prefixes, path) == Some(prefixes[i].gates) {
          assert FirstMatch(rest, path, i - 1);
        }
        if i :| FirstMatch(rest, path, i) {
          assert FirstMatch(prefixes, path, i + 1);
        }
      }
    }
  }

  /** The gates an exact route names; else those of the first prefix that matches; else none, for documentation. */
  ghost predicate RoutesTo(ws: Workspace, path: string, gates: set<Gate>) {
    if path in ws.exact then gates == ws.exact[path]
    else
      || (exists i :: FirstMatch(ws.prefixes, path, i) && gates == ws.prefixes[i].gates)
      || (NoMatch(ws.prefixes, path) && IsDocumentation(path) && gates == {})
  }

  lemma {:induction false} RoutePathIs(ws: Workspace, path: string, gates: set<Gate>)
    ensures RoutePath(ws, path) == Some(gates) <==> RoutesTo(ws, path, gates)
    ensures RoutePath(ws, path).None? <==>
              path !in ws.exact && NoMatch(ws.prefixes, path) && !IsDocumentation(path)
  {
    ByPrefixIsFirst(ws.prefixes, path);
  }

  /** Of two neighbouring routes the order matters only when one prefix continues the other. */
  lemma {:induction false} NeighboursCommute(a: seq<Route>, r: Route, q: Route, b: seq<Route>, path: string)
    requires !StartsWith(r.prefix, q.prefix) && !StartsWith(q.prefix, r.prefix)
    ensures ByPrefix(a + [r, q] + b, path) == ByPrefix(a + [q, r] + b, path)
  {
    if a == [] {
      assert a + [r, q] + b == [r] + ([q] + b) && a + [q, r] + b == [q] + ([r] + b);
      assert ([r] + ([q] + b))[1..] == [q] + b && ([q] + ([r] + b))[1..] == [r] + b;
      assert ([q] + b)[1..] == b && ([r] + b)[1..] == b;
      BothMatch(path, r.prefix, q.prefix);
    } else {
      assert (a + [r, q] + b)[1..] == a[1..] + [r, q] + b && (a + [q, r] + b)[1..] == a[1..] + [q, r] + b;
      NeighboursCommute(a[1..], r, q, b, path);
    }
  }

  lemma {:induction false} BothMatch(path: string, x: string, y: string)
    ensures StartsWith(path, x) && StartsWith(path, y) ==> StartsWith(x, y) || StartsWith(y, x)
  {
    if StartsWith(path, x) && StartsWith(path, y) && |x| <= |y| {
      assert y[..|x|] == path[..|y|][..|x|] == path[..|x|];
    } else if StartsWith(path, x) && StartsWith(path, y) {
      assert x[..|y|] == path[..|x|][..|y|] == path[..|y|];
    }
  }

  // ------------------------------------------------- what one path asks for

  predicate InCrate(ws: Workspace, name: string, path: string) {
    name in ws.packages && StartsWith(path, ws.packages[name] + "/") && !IsDocumentation(path)
  }

  /** The packages whose sources a path belongs to. */
  function Owners(ws: Workspace, path: string): set<string> {
    set name | name in ws.packages && InCrate(ws, name, path)
  }

  predicate TouchesContract(ws: Workspace, path: string) {
    Contains(path, "/proto/") || path in ws.fragments
  }

  /** The gates that a set of changed packages switches on through everything that observes it. */
  ghost function CrateGates(ws: Workspace, changed: set<string>): set<Gate> {
    if changed == {} then {} else AffectedGates(Closure(changed, ws.dependencies))
  }

  function AffectedGates(affected: set<string>): set<Gate> {
    WORKSPACE_WIDE
    + (if EMBEDDED_BOUNDARY_CRATES * affected != {} then {EmbeddedBoundary} else {})
    + (if EMBEDDED_SQLITE_CRATES * affected != {} then {EmbeddedSqlite} else {})
    + (if CONTAINER_CRATES * affected != {} then {Container} else {})
    + (if PUBLISHED_CRATES * affected != {} then {Publish} else {})
  }

  /** The gates one path asks for on its own. */
  ghost function PathGates(ws: Workspace, path: string): set<Gate> {
    if Owners(ws, path) != {} then
      CrateGates(ws, Owners(ws, path)) + if TouchesContract(ws, path) then {Contract} else {}
    else
      match RoutePath(ws, path)
      case Some(gates) => gates
      case None => {}
  }

  /** A path that only the full matrix answers: a contract of the planner, or unclassifiable. */
  predicate NeedsFull(ws: Workspace, path: string) {
    path in ws.fullMatrix || (Owners(ws, path) == {} && RoutePath(ws, path).None?)
  }

  /** A crate that sees a change of the path: its owner, or one that depends on it, directly or not. */
  ghost predicate Sees(ws: Workspace, path: string, name: string) {
    Observes(ws.dependencies, Owners(ws, path), name)
  }

  ghost predicate OneSees(ws: Workspace, path: string, names: set<string>) {
    exists name :: name in names && Sees(ws, path, name)
  }

  /** The gates of a path inside a crate, gate by gate. */
  ghost predicate CrateAsks(ws: Workspace, path: string, gate: Gate) {
    match gate
    case Contract => (exists front, rest :: Splits(path, front, "/proto/", rest)) || path in ws.fragments
    case EmbeddedBoundary => OneSees(ws, path, {"made-embedded", "made-mcp"})
    case EmbeddedSqlite => OneSees(ws, path, {"made-adapters", "made-embedded", "made-mcp"})
    case Container => OneSees(ws, path, {"made"})
    case Publish => OneSees(ws, path, {"made-client", "made-console", "made-mcp", "made-mcp-proto"})
    case Helm => false
    case _ => true
  }

  lemma {:induction false} SeenIsClosure(ws: Workspace, path: string, names: set<string>)
    ensures OneSees(ws, path, names) <==> names * Closure(Owners(ws, path), ws.dependencies) != {}
  {
    var seen := Closure(Owners(ws, path), ws.dependencies);
    if name :| name in names && Sees(ws, path, name) {
      ObserversAreClosure(ws.dependencies, Owners(ws, path), name);
      assert name in names * seen;
    }
    if names * seen != {} {
      var name :| name in names * seen;
      assert Sees(ws, path, name);
    }
  }

  lemma {:induction false} AffectedAre(affected: set<string>, gate: Gate)
    ensures gate in AffectedGates(affected) <==>
              match gate
              case EmbeddedBoundary => {"made-embedded", "made-mcp"} * affected != {}
              case EmbeddedSqlite => {"made-adapters", "made-embedded", "made-mcp"} * affected != {}
              case Container => {"made"} * affected != {}
              case Publish => {"made-client", "made-console", "made-mcp", "made-mcp-proto"} * affected != {}
              case Contract => false
              case Helm => false
              case _ => true
  {
  }

  /** A path inside a crate asks for these gates and no others. */
  lemma {:induction false} CratePathGates(ws: Workspace, path: string, gate: Gate)
    requires Owners(ws, path) != {}
    ensures gate in PathGates(ws, path) <==> CrateAsks(ws, path, gate)
  {
    AffectedAre(Closure(Owners(ws, path), ws.dependencies), gate);
    match gate
    case Contract => ContainsIs(path, "/proto/");
    case EmbeddedBoundary => SeenIsClosure(ws, path, {"made-embedded", "made-mcp"});
    case EmbeddedSqlite => SeenIsClosure(ws, path, {"made-adapters", "made-embedded", "made-mcp"});
    case Container => SeenIsClosure(ws, path, {"made"});
    case Publish => SeenIsClosure(ws, path, {"made-client", "made-console", "made-mcp", "made-mcp-proto"});
    case _ =>
  }

  /** A path belongs to the crates whose directory it lies in, unless it is documentation. */
  lemma {:induction false} OwnersAre(ws: Workspace, path: string, name: string)
    ensures name in Owners(ws, path) <==>
              && name in ws.packages && !IsDocumentation(path)
              && exists rest :: Splits(path, "", ws.packages[name] + "/", rest)
  {
    if name in ws.packages {
      StartsWithIs(path, ws.packages[name] + "/");
    }
  }

  // --------------------------------------------------- what a change asks for

  ghost predicate PlannedFull(ws: Workspace, paths: seq<string>) {
    paths == [] || exists path :: path in Normalized(paths) && NeedsFull(ws, path)
  }

  ghost predicate Planned(ws: Workspace, paths: seq<string>, gate: Gate) {
    PlannedFull(ws, paths) || exists path :: path in Normalized(paths) && gate in PathGates(ws, path)
  }

  /** What a path asks for, said of the directories of the crates, the dependencies and the routing tables. */
  ghost predicate Asks(ws: Workspace, path: string, gate: Gate) {
    if Owners(ws, path) != {} then CrateAsks(ws, path, gate)
    else exists gates :: RoutesTo(ws, path, gates) && gate in gates
  }

  /** A change of the planner's own contract, or no crate, no route and no documentation. */
  ghost predicate Unclassified(ws: Workspace, path: string) {
    || path in ws.fullMatrix
    || (Owners(ws, path) == {} && path !in ws.exact && NoMatch(ws.prefixes, path) && !IsDocumentation(path))
  }

  lemma {:induction false} PathAsks(ws: Workspace, path: string, gate: Gate)
    ensures gate in PathGates(ws, path) <==> Asks(ws, path, gate)
    ensures NeedsFull(ws, path) <==> Unclassified(ws, path)
  {
    if Owners(ws, path) != {} {
      CratePathGates(ws, path, gate);
    } else {
      RoutePathIs(ws, path, if RoutePath(ws, path).Some? then RoutePath(ws, path).value else {});
      forall gates ensures RoutePath(ws, path) == Some(gates) <==> RoutesTo(ws, path, gates) {
        RoutePathIs(ws, path, gates);
      }
    }
  }

  /** A gate is planned when nothing is known about the change, or some path of it asks for the gate or for all. */
  lemma {:induction false} PlannedIs(ws: Workspace, paths: seq<string>, gate: Gate)
    ensures PlannedFull(ws, paths) <==>
              paths == [] || exists path :: path in Normalized(paths) && Unclassified(ws, path)
    ensures Planned(ws, paths, gate) <==>
              paths == []
              || exists path :: path in Normalized(paths) && (Unclassified(ws, path) || Asks(ws, path, gate))
  {
    forall path ensures gate in PathGates(ws, path) <==> Asks(ws, path, gate)
      ensures NeedsFull(ws, path) <==> Unclassified(ws, path)
    {
      PathAsks(ws, path, gate);
    }
  }

  lemma {:induction false} NormalizedConcat(p: seq<string>, q: seq<string>)
    ensures Normalized(p + q) == Normalized(p) + Normalized(q)
  {
    forall x ensures x in Normalized(p + q) <==> x in Normalized(p) + Normalized(q) {
      if x in Normalized(p) {
        var i :| 0 <= i < |p| && p[i] != "" && RemovePrefix(p[i]) == x;
        assert (p + q)[i] == p[i];
      }
      if x in Normalized(q) {
        var i :| 0 <= i < |q| && q[i] != "" && RemovePrefix(q[i]) == x;
        assert (p + q)[|p| + i] == q[i];
      }
    }
  }

  /** The plan is a homomorphism from non-empty path lists to gates: it plans the union of what the parts plan. */
  lemma {:induction false} PlanIsHomomorphism(ws: Workspace, p: seq<string>, q: seq<string>, gate: Gate)
    requires p != [] && q != []
    ensures PlannedFull(ws, p + q) <==> PlannedFull(ws, p) || PlannedFull(ws, q)
    ensures Planned(ws, p + q, gate) <==> Planned(ws, p, gate) || Planned(ws, q, gate)
  {
    NormalizedConcat(p, q);
  }

  /** What is left of two changes when one of them may be empty. */
  function OtherSide(p: seq<string>, q: seq<string>): seq<string> {
    if p == [] then q else p
  }

  /**
   * An empty list plans everything on its own, and nothing more when joined to another. So the law holds,
   * gate by gate and for the full flag, exactly when both lists are non-empty or the other side plans it anyway.
   */
  lemma {:induction false} HomomorphismIff(ws: Workspace, p: seq<string>, q: seq<string>, gate: Gate)
    ensures (Planned(ws, p + q, gate) <==> Planned(ws, p, gate) || Planned(ws, q, gate)) <==>
              (p != [] && q != []) || Planned(ws, OtherSide(p, q), gate)
    ensures (PlannedFull(ws, p + q) <==> PlannedFull(ws, p) || PlannedFull(ws, q)) <==>
              (p != [] && q != []) || PlannedFull(ws, OtherSide(p, q))
  {
    if p != [] && q != [] {
      PlanIsHomomorphism(ws, p, q, gate);
    } else {
      assert p + q == OtherSide(p, q);
    }
  }

  /** Adding paths to a change never switches a gate off. */
  lemma {:induction false} PlanIsMonotone(ws: Workspace, p: seq<string>, q: seq<string>, gate: Gate)
    requires p != [] && (forall x :: x in p ==> x in q)
    ensures Planned(ws, p, gate) ==> Planned(ws, q, gate)
  {
    forall x | x in Normalized(p) ensures x in Normalized(q) {
      var i :| 0 <= i < |p| && p[i] != "" && RemovePrefix(p[i]) == x;
      assert p[i] in q;
      var j :| 0 <= j < |q| && q[j] == p[i];
    }
    assert p[0] in q;
  }

  /** One path that cannot be classified switches every gate on. */
  lemma {:induction false} UnclassifiablePlansEverything(ws: Workspace, p: seq<string>, path: string, gate: Gate)
    requires path in p && path != "" && NeedsFull(ws, RemovePrefix(path))
    ensures PlannedFull(ws, p) && Planned(ws, p, gate)
  {
  }

  // ------------------------------------------------------------ the algorithm

  /** Gates of crates, over the whole change, are the union of the gates of its paths: closures distribute. */
  lemma {:induction false} CrateGatesOfUnion(ws: Workspace, a: set<string>, b: set<string>)
    ensures CrateGates(ws, a + b) == CrateGates(ws, a) + CrateGates(ws, b)
  {
    ClosureOfUnion(a, b, ws.dependencies);
    var x, y := Closure(a, ws.dependencies), Closure(b, ws.dependencies);
    assert a == {} ==> a + b == b;
    assert b == {} ==> a + b == a;
    AffectedOfUnion(x, y);
  }

  lemma {:induction false} AffectedOfUnion(x: set<string>, y: set<string>)
    ensures AffectedGates(x + y) == AffectedGates(x) + AffectedGates(y)
  {
    Meets(EMBEDDED_BOUNDARY_CRATES, x, y);
    Meets(EMBEDDED_SQLITE_CRATES, x, y);
    Meets(CONTAINER_CRATES, x, y);
    Meets(PUBLISHED_CRATES, x, y);
  }

  lemma {:induction false} Meets(s: set<string>, x: set<string>, y: set<string>)
    ensures s * (x + y) != {} <==> s * x != {} || s * y != {}
  {
  }

  /** The packages that own any of the given paths. */
  ghost function OwnersOf(ws: Workspace, paths: set<string>): set<string> {
    set name | name in ws.packages && exists path :: path in paths && InCrate(ws, name, path)
  }

  lemma {:induction false} CrateGatesPathwise(ws: Workspace, paths: set<string>, gate: Gate)
    ensures gate in CrateGates(ws, OwnersOf(ws, paths)) <==>
              exists path :: path in paths && gate in CrateGates(ws, Owners(ws, path))
  {
    if paths != {} {
      var x :| x in paths;
      var rest := paths - {x};
      assert OwnersOf(ws, paths) == OwnersOf(ws, rest) + Owners(ws, x) by {
        forall name ensures name in OwnersOf(ws, paths) <==> name in OwnersOf(ws, rest) + Owners(ws, x) {
          if path :| path in paths && InCrate(ws, name, path) {
            assert path == x || path in rest;
          }
        }
      }
      CrateGatesOfUnion(ws, OwnersOf(ws, rest), Owners(ws, x));
      CrateGatesPathwise(ws, rest, gate);
      if path :| path in paths && gate in CrateGates(ws, Owners(ws, path)) {
        assert path == x || path in rest;
      }
    } else {
      assert OwnersOf(ws, paths) == {};
    }
  }

  function CratePaths(ws: Workspace, normalized: set<string>, name: string): set<string>
    requires name in ws.packages
  {
    set path | path in normalized && InCrate(ws, name, path)
  }

  ghost function Touched(ws: Workspace, normalized: set<string>, names: set<string>): set<string>
    requires names <= ws.packages.Keys
  {
    set name | name in names && CratePaths(ws, normalized, name) != {}
  }

  ghost function Accounted(ws: Workspace, normalized: set<string>, names: set<string>): set<string>
    requires names <= ws.packages.Keys
  {
    set name, path | name in names && path in CratePaths(ws, normalized, name) :: path
  }

  /** What the first loop of `plan_for` leaves: packages, the paths they account for, and the contract gate. */
  ghost predicate Scanned(ws: Workspace, normalized: set<string>, names: set<string>,
                          changed: set<string>, known: set<string>, contract: bool) {
    && names <= ws.packages.Keys
    && changed == Touched(ws, normalized, names)
    && known == Accounted(ws, normalized, names)
    && (contract <==> exists path :: path in known && TouchesContract(ws, path))
  }

  method ScanCrates(ws: Workspace, normalized: set<string>)
    returns (changed: set<string>, known: set<string>, contract: bool)
    ensures Scanned(ws, normalized, ws.packages.Keys, changed, known, contract)
  {
    changed, known, contract := {}, {}, false;
    var left := ws.packages.Keys;
    while left != {}
      invariant left <= ws.packages.Keys
      invariant Scanned(ws, normalized, ws.packages.Keys - left, changed, known, contract)
      decreases |left|
    {
      var name :| name in left;
      var cratePaths := CratePaths(ws, normalized, name);
      ScanNext(ws, normalized, ws.packages.Keys - left, changed, known, contract, name);
      if cratePaths != {} {
        changed := changed + {name};
        known := known + cratePaths;
        contract := contract || exists path :: path in cratePaths && TouchesContract(ws, path);
      }
      assert ws.packages.Keys - (left - {name}) == ws.packages.Keys - left + {name};
      left := left - {name};
    }
    assert ws.packages.Keys - left == ws.packages.Keys;
  }

  lemma {:induction false} ScanNext(ws: Workspace, normalized: set<string>, names: set<string>, changed: set<string>,
                                    known: set<string>, contract: bool, name: string)
    requires Scanned(ws, normalized, names, changed, known, contract) && name in ws.packages
    ensures var cratePaths := CratePaths(ws, normalized, name);
            && (cratePaths != {} ==>
                  Scanned(ws, normalized, names + {name}, changed + {name}, known + cratePaths,
                          contract || exists path :: path in cratePaths && TouchesContract(ws, path)))
            && (cratePaths == {} ==> Scanned(ws, normalized, names + {name}, changed, known, contract))
  {
  }

  /** The second loop: routes for the paths no crate accounts for. */
  method RouteRest(ws: Workspace, normalized: set<string>, inCrates: set<string>)
    returns (known: set<string>, gates: set<Gate>)
    requires inCrates <= normalized
    ensures forall path :: path in known <==> path in inCrates || (path in normalized && RoutePath(ws, path).Some?)
    ensures forall gate :: gate in gates <==>
              exists path :: path in normalized - inCrates && RoutePath(ws, path).Some?
                  && gate in RoutePath(ws, path).value
  {
    known, gates := inCrates, {};
    var left := normalized;
    while left != {}
      invariant left <= normalized
      invariant forall path :: path in known <==>
                  path in inCrates || (path in normalized - left && RoutePath(ws, path).Some?)
      invariant forall gate :: gate in gates <==>
                  exists path :: path in normalized - left - inCrates && RoutePath(ws, path).Some?
                      && gate in RoutePath(ws, path).value
      decreases |left|
    {
      var path :| path in left;
      var route := RoutePath(ws, path);
      if path !in inCrates && route.Some? {
        known := known + {path};
        gates := gates + route.value;
      }
      left := left - {path};
    }
  }

  function FullPlan(ws: Workspace, reason: Reason): Plan {
    Plan(true, reason, ws.packages.Keys, ws.packages.Keys, GATES)
  }

  lemma {:induction false} AllGates(gate: Gate)
    ensures gate in GATES
  {
  }

  lemma {:induction false} InCratesIff(ws: Workspace, normalized: set<string>, changed: set<string>,
                                       inCrates: set<string>, contract: bool)
    requires Scanned(ws, normalized, ws.packages.Keys, changed, inCrates, contract)
    ensures forall path :: path in inCrates <==> path in normalized && Owners(ws, path) != {}
    ensures changed == OwnersOf(ws, normalized)
  {
    forall path ensures path in inCrates <==> path in normalized && Owners(ws, path) != {} {
      if path in normalized && Owners(ws, path) != {} {
        var name :| name in Owners(ws, path);
        assert path in CratePaths(ws, normalized, name);
      }
      if path in inCrates {
        var name :| name in ws.packages.Keys && path in CratePaths(ws, normalized, name);
        assert name in Owners(ws, path);
      }
    }
    forall name ensures name in changed <==> name in OwnersOf(ws, normalized) {
      if name in changed {
        var path :| path in CratePaths(ws, normalized, name);
        assert path in normalized && InCrate(ws, name, path);
      }
      if name in OwnersOf(ws, normalized) {
        var path :| path in normalized && InCrate(ws, name, path);
        assert path in CratePaths(ws, normalized, name);
      }
    }
  }

  /** One path's gates, by where they come from. */
  lemma {:induction false} GateOfPath(ws: Workspace, path: string, gate: Gate)
    ensures gate in PathGates(ws, path) <==>
              || gate in CrateGates(ws, Owners(ws, path))
              || (Owners(ws, path) != {} && TouchesContract(ws, path) && gate == Contract)
              || (Owners(ws, path) == {} && RoutePath(ws, path).Some? && gate in RoutePath(ws, path).value)
  {
  }

  /** What the two loops together amount to, path by path. */
  lemma {:induction false} PathwiseGates(ws: Workspace, normalized: set<string>, changed: set<string>,
                                         inCrates: set<string>, contract: bool, routed: set<Gate>, gate: Gate)
    requires Scanned(ws, normalized, ws.packages.Keys, changed, inCrates, contract)
    requires forall g :: g in routed <==>
               exists path :: path in normalized - inCrates && RoutePath(ws, path).Some?
                   && g in RoutePath(ws, path).value
    ensures (gate in CrateGates(ws, changed) || (contract && gate == Contract) || gate in routed) <==>
              exists path :: path in normalized && gate in PathGates(ws, path)
  {
    InCratesIff(ws, normalized, changed, inCrates, contract);
    CrateGatesPathwise(ws, normalized, gate);
    forall path ensures gate in PathGates(ws, path) <==>
      || gate in CrateGates(ws, Owners(ws, path))
      || (Owners(ws, path) != {} && TouchesContract(ws, path) && gate == Contract)
      || (Owners(ws, path) == {} && RoutePath(ws, path).Some? && gate in RoutePath(ws, path).value)
    {
      GateOfPath(ws, path, gate);
    }
    assert contract <==> exists path :: path in normalized && Owners(ws, path) != {} && TouchesContract(ws, path);
    assert gate in routed <==>
           exists path :: path in normalized && Owners(ws, path) == {} && RoutePath(ws, path).Some?
               && gate in RoutePath(ws, path).value;
  }

  lemma {:induction false} KnownIff(ws: Workspace, normalized: set<string>, changed: set<string>, inCrates: set<string>,
                                    contract: bool, known: set<string>)
    requires Scanned(ws, normalized, ws.packages.Keys, changed, inCrates, contract)
    requires forall path :: path in known <==> path in inCrates || (path in normalized && RoutePath(ws, path).Some?)
    requires normalized * ws.fullMatrix == {}
    ensures normalized - known == set path | path in normalized && NeedsFull(ws, path)
  {
    InCratesIff(ws, normalized, changed, inCrates, contract);
    forall path | path in normalized ensures path !in ws.fullMatrix {
      assert path !in normalized * ws.fullMatrix;
    }
  }

  /**
   * `plan_for`. The plan it computes, with one closure over all changed crates and one pass over the
   * remaining paths, is the union of what the paths ask for one by one; a path no rule accounts for
   * turns it into the full matrix.
   */
  method PlanFor(ws: Workspace, paths: seq<string>, forceFull: bool) returns (plan: Plan)
    ensures plan.full <==> forceFull || PlannedFull(ws, paths)
    ensures forall gate :: gate in plan.gates <==> forceFull || Planned(ws, paths, gate)
    ensures plan.full ==> plan.changed == plan.affected == ws.packages.Keys
    ensures !plan.full ==>
              && plan.changed == OwnersOf(ws, Normalized(paths))
              && plan.affected == Closure(plan.changed, ws.dependencies)
    ensures plan.reason.ExplicitFullRun? <==> forceFull
    ensures plan.reason.NoPaths? <==> !forceFull && paths == []
    ensures plan.reason.ContractChanged? <==> !forceFull && paths != [] && Normalized(paths) * ws.fullMatrix != {}
    ensures plan.reason.ChangedCrates? <==> !plan.full && plan.changed != {}
    ensures plan.reason.PathSpecific? <==> !plan.full && plan.changed == {}
    ensures plan.reason.UnknownPaths? ==>
              plan.reason.paths == (set path | path in Normalized(paths) && NeedsFull(ws, path)) != {}
  {
    forall gate ensures gate in GATES { AllGates(gate); }
    if forceFull {
      return FullPlan(ws, ExplicitFullRun);
    }
    if paths == [] {
      return FullPlan(ws, NoPaths);
    }
    var normalized := Normalized(paths);
    if normalized * ws.fullMatrix != {} {
      ghost var path :| path in normalized * ws.fullMatrix;
      assert NeedsFull(ws, path);
      return FullPlan(ws, ContractChanged);
    }
    var changed, inCrates, contract := ScanCrates(ws, normalized);
    var affected := ReverseClosure(changed, ws.dependencies);
    var gates := (if contract then {Contract} else {}) + if changed != {} then AffectedGates(affected) else {};
    var known, routed := RouteRest(ws, normalized, inCrates);
    forall gate ensures gate in gates + routed <==> exists path :: path in normalized && gate in PathGates(ws, path) {
      PathwiseGates(ws, normalized, changed, inCrates, contract, routed, gate);
    }
    KnownIff(ws, normalized, changed, inCrates, contract, known);
    if normalized - known != {} {
      ghost var path :| path in normalized - known;
      assert NeedsFull(ws, path);
      return FullPlan(ws, UnknownPaths(normalized - known));
    }
    InCratesIff(ws, normalized, changed, inCrates, contract);
    assert !PlannedFull(ws, paths) by {
      forall path | path in normalized ensures !NeedsFull(ws, path) {
        assert path !in normalized - known;
      }
    }
    plan := Plan(false, if changed != {} then ChangedCrates else PathSpecific, changed, affected, gates + routed);
  }
}
