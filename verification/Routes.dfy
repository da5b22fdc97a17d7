/**
 * Routes of the control plane: pointing, canaries, rollbacks and deploy previews over a repository
 * in which artifacts and deployments are never deleted, and the snapshot built from it. Operations
 * run one at a time. Hosts, prefixes and ids are taken as already normalized.
 */
module Routes {
  import opened Wrappers

  datatype Error = NotFound | Validation | Conflict

  datatype Key = Key(project: string, host: string, prefix: string)

  datatype Target = Target(deployment: string, weight: int)

  datatype Route = Route(id: string, deployment: string, targets: seq<Target>)

  datatype Deployment = Deployment(project: string, artifact: string)

  datatype Preview = Preview(key: Key, deployment: string, previous: Option<Route>, rolledBack: bool)

  /** Artifacts map to their project; a route is unique by its key and by its id. */
  datatype Tables = Tables(
    artifacts: map<string, string>,
    deployments: map<string, Deployment>,
    routes: map<Key, Route>,
    previews: map<string, Preview>)

  // ---------------------------------------------------------------- targets

  predicate Acceptable(ts: seq<Target>) {
    && ts != []
    && (forall i :: 0 <= i < |ts| ==> ts[i].deployment != "" && ts[i].weight > 0)
    && (forall i, j :: 0 <= i < j < |ts| ==> ts[i].deployment != ts[j].deployment)
  }

  function Chosen(given: Option<seq<Target>>, fallback: Option<string>): (ts: seq<Target>) {
    if given.Some? then given.value
    else if fallback.Some? && fallback.value != "" then [Target(fallback.value, 100)]
    else []
  }

  /** The targets of a request; without any, its deployment with weight 100. */
  method NormalizeRouteTargets(given: Option<seq<Target>>, fallback: Option<string>) returns (r: Result<seq<Target>, Error>)
    ensures r == if Acceptable(Chosen(given, fallback)) then Ok(Chosen(given, fallback)) else Err(Validation)
  {
    if given.None? {
      if fallback.None? || fallback.value == "" {
        return Err(Validation);
      }
      return Ok([Target(fallback.value, 100)]);
    }
    if given.value == [] {
      return Err(Validation);
    }
    var seen: set<string>, ts, i := {}, [], 0;
    while i < |given.value|
      invariant 0 <= i <= |given.value|
      invariant ts == given.value[..i]
      invariant forall d :: d in seen <==> exists k :: 0 <= k < i && given.value[k].deployment == d
      invariant i > 0 ==> Acceptable(ts)
    {
      var t := given.value[i];
      if t.deployment == "" || t.deployment in seen || t.weight <= 0 {
        return Err(Validation);
      }
      seen := seen + {t.deployment};
      ts := ts + [t];
      i := i + 1;
    }
    assert ts == given.value;
    r := Ok(ts);
  }

  /** A deployment that exists and belongs to the project. */
  function Require(t: Tables, project: string, deployment: string): Option<Error> {
    if deployment !in t.deployments then Some(NotFound)
    else if t.deployments[deployment].project != project then Some(Validation)
    else None
  }

  /** The first target that cannot be used decides the error. */
  function RequireAll(t: Tables, project: string, ts: seq<Target>): Option<Error>
    decreases |ts|
  {
    if ts == [] then None
    else
      var e := Require(t, project, ts[0].deployment);
      if e.Some? then e else RequireAll(t, project, ts[1..])
  }

  // ---------------------------------------------------------------- operations

  /** Insert, or update the row with the same key, which keeps its id. */
  function Upsert(t: Tables, key: Key, route: Route): Result<Tables, Error> {
    if key in t.routes then Ok(t.(routes := t.routes[key := route.(id := t.routes[key].id)]))
    else if exists k :: k in t.routes && t.routes[k].id == route.id then Err(Conflict)
    else Ok(t.(routes := t.routes[key := route]))
  }

  function Written(t: Tables, key: Key, route: Route): (Tables, Result<Route, Error>) {
    var r := Upsert(t, key, route);
    if r.Ok? then (r.value, Ok(r.value.routes[key])) else (t, Err(r.error))
  }

  function Stable(route: Route): string {
    if route.targets != [] then route.targets[0].deployment else route.deployment
  }

  function Single(id: string, deployment: string): Route {
    Route(id, deployment, [Target(deployment, 100)])
  }

  /** `admitted`: the project exists, its custom domains allow the host and its quota the route. */
  function Point(t: Tables, key: Key, given: Option<seq<Target>>, fallback: Option<string>, id: string, admitted: bool)
    : (Tables, Result<Route, Error>)
  {
    var ts := Chosen(given, fallback);
    if !Acceptable(ts) then (t, Err(Validation))
    else
      var e := RequireAll(t, key.project, ts);
      if e.Some? then (t, Err(e.value))
      else if !admitted then (t, Err(Validation))
      else Written(t, key, Route(id, ts[0].deployment, ts))
  }

  function Canary(t: Tables, key: Key, candidate: string, weight: int): (Tables, Result<Route, Error>) {
    if key !in t.routes then (t, Err(NotFound))
    else
      var existing, e := t.routes[key], Require(t, key.project, candidate);
      var stable := Stable(existing);
      if e.Some? then (t, Err(e.value))
      else if stable == candidate || !(1 <= weight <= 99) then (t, Err(Validation))
      else Written(t, key, Route(existing.id, stable, [Target(stable, 100 - weight), Target(candidate, weight)]))
  }

  function Rollback(t: Tables, key: Key, deployment: Option<string>): (Tables, Result<Route, Error>) {
    if key !in t.routes then (t, Err(NotFound))
    else
      var existing := t.routes[key];
      var d := if deployment.Some? then deployment.value else Stable(existing);
      var e := Require(t, key.project, d);
      if e.Some? then (t, Err(e.value)) else Written(t, key, Single(existing.id, d))
  }

  /** `rollback` is the outcome of the metrics analysis. */
  function Analyze(t: Tables, key: Key, candidate: string, rollback: bool): (Tables, Result<Route, Error>) {
    if key !in t.routes then (t, Err(NotFound))
    else
      var existing, e := t.routes[key], Require(t, key.project, candidate);
      if e.Some? then (t, Err(e.value))
      else if !exists i :: 0 <= i < |existing.targets| && existing.targets[i].deployment == candidate then (t, Err(Validation))
      else if rollback then Written(t, key, Single(existing.id, Stable(existing)))
      else (t, Ok(existing))
  }

  /** The route is written before the preview, so a preview id in use leaves the route changed. */
  function CreatePreview(t: Tables, id: string, key: Key, deployment: string, routeId: string, admitted: bool)
    : (Tables, Result<Preview, Error>)
  {
    var e := Require(t, key.project, deployment);
    if e.Some? then (t, Err(e.value))
    else if !admitted then (t, Err(Validation))
    else
      var previous := if key in t.routes then Some(t.routes[key]) else None;
      var (u, r) := Written(t, key, Single(if previous.Some? then previous.value.id else routeId, deployment));
      if r.Err? then (t, Err(r.error))
      else if id in t.previews then (u, Err(Conflict))
      else
        var p := Preview(key, deployment, previous, false);
        (u.(previews := u.previews[id := p]), Ok(p))
  }

  function RollbackPreview(t: Tables, id: string): (Tables, Result<Preview, Error>) {
    if id !in t.previews then (t, Err(NotFound))
    else
      var p := t.previews[id];
      if p.rolledBack then (t, Ok(p))
      else
        var u := if p.previous.Some? then Upsert(t, p.key, p.previous.value) else Ok(t.(routes := t.routes - {p.key}));
        if u.Err? then (t, Err(u.error))
        else
          var done := p.(rolledBack := true);
          (u.value.(previews := u.value.previews[id := done]), Ok(done))
  }

  datatype Op =
    | CreateArtifact(id: string, project: string)
    | CreateDeployment(id: string, project: string, artifact: string, admitted: bool)
    | PointRoute(key: Key, given: Option<seq<Target>>, fallback: Option<string>, id: string, admitted: bool)
    | StartCanary(key: Key, candidate: string, weight: int)
    | RollbackRoute(key: Key, to: Option<string>)
    | AnalyzeCanary(key: Key, candidate: string, rollback: bool)
    | CreateDeployPreview(id: string, key: Key, deployment: string, routeId: string, admitted: bool)
    | RollbackDeployPreview(id: string)

  function Apply(t: Tables, op: Op): Tables {
    match op
    case CreateArtifact(id, project) => if id in t.artifacts then t else t.(artifacts := t.artifacts[id := project])
    case CreateDeployment(id, project, artifact, admitted) =>
      if !admitted || artifact !in t.artifacts || t.artifacts[artifact] != project || id in t.deployments then t
      else t.(deployments := t.deployments[id := Deployment(project, artifact)])
    case PointRoute(key, given, fallback, id, admitted) => Point(t, key, given, fallback, id, admitted).0
    case StartCanary(key, candidate, weight) => Canary(t, key, candidate, weight).0
    case RollbackRoute(key, deployment) => Rollback(t, key, deployment).0
    case AnalyzeCanary(key, candidate, rollback) => Analyze(t, key, candidate, rollback).0
    case CreateDeployPreview(id, key, deployment, routeId, admitted) => CreatePreview(t, id, key, deployment, routeId, admitted).0
    case RollbackDeployPreview(id) => RollbackPreview(t, id).0
  }

  function ApplyAll(t: Tables, ops: seq<Op>): Tables
    decreases |ops|
  {
    if ops == [] then t else ApplyAll(Apply(t, ops[0]), ops[1..])
  }

  const EMPTY: Tables := Tables(map[], map[], map[], map[])

  // ---------------------------------------------------------------- the operations in place

  class ControlPlane {
    var artifacts: map<string, string>
    var deployments: map<string, Deployment>
    var routes: map<Key, Route>
    var previews: map<string, Preview>

    function View(): Tables
      reads this
    {
      Tables(artifacts, deployments, routes, previews)
    }

    method RequireDeployment(project: string, deployment: string) returns (e: Option<Error>)
      ensures e == Require(View(), project, deployment)
    {
      if deployment !in deployments {
        return Some(NotFound);
      }
      if deployments[deployment].project != project {
        return Some(Validation);
      }
      e := None;
    }

    method UpsertRoute(key: Key, route: Route) returns (r: Result<Route, Error>)
      modifies this
      ensures (View(), r) == Written(old(View()), key, route)
    {
      if key in routes {
        routes := routes[key := routes[key].(deployment := route.deployment, targets := route.targets)];
      } else if exists k :: k in routes && routes[k].id == route.id {
        return Err(Conflict);
      } else {
        routes := routes[key := route];
      }
      r := Ok(routes[key]);
    }

    method PointRoute(key: Key, given: Option<seq<Target>>, fallback: Option<string>, id: string, admitted: bool)
      returns (r: Result<Route, Error>)
      modifies this
      ensures (View(), r) == Point(old(View()), key, given, fallback, id, admitted)
    {
      var normalized := NormalizeRouteTargets(given, fallback);
      if normalized.Err? {
        return Err(normalized.error);
      }
      var ts := normalized.value;
      var i := 0;
      while i < |ts|
        invariant 0 <= i <= |ts|
        invariant View() == old(View())
        invariant RequireAll(View(), key.project, ts) == RequireAll(View(), key.project, ts[i..])
      {
        var e := RequireDeployment(key.project, ts[i].deployment);
        assert ts[i..][1..] == ts[i + 1..];
        if e.Some? {
          return Err(e.value);
        }
        i := i + 1;
      }
      if !admitted {
        return Err(Validation);
      }
      r := UpsertRoute(key, Route(id, ts[0].deployment, ts));
    }

    method StartRouteCanary(key: Key, candidate: string, weight: int) returns (r: Result<Route, Error>)
      modifies this
      ensures (View(), r) == Canary(old(View()), key, candidate, weight)
    {
      if key !in routes {
        return Err(NotFound);
      }
      var existing := routes[key];
      var e := RequireDeployment(key.project, candidate);
      if e.Some? {
        return Err(e.value);
      }
      var stable := if existing.targets != [] then existing.targets[0].deployment else existing.deployment;
      if stable == candidate || weight < 1 || weight > 99 {
        return Err(Validation);
      }
      var targets := [Target(stable, 100 - weight), Target(candidate, weight)];
      r := UpsertRoute(key, existing.(deployment := stable, targets := targets));
    }

    method RollbackRoute(key: Key, to: Option<string>) returns (r: Result<Route, Error>)
      modifies this
      ensures (View(), r) == Rollback(old(View()), key, to)
    {
      if key !in routes {
        return Err(NotFound);
      }
      var existing := routes[key];
      var deployment := if to.Some? then to.value else Stable(existing);
      var e := RequireDeployment(key.project, deployment);
      if e.Some? {
        return Err(e.value);
      }
      r := UpsertRoute(key, existing.(deployment := deployment, targets := [Target(deployment, 100)]));
    }

    /** `rollback` is what the analysis of the candidate's metrics decided; the decision record is not modelled. */
    method AnalyzeRouteCanary(key: Key, candidate: string, rollback: bool) returns (r: Result<Route, Error>)
      modifies this
      ensures (View(), r) == Analyze(old(View()), key, candidate, rollback)
    {
      if key !in routes {
        return Err(NotFound);
      }
      var existing := routes[key];
      var e := RequireDeployment(key.project, candidate);
      if e.Some? {
        return Err(e.value);
      }
      if !exists i :: 0 <= i < |existing.targets| && existing.targets[i].deployment == candidate {
        return Err(Validation);
      }
      if !rollback {
        return Ok(existing);
      }
      var stable := Stable(existing);
      r := UpsertRoute(key, existing.(deployment := stable, targets := [Target(stable, 100)]));
    }

    method CreateDeployPreview(id: string, key: Key, deployment: string, routeId: string, admitted: bool)
      returns (r: Result<Preview, Error>)
      modifies this
      ensures (View(), r) == CreatePreview(old(View()), id, key, deployment, routeId, admitted)
    {
      var e := RequireDeployment(key.project, deployment);
      if e.Some? {
        return Err(e.value);
      }
      if !admitted {
        return Err(Validation);
      }
      var previous := if key in routes then Some(routes[key]) else None;
      var preview := Preview(key, deployment, previous, false);
      var placed := UpsertRoute(key, Single(if previous.Some? then previous.value.id else routeId, deployment));
      if placed.Err? {
        return Err(placed.error);
      }
      if id in previews {
        return Err(Conflict);
      }
      previews := previews[id := preview];
      r := Ok(preview);
    }

    method RollbackDeployPreview(id: string) returns (r: Result<Preview, Error>)
      modifies this
      ensures (View(), r) == RollbackPreview(old(View()), id)
    {
      if id !in previews {
        return Err(NotFound);
      }
      var preview := previews[id];
      if preview.rolledBack {
        return Ok(preview);
      }
      if preview.previous.Some? {
        var restored := UpsertRoute(preview.key, preview.previous.value);
        if restored.Err? {
          return Err(restored.error);
        }
      } else {
        routes := routes - {preview.key};
      }
      previews := previews[id := preview.(rolledBack := true)];
      r := Ok(preview.(rolledBack := true));
    }
  }

  // ---------------------------------------------------------------- invariant

  /** A target that resolves to a deployment of the project and on to an artifact. */
  predicate Resolves(t: Tables, project: string, deployment: string) {
    && deployment in t.deployments
    && t.deployments[deployment].project == project
    && t.deployments[deployment].artifact in t.artifacts
  }

  predicate Sound(t: Tables, project: string, r: Route) {
    && Acceptable(r.targets)
    && r.deployment == r.targets[0].deployment
    && (forall i :: 0 <= i < |r.targets| ==> Resolves(t, project, r.targets[i].deployment))
  }

  predicate Inv(t: Tables) {
    && "" !in t.deployments
    && (forall d :: d in t.deployments ==> t.deployments[d].artifact in t.artifacts)
    && (forall k :: k in t.routes ==> Sound(t, k.project, t.routes[k]))
    && (forall p :: p in t.previews && t.previews[p].previous.Some? ==>
          Sound(t, t.previews[p].key.project, t.previews[p].previous.value))
  }

  /** Deployments have non-empty ids. */
  predicate WellFormed(op: Op) {
    op.CreateDeployment? ==> op.id != ""
  }

  lemma SoundKept(t: Tables, u: Tables, project: string, r: Route)
    requires Sound(t, project, r)
    requires forall d :: d in t.deployments ==> d in u.deployments && u.deployments[d] == t.deployments[d]
    requires t.artifacts.Keys <= u.artifacts.Keys
    ensures Sound(u, project, r)
  {
    forall i | 0 <= i < |r.targets| ensures Resolves(u, project, r.targets[i].deployment) {
      assert Resolves(t, project, r.targets[i].deployment);
    }
  }

  lemma InvFrom(t: Tables, u: Tables)
    requires Inv(t) && u.deployments == t.deployments && u.artifacts == t.artifacts
    requires forall k :: k in u.routes ==> Sound(t, k.project, u.routes[k])
    requires forall p :: p in u.previews && u.previews[p].previous.Some? ==>
      Sound(t, u.previews[p].key.project, u.previews[p].previous.value)
    ensures Inv(u)
  {
    forall k | k in u.routes ensures Sound(u, k.project, u.routes[k]) {
      SoundKept(t, u, k.project, u.routes[k]);
    }
    forall p | p in u.previews && u.previews[p].previous.Some?
      ensures Sound(u, u.previews[p].key.project, u.previews[p].previous.value)
    {
      SoundKept(t, u, u.previews[p].key.project, u.previews[p].previous.value);
    }
  }

  lemma UpsertKeepsSound(t: Tables, key: Key, route: Route)
    requires Inv(t) && Sound(t, key.project, route) && Upsert(t, key, route).Ok?
    ensures var u := Upsert(t, key, route).value;
      && u == t.(routes := u.routes)
      && u.routes == t.routes[key := route.(id := if key in t.routes then t.routes[key].id else route.id)]
      && forall k :: k in u.routes ==> Sound(t, k.project, u.routes[k])
  {
    var u := Upsert(t, key, route).value;
    forall k | k in u.routes ensures Sound(t, k.project, u.routes[k]) {
      if k == key {
        SoundKept(t, t, key.project, route);
        assert u.routes[k].targets == route.targets;
      }
    }
  }

  lemma UpsertKeepsInv(t: Tables, key: Key, route: Route)
    requires Inv(t) && Sound(t, key.project, route) && Upsert(t, key, route).Ok?
    ensures Inv(Upsert(t, key, route).value)
  {
    UpsertKeepsSound(t, key, route);
    InvFrom(t, Upsert(t, key, route).value);
  }

  lemma SingleIsSound(t: Tables, project: string, id: string, deployment: string)
    requires Inv(t) && Require(t, project, deployment).None?
    ensures Sound(t, project, Single(id, deployment))
  {}

  lemma StableIsRequired(t: Tables, key: Key)
    requires Inv(t) && key in t.routes
    ensures Stable(t.routes[key]) == t.routes[key].deployment
    ensures Require(t, key.project, Stable(t.routes[key])).None?
  {
    assert Sound(t, key.project, t.routes[key]);
    assert Resolves(t, key.project, t.routes[key].targets[0].deployment);
  }

  lemma {:induction false} RequiredResolve(t: Tables, project: string, ts: seq<Target>)
    requires Inv(t) && RequireAll(t, project, ts).None?
    ensures forall i :: 0 <= i < |ts| ==> Resolves(t, project, ts[i].deployment)
    decreases |ts|
  {
    if ts != [] {
      RequiredResolve(t, project, ts[1..]);
      forall i | 0 <= i < |ts| ensures Resolves(t, project, ts[i].deployment) {
        if i > 0 {
          assert ts[i] == ts[1..][i - 1];
        }
      }
    }
  }

  lemma PointKeepsInv(t: Tables, key: Key, given: Option<seq<Target>>, fallback: Option<string>, id: string, admitted: bool)
    requires Inv(t)
    ensures Inv(Point(t, key, given, fallback, id, admitted).0)
  {
    var ts := Chosen(given, fallback);
    if Acceptable(ts) && RequireAll(t, key.project, ts).None? {
      RequiredResolve(t, key.project, ts);
      var route := Route(id, ts[0].deployment, ts);
      if Upsert(t, key, route).Ok? {
        UpsertKeepsInv(t, key, route);
      }
    }
  }

  lemma CanaryKeepsInv(t: Tables, key: Key, candidate: string, weight: int)
    requires Inv(t)
    ensures Inv(Canary(t, key, candidate, weight).0)
  {
    if key in t.routes && Require(t, key.project, candidate).None? {
      StableIsRequired(t, key);
      var stable := Stable(t.routes[key]);
      if stable != candidate && 1 <= weight <= 99 {
        UpsertKeepsInv(t, key, Route(t.routes[key].id, stable, [Target(stable, 100 - weight), Target(candidate, weight)]));
      }
    }
  }

  lemma SingleKeepsInv(t: Tables, key: Key, id: string, deployment: string)
    requires Inv(t) && Require(t, key.project, deployment).None? && Upsert(t, key, Single(id, deployment)).Ok?
    ensures Inv(Upsert(t, key, Single(id, deployment)).value)
  {
    SingleIsSound(t, key.project, id, deployment);
    UpsertKeepsInv(t, key, Single(id, deployment));
  }

  lemma CreatePreviewKeepsInv(t: Tables, id: string, key: Key, deployment: string, routeId: string, admitted: bool)
    requires Inv(t)
    ensures Inv(CreatePreview(t, id, key, deployment, routeId, admitted).0)
  {
    var previous := if key in t.routes then Some(t.routes[key]) else None;
    var route := Single(if previous.Some? then previous.value.id else routeId, deployment);
    if Require(t, key.project, deployment).None? && admitted && Upsert(t, key, route).Ok? {
      SingleIsSound(t, key.project, route.id, deployment);
      UpsertKeepsSound(t, key, route);
      InvFrom(t, CreatePreview(t, id, key, deployment, routeId, admitted).0);
    }
  }

  lemma RollbackPreviewKeepsInv(t: Tables, id: string)
    requires Inv(t)
    ensures Inv(RollbackPreview(t, id).0)
  {
    if id in t.previews && !t.previews[id].rolledBack {
      var p := t.previews[id];
      if p.previous.Some? && Upsert(t, p.key, p.previous.value).Ok? {
        UpsertKeepsSound(t, p.key, p.previous.value);
      }
      InvFrom(t, RollbackPreview(t, id).0);
    }
  }

  lemma RollbackKeepsInv(t: Tables, key: Key, to: Option<string>)
    requires Inv(t)
    ensures Inv(Rollback(t, key, to).0)
  {
    if key in t.routes {
      var d := if to.Some? then to.value else Stable(t.routes[key]);
      if Require(t, key.project, d).None? {
        SingleKeepsInv(t, key, t.routes[key].id, d);
      }
    }
  }

  lemma AnalyzeKeepsInv(t: Tables, key: Key, candidate: string, rollback: bool)
    requires Inv(t)
    ensures Inv(Analyze(t, key, candidate, rollback).0)
  {
    if key in t.routes {
      StableIsRequired(t, key);
      SingleKeepsInv(t, key, t.routes[key].id, Stable(t.routes[key]));
    }
  }

  lemma InvStep(t: Tables, op: Op)
    requires Inv(t) && WellFormed(op)
    ensures Inv(Apply(t, op))
  {
    match op
    case CreateArtifact(_, _) => TablesGrow(t, Apply(t, op));
    case CreateDeployment(_, _, _, _) => TablesGrow(t, Apply(t, op));
    case PointRoute(key, given, fallback, id, admitted) => PointKeepsInv(t, key, given, fallback, id, admitted);
    case StartCanary(key, candidate, weight) => CanaryKeepsInv(t, key, candidate, weight);
    case RollbackRoute(key, to) => RollbackKeepsInv(t, key, to);
    case AnalyzeCanary(key, candidate, rollback) => AnalyzeKeepsInv(t, key, candidate, rollback);
    case CreateDeployPreview(id, key, deployment, routeId, admitted) => CreatePreviewKeepsInv(t, id, key, deployment, routeId, admitted);
    case RollbackDeployPreview(id) => RollbackPreviewKeepsInv(t, id);
  }

  lemma TablesGrow(t: Tables, u: Tables)
    requires Inv(t) && u.routes == t.routes && u.previews == t.previews
    requires "" !in u.deployments && forall d :: d in u.deployments ==> u.deployments[d].artifact in u.artifacts
    requires forall d :: d in t.deployments ==> d in u.deployments && u.deployments[d] == t.deployments[d]
    requires t.artifacts.Keys <= u.artifacts.Keys
    ensures Inv(u)
  {
    forall k | k in u.routes ensures Sound(u, k.project, u.routes[k]) {
      SoundKept(t, u, k.project, t.routes[k]);
    }
    forall p | p in u.previews && u.previews[p].previous.Some?
      ensures Sound(u, u.previews[p].key.project, u.previews[p].previous.value)
    {
      SoundKept(t, u, u.previews[p].key.project, u.previews[p].previous.value);
    }
  }

  lemma {:induction false} RunInv(t: Tables, ops: seq<Op>)
    requires Inv(t) && forall i :: 0 <= i < |ops| ==> WellFormed(ops[i])
    ensures Inv(ApplyAll(t, ops))
    decreases |ops|
  {
    if ops != [] {
      InvStep(t, ops[0]);
      RunInv(Apply(t, ops[0]), ops[1..]);
    }
  }

  // ---------------------------------------------------------------- snapshots

  datatype SnapshotTarget = SnapshotTarget(deployment: string, weight: int, artifact: string)

  datatype SnapshotRoute = SnapshotRoute(key: Key, deployment: string, targets: seq<SnapshotTarget>)

  function SnapshotTargets(t: Tables, ts: seq<Target>): Result<seq<SnapshotTarget>, Error> {
    if ts == [] then Ok([])
    else
      var init, d := SnapshotTargets(t, ts[..|ts| - 1]), ts[|ts| - 1].deployment;
      if init.Err? then init
      else if d !in t.deployments || t.deployments[d].artifact !in t.artifacts then Err(NotFound)
      else Ok(init.value + [SnapshotTarget(d, ts[|ts| - 1].weight, t.deployments[d].artifact)])
  }

  /** Fails on a target that does not resolve, and on a route without targets. */
  function Snapshot(t: Tables, listed: seq<Key>): Result<seq<SnapshotRoute>, Error>
    requires forall k :: k in listed ==> k in t.routes
  {
    if listed == [] then Ok([])
    else
      var init, key := Snapshot(t, listed[..|listed| - 1]), listed[|listed| - 1];
      var ts := SnapshotTargets(t, t.routes[key].targets);
      if init.Err? then init
      else if ts.Err? then Err(ts.error)
      else if ts.value == [] then Err(Validation)
      else Ok(init.value + [SnapshotRoute(key, ts.value[0].deployment, ts.value)])
  }

  predicate Shows(t: Tables, target: Target, shown: SnapshotTarget) {
    && shown.deployment == target.deployment && shown.weight == target.weight
    && target.deployment in t.deployments && shown.artifact == t.deployments[target.deployment].artifact
  }

  lemma {:induction false} TargetsResolve(t: Tables, project: string, ts: seq<Target>)
    requires forall i :: 0 <= i < |ts| ==> Resolves(t, project, ts[i].deployment)
    ensures var r := SnapshotTargets(t, ts);
      r.Ok? && |r.value| == |ts| && forall i :: 0 <= i < |ts| ==> Shows(t, ts[i], r.value[i])
  {
    if ts != [] {
      TargetsResolve(t, project, ts[..|ts| - 1]);
      assert Resolves(t, project, ts[|ts| - 1].deployment);
    }
  }

  lemma {:induction false} SnapshotSucceeds(t: Tables, listed: seq<Key>)
    requires Inv(t) && forall k :: k in listed ==> k in t.routes
    ensures var r := Snapshot(t, listed);
      r.Ok? && |r.value| == |listed| && forall i :: 0 <= i < |listed| ==> ShowsRoute(t, listed[i], r.value[i])
  {
    if listed != [] {
      var key := listed[|listed| - 1];
      SnapshotSucceeds(t, listed[..|listed| - 1]);
      assert Sound(t, key.project, t.routes[key]);
      TargetsResolve(t, key.project, t.routes[key].targets);
      assert Shows(t, t.routes[key].targets[0], SnapshotTargets(t, t.routes[key].targets).value[0]);
    }
  }

  /** A route with targets, each of a stored deployment of a stored artifact. */
  predicate Showable(t: Tables, ts: seq<Target>) {
    forall i :: 0 <= i < |ts| ==>
      ts[i].deployment in t.deployments && t.deployments[ts[i].deployment].artifact in t.artifacts
  }

  lemma {:induction false} TargetsAreExact(t: Tables, ts: seq<Target>)
    ensures var r := SnapshotTargets(t, ts);
      (r.Ok? <==> Showable(t, ts)) && (r.Ok? ==> |r.value| == |ts|) && (r.Err? ==> r.error == NotFound)
  {
    if ts != [] {
      var init := ts[..|ts| - 1];
      TargetsAreExact(t, init);
      assert Showable(t, ts) <==> Showable(t, init) && Showable(t, [ts[|ts| - 1]]) by {
        assert ts == init + [ts[|ts| - 1]];
      }
    }
  }

  /** On any tables, a snapshot fails exactly on a listed route without targets or with one that does not resolve. */
  lemma {:induction false} SnapshotIsExact(t: Tables, listed: seq<Key>)
    requires forall k :: k in listed ==> k in t.routes
    ensures Snapshot(t, listed).Ok? <==>
      forall k :: k in listed ==> t.routes[k].targets != [] && Showable(t, t.routes[k].targets)
  {
    if listed != [] {
      var init, last := listed[..|listed| - 1], listed[|listed| - 1];
      SnapshotIsExact(t, init);
      TargetsAreExact(t, t.routes[last].targets);
      assert forall k :: k in listed <==> k in init || k == last;
    }
  }

  predicate ShowsRoute(t: Tables, key: Key, shown: SnapshotRoute) {
    && key in t.routes && shown.key == key && shown.deployment == t.routes[key].deployment
    && |shown.targets| == |t.routes[key].targets|
    && forall i :: 0 <= i < |shown.targets| ==> Shows(t, t.routes[key].targets[i], shown.targets[i])
  }

  /**
   * In every reachable state each route has targets, distinct, with positive weights; its deployment
   * is the first target's; all targets resolve; and so a snapshot succeeds and shows exactly them.
   */
  lemma RoutesResolve(ops: seq<Op>, listed: seq<Key>)
    requires forall i :: 0 <= i < |ops| ==> WellFormed(ops[i])
    requires forall k :: k in listed ==> k in ApplyAll(EMPTY, ops).routes
    ensures var t := ApplyAll(EMPTY, ops);
      && (forall k :: k in t.routes ==>
            && t.routes[k].targets != []
            && (forall i :: 0 <= i < |t.routes[k].targets| ==> t.routes[k].targets[i].weight > 0)
            && (forall i, j :: 0 <= i < j < |t.routes[k].targets| ==>
                  t.routes[k].targets[i].deployment != t.routes[k].targets[j].deployment)
            && t.routes[k].deployment == t.routes[k].targets[0].deployment
            && forall i :: 0 <= i < |t.routes[k].targets| ==> Resolves(t, k.project, t.routes[k].targets[i].deployment))
      && Snapshot(t, listed).Ok? && |Snapshot(t, listed).value| == |listed|
      && forall i :: 0 <= i < |listed| ==> ShowsRoute(t, listed[i], Snapshot(t, listed).value[i])
  {
    RunInv(EMPTY, ops);
    SnapshotSucceeds(ApplyAll(EMPTY, ops), listed);
  }

  // ---------------------------------------------------------------- when an operation succeeds, and what it writes

  /** A deployment that exists and is the project's. */
  predicate Usable(t: Tables, project: string, deployment: string) {
    deployment in t.deployments && t.deployments[deployment].project == project
  }

  predicate IdInUse(t: Tables, id: string) {
    exists k :: k in t.routes && t.routes[k].id == id
  }

  /** A failed operation changed nothing; a successful one wrote exactly this route. */
  predicate Wrote(t: Tables, u: Tables, r: Result<Route, Error>, key: Key, route: Route) {
    if r.Ok? then r.value == route && u == t.(routes := t.routes[key := route]) else u == t
  }

  /** Target n is the first that is not usable. */
  predicate FirstBad(t: Tables, project: string, ts: seq<Target>, n: int) {
    && 0 <= n < |ts| && !Usable(t, project, ts[n].deployment)
    && forall i :: 0 <= i < n ==> Usable(t, project, ts[i].deployment)
  }

  function Unusable(t: Tables, deployment: string): Error {
    if deployment in t.deployments then Validation else NotFound
  }

  lemma {:induction false} FirstUnusable(t: Tables, project: string, ts: seq<Target>)
    ensures RequireAll(t, project, ts).None? <==> forall i :: 0 <= i < |ts| ==> Usable(t, project, ts[i].deployment)
    ensures forall n :: FirstBad(t, project, ts, n) ==> RequireAll(t, project, ts) == Some(Unusable(t, ts[n].deployment))
    decreases |ts|
  {
    if ts != [] {
      FirstUnusable(t, project, ts[1..]);
      assert forall i :: 0 < i < |ts| ==> ts[i] == ts[1..][i - 1];
      if Usable(t, project, ts[0].deployment) {
        forall n | FirstBad(t, project, ts, n)
          ensures RequireAll(t, project, ts) == Some(Unusable(t, ts[n].deployment))
        {
          assert ts[1..][n - 1] == ts[n];
          assert forall i :: 0 <= i < n - 1 ==> ts[1..][i] == ts[i + 1];
          assert FirstBad(t, project, ts[1..], n - 1);
        }
      }
    }
  }

  /** Artifacts and deployments are only added, under unused ids; a deployment needs an artifact of its project. */
  lemma CreationMeans(t: Tables, id: string, project: string, artifact: string, admitted: bool)
    ensures var u := Apply(t, CreateArtifact(id, project));
      u == t.(artifacts := u.artifacts) && u.artifacts == (if id in t.artifacts then t.artifacts else t.artifacts[id := project])
    ensures var u := Apply(t, CreateDeployment(id, project, artifact, admitted));
      && u == t.(deployments := u.deployments)
      && (if admitted && id !in t.deployments && artifact in t.artifacts && t.artifacts[artifact] == project
          then u.deployments == t.deployments[id := Deployment(project, artifact)] else u == t)
  {}

  /**
   * Pointing succeeds exactly for at least one target, all of them named, distinct, positive and usable,
   * an admitted host and, for a new route, an unused id; then the route has the requested targets.
   * Requested are the given targets, and without any the fallback deployment with weight 100.
   */
  lemma PointMeans(t: Tables, key: Key, given: Option<seq<Target>>, fallback: Option<string>, id: string, admitted: bool, ts: seq<Target>)
    requires given == Some(ts) || (given.None? && fallback.Some? && fallback.value != "" && ts == [Target(fallback.value, 100)])
    ensures var (u, r) := Point(t, key, given, fallback, id, admitted);
      && (r.Ok? <==>
            ts != [] && admitted && (key in t.routes || !IdInUse(t, id))
            && (forall i :: 0 <= i < |ts| ==>
                  ts[i].deployment != "" && ts[i].weight > 0 && Usable(t, key.project, ts[i].deployment))
            && (forall i, j :: 0 <= i < j < |ts| ==> ts[i].deployment != ts[j].deployment))
      && (ts == [] ==> r == Err(Validation))
      && (ts != [] ==> Wrote(t, u, r, key, Route(if key in t.routes then t.routes[key].id else id, ts[0].deployment, ts)))
  {
    FirstUnusable(t, key.project, ts);
  }

  /** Without targets and without a deployment there is nothing to point to. */
  lemma PointNeedsTargets(t: Tables, key: Key, fallback: Option<string>, id: string, admitted: bool)
    requires fallback == None || fallback == Some("")
    ensures Point(t, key, None, fallback, id, admitted) == (t, Err(Validation))
  {}

  /** Which error a failing point reports: malformed targets first, then the first unusable one, then the rest. */
  lemma PointErrors(t: Tables, key: Key, ts: seq<Target>, id: string, admitted: bool)
    requires Acceptable(ts) && Point(t, key, Some(ts), None, id, admitted).1.Err?
    ensures var e := Point(t, key, Some(ts), None, id, admitted).1.error;
      && (forall n :: FirstBad(t, key.project, ts, n) ==> e == Unusable(t, ts[n].deployment))
      && ((forall i :: 0 <= i < |ts| ==> Usable(t, key.project, ts[i].deployment)) ==>
            e == (if admitted then Conflict else Validation))
  {
    FirstUnusable(t, key.project, ts);
  }

  /**
   * A canary starts exactly on a route that exists, for a usable candidate other than the stable
   * deployment and a weight from 1 to 99, which is the candidate's; the route keeps its id.
   */
  lemma CanaryMeans(t: Tables, key: Key, candidate: string, weight: int)
    requires Inv(t)
    ensures var (u, r) := Canary(t, key, candidate, weight);
      && (r.Ok? <==>
            key in t.routes && Usable(t, key.project, candidate)
            && candidate != t.routes[key].deployment && 1 <= weight <= 99)
      && (key in t.routes ==>
            var was := t.routes[key];
            Wrote(t, u, r, key, Route(was.id, was.deployment, [Target(was.deployment, 100 - weight), Target(candidate, weight)])))
      && (r.Err? ==> u == t && r.error == (if key !in t.routes || candidate !in t.deployments then NotFound else Validation))
  {
    if key in t.routes {
      StableIsRequired(t, key);
    }
  }

  /** A rollback points an existing route at the named usable deployment, or at its stable one. */
  lemma RollbackMeans(t: Tables, key: Key, to: Option<string>)
    requires Inv(t)
    ensures var (u, r) := Rollback(t, key, to);
      && (r.Ok? <==> key in t.routes && (to.Some? ==> Usable(t, key.project, to.value)))
      && (key in t.routes ==>
            var d := if to.Some? then to.value else t.routes[key].deployment;
            Wrote(t, u, r, key, Route(t.routes[key].id, d, [Target(d, 100)])))
      && (r.Err? ==> u == t)
      && (r.Err? ==> r.error == (if key !in t.routes || (to.Some? && to.value !in t.deployments) then NotFound else Validation))
  {
    if key in t.routes {
      StableIsRequired(t, key);
    }
  }

  /**
   * An analysis needs a usable candidate among the route's targets; it leaves everything as it is
   * unless it decides to roll back, and then leaves the stable deployment alone.
   */
  lemma AnalysisMeans(t: Tables, key: Key, candidate: string, rollback: bool)
    requires Inv(t)
    ensures var (u, r) := Analyze(t, key, candidate, rollback);
      && (r.Ok? <==>
            key in t.routes && Usable(t, key.project, candidate)
            && exists i :: 0 <= i < |t.routes[key].targets| && t.routes[key].targets[i].deployment == candidate)
      && (key in t.routes && rollback ==>
            var was := t.routes[key]; Wrote(t, u, r, key, Route(was.id, was.deployment, [Target(was.deployment, 100)])))
      && (key in t.routes && !rollback ==> u == t && (r.Ok? ==> r.value == t.routes[key]))
      && (r.Err? ==> u == t && r.error == (if key !in t.routes || candidate !in t.deployments then NotFound else Validation))
  {
    if key in t.routes {
      StableIsRequired(t, key);
    }
  }

  /**
   * A preview is created exactly for a usable deployment, an admitted host, an unused preview id and,
   * where there was no route, an unused route id; it points the route at the deployment alone, and
   * remembers the route it replaced.
   */
  lemma PreviewMeans(t: Tables, id: string, key: Key, deployment: string, routeId: string, admitted: bool)
    ensures var (u, r) := CreatePreview(t, id, key, deployment, routeId, admitted);
            var placed := Route(if key in t.routes then t.routes[key].id else routeId, deployment, [Target(deployment, 100)]);
      && (r.Ok? <==>
            Usable(t, key.project, deployment) && admitted && id !in t.previews
            && (key in t.routes || !IdInUse(t, routeId)))
      && (r.Ok? ==> r.value == Preview(key, deployment, if key in t.routes then Some(t.routes[key]) else None, false))
      && (r.Ok? ==> u == t.(routes := u.routes, previews := t.previews[id := r.value]))
      && (r.Ok? ==> u.routes == t.routes[key := placed])
      && (deployment !in t.deployments ==> r == Err(NotFound))
      && (deployment in t.deployments && (!Usable(t, key.project, deployment) || !admitted) ==> r == Err(Validation))
      && (r.Err? && Usable(t, key.project, deployment) && admitted ==> r == Err(Conflict))
  {}

  /**
   * A rolled-back preview puts back the route it remembers, or takes its route away where there was
   * none; it fails only if it is unknown or the route is gone and its id was given to another one.
   */
  lemma PreviewRollbackMeans(t: Tables, id: string)
    ensures var (u, r) := RollbackPreview(t, id);
      if id !in t.previews then u == t && r == Err(NotFound)
      else
        var p := t.previews[id];
        if p.rolledBack then u == t && r == Ok(p)
        else if p.previous.Some? && p.key !in t.routes && IdInUse(t, p.previous.value.id) then u == t && r == Err(Conflict)
        else
          && r == Ok(p.(rolledBack := true))
          && u == t.(routes := u.routes, previews := t.previews[id := p.(rolledBack := true)])
          && (p.previous.None? ==> u.routes == t.routes - {p.key})
          && (p.previous.Some? && p.key !in t.routes ==> u.routes == t.routes[p.key := p.previous.value])
          && (p.previous.Some? && p.key in t.routes ==>
                u.routes == t.routes[p.key := p.previous.value.(id := t.routes[p.key].id)])
  {}

  // ---------------------------------------------------------------- canaries

  /**
   * A started canary gives the candidate the requested weight, below 100, and the stable deployment,
   * which stays first, the rest of 100. A rollback
   * to the stable deployment, or the analysis deciding so, then leaves the stable one alone, so a
   * route with a single full-weight target is back to what it was.
   */
  lemma CanaryAndBack(t: Tables, key: Key, candidate: string, weight: int)
    requires Inv(t) && Canary(t, key, candidate, weight).1.Ok?
    ensures var (u, r) := Canary(t, key, candidate, weight); var was, ts := t.routes[key], r.value.targets;
      && u.routes[key] == r.value && r.value.id == was.id
      && |ts| == 2 && 1 <= weight <= 99 && ts[1].weight == weight && ts[0].weight == 100 - weight
      && ts[0].deployment == was.deployment && ts[1].deployment == candidate != was.deployment
      && Rollback(u, key, None).0 == Analyze(u, key, candidate, true).0 == t.(routes := t.routes[key := Single(was.id, was.deployment)])
      && (|was.targets| == 1 && was.targets[0].weight == 100 ==> Rollback(u, key, None).0 == t)
  {
    StableIsRequired(t, key);
    var (u, r) := Canary(t, key, candidate, weight);
    var was := t.routes[key];
    assert u.routes[key].targets[1].deployment == candidate;
    var single := Single(was.id, was.deployment);
    assert Written(u, key, single).0.routes == t.routes[key := single];
    if |was.targets| == 1 && was.targets[0].weight == 100 {
      assert Sound(t, key.project, was);
      assert was.targets == [was.targets[0]];
      assert was == single;
      assert t.routes[key := single] == t.routes;
    }
  }

  // ---------------------------------------------------------------- previews

  /** Well-nested preview creations and rollbacks, on any keys. */
  datatype Nesting =
    | Quiet
    | Both(first: Nesting, second: Nesting)
    | During(id: string, key: Key, deployment: string, routeId: string, admitted: bool, inside: Nesting)

  function Ops(n: Nesting): seq<Op> {
    match n
    case Quiet => []
    case Both(a, b) => Ops(a) + Ops(b)
    case During(id, key, deployment, routeId, admitted, inside) =>
      [CreateDeployPreview(id, key, deployment, routeId, admitted)] + Ops(inside) + [RollbackDeployPreview(id)]
  }

  function Ids(n: Nesting): set<string> {
    match n
    case Quiet => {}
    case Both(a, b) => Ids(a) + Ids(b)
    case During(id, _, _, _, _, inside) => {id} + Ids(inside)
  }

  predicate IdsDiffer(n: Nesting) {
    match n
    case Quiet => true
    case Both(a, b) => IdsDiffer(a) && IdsDiffer(b) && Ids(a) !! Ids(b)
    case During(id, _, _, _, _, inside) => IdsDiffer(inside) && id !in Ids(inside)
  }

  lemma {:induction false} ApplyConcat(t: Tables, a: seq<Op>, b: seq<Op>)
    ensures ApplyAll(t, a + b) == ApplyAll(ApplyAll(t, a), b)
    decreases |a|
  {
    if a == [] {
      assert a + b == b;
    } else {
      ApplyConcat(Apply(t, a[0]), a[1..], b);
      assert (a + b)[0] == a[0] && (a + b)[1..] == a[1..] + b;
    }
  }

  /** Nothing else than the previews of the nesting is different afterwards. */
  predicate OnlyAdds(t: Tables, u: Tables, ids: set<string>) {
    && u == t.(previews := u.previews)
    && u.previews.Keys <= t.previews.Keys + ids
    && forall p :: p in t.previews ==> p in u.previews && u.previews[p] == t.previews[p]
  }

  /**
   * Any well-nested run of previews with fresh ids, whether or not its creations succeed, restores
   * every route: its presence, id, deployment and targets.
   */
  lemma {:induction false} NestingRestores(t: Tables, n: Nesting)
    requires IdsDiffer(n) && Ids(n) !! t.previews.Keys
    ensures ApplyAll(t, Ops(n)).routes == t.routes
    ensures OnlyAdds(t, ApplyAll(t, Ops(n)), Ids(n))
    decreases n
  {
    match n
    case Quiet =>
    case Both(a, b) =>
      NestingRestores(t, a);
      NestingRestores(ApplyAll(t, Ops(a)), b);
      ApplyConcat(t, Ops(a), Ops(b));
    case During(id, key, deployment, routeId, admitted, inside) =>
      var create := CreateDeployPreview(id, key, deployment, routeId, admitted);
      var u := Apply(t, create);
      CreateIsUndone(t, id, key, deployment, routeId, admitted);
      NestingRestores(u, inside);
      ApplyAround(t, create, Ops(inside), RollbackDeployPreview(id));
      RollbackUndoes(t, u, ApplyAll(u, Ops(inside)), id, key, Ids(inside));
  }

  lemma ApplyAround(t: Tables, first: Op, between: seq<Op>, last: Op)
    ensures ApplyAll(t, [first] + between + [last]) == Apply(ApplyAll(Apply(t, first), between), last)
  {
    SingleOp(t, first);
    ApplyConcat(t, [first], between);
    ApplyConcat(t, [first] + between, [last]);
    SingleOp(ApplyAll(Apply(t, first), between), last);
  }

  lemma SingleOp(t: Tables, op: Op)
    ensures ApplyAll(t, [op]) == Apply(t, op)
  {
    assert [op][1..] == [];
  }

  /** What a creation with a fresh id leaves: nothing, or a preview that remembers the route it replaced. */
  predicate Remembers(t: Tables, u: Tables, id: string, key: Key) {
    u == t ||
    (&& id in u.previews
     && u == t.(routes := u.routes, previews := t.previews[id := u.previews[id]])
     && key in u.routes
     && !u.previews[id].rolledBack && u.previews[id].key == key
     && u.routes == t.routes[key := u.routes[key]]
     && u.previews[id].previous == (if key in t.routes then Some(t.routes[key]) else None)
     && (key in t.routes ==> u.routes[key].id == t.routes[key].id))
  }

  lemma CreateIsUndone(t: Tables, id: string, key: Key, deployment: string, routeId: string, admitted: bool)
    requires id !in t.previews
    ensures var (u, r) := CreatePreview(t, id, key, deployment, routeId, admitted);
      Remembers(t, u, id, key) && (r.Ok? <==> u != t) && (r.Err? ==> u == t)
  {
    var (u, r) := CreatePreview(t, id, key, deployment, routeId, admitted);
    if r.Ok? {
      assert u.routes == t.routes[key := u.routes[key]];
    }
  }

  lemma RollbackUndoes(t: Tables, u: Tables, v: Tables, id: string, key: Key, inner: set<string>)
    requires id !in t.previews && id !in inner && Remembers(t, u, id, key)
    requires OnlyAdds(u, v, inner)
    ensures OnlyAdds(t, RollbackPreview(v, id).0, {id} + inner)
  {
    var w := RollbackPreview(v, id).0;
    if u != t {
      var p := v.previews[id];
      assert p == u.previews[id];
      if p.previous.Some? {
        assert v.routes[key := p.previous.value.(id := v.routes[key].id)] == t.routes;
      } else {
        assert v.routes - {key} == t.routes;
      }
    }
  }

  /** Rolling back twice is rolling back once. */
  lemma RollbackIsIdempotent(t: Tables, id: string)
    requires RollbackPreview(t, id).1.Ok?
    ensures var (u, r) := RollbackPreview(t, id); RollbackPreview(u, id) == (u, r)
  {}

  /** What can be checked before a creation: it would pass its checks and move the route. */
  predicate WouldMove(t: Tables, key: Key, deployment: string, routeId: string, admitted: bool) {
    var placed := Single(if key in t.routes then t.routes[key].id else routeId, deployment);
    && admitted && Require(t, key.project, deployment).None? && Upsert(t, key, placed).Ok?
    && !(key in t.routes && t.routes[key] == placed)
  }

  /**
   * A creation that fails leaves the tables changed exactly when its id is in use and it would move the
   * route: then the route has moved and no preview remembers where it pointed. Any other failure, and so
   * every failure with a fresh id, changes nothing.
   */
  lemma FailedCreation(t: Tables, id: string, key: Key, deployment: string, routeId: string, admitted: bool)
    ensures var (u, r) := CreatePreview(t, id, key, deployment, routeId, admitted);
            var placed := Single(if key in t.routes then t.routes[key].id else routeId, deployment);
      && (r.Err? && u != t <==> id in t.previews && WouldMove(t, key, deployment, routeId, admitted))
      && (r.Err? && u != t ==> u == t.(routes := t.routes[key := placed]))
      && (id !in t.previews && r.Err? ==> u == t)
  {
    var placed := Single(if key in t.routes then t.routes[key].id else routeId, deployment);
    if key in t.routes && t.routes[key] == placed {
      assert t.routes[key := placed] == t.routes;
    }
    assert t.routes[key := placed] == t.routes ==> key in t.routes && t.routes[key] == placed;
  }

  /**
   * A creation and a rollback with an id whose preview was rolled back before restores the routes exactly
   * when the creation would not have moved any: the rollback finds nothing left to do.
   */
  lemma SettledIdRestores(t: Tables, id: string, key: Key, deployment: string, routeId: string, admitted: bool)
    requires id in t.previews && t.previews[id].rolledBack
    ensures ApplyAll(t, Ops(During(id, key, deployment, routeId, admitted, Quiet))).routes == t.routes
      <==> !WouldMove(t, key, deployment, routeId, admitted)
  {
    var create := CreateDeployPreview(id, key, deployment, routeId, admitted);
    ApplyAround(t, create, [], RollbackDeployPreview(id));
    assert ApplyAll(Apply(t, create), []) == Apply(t, create);
    FailedCreation(t, id, key, deployment, routeId, admitted);
  }

  /** One artifact, two deployments of it, and a preview of the first. */
  function OnePreview(key: Key): Tables {
    Tables(map["a" := key.project], map["d1" := Deployment(key.project, "a"), "d2" := Deployment(key.project, "a")],
           map[key := Single("r", "d1")], map["v" := Preview(key, "d1", None, false)])
  }

  lemma OnePreviewIsReached(key: Key) returns (ops: seq<Op>)
    ensures (forall i :: 0 <= i < |ops| ==> WellFormed(ops[i])) && ApplyAll(EMPTY, ops) == OnePreview(key)
  {
    var artifact := CreateArtifact("a", key.project);
    var first := CreateDeployment("d1", key.project, "a", true);
    var second := CreateDeployment("d2", key.project, "a", true);
    var preview := CreateDeployPreview("v", key, "d1", "r", true);
    var t1 := Apply(EMPTY, artifact);
    var t2 := Apply(t1, first);
    var t3 := Apply(t2, second);
    SingleOp(EMPTY, artifact);
    SingleOp(t1, first);
    SingleOp(t2, second);
    SingleOp(t3, preview);
    ApplyConcat(EMPTY, [artifact], [first]);
    ApplyConcat(EMPTY, [artifact] + [first], [second]);
    ApplyConcat(EMPTY, [artifact] + [first] + [second], [preview]);
    ops := [artifact] + [first] + [second] + [preview];
    assert "d1" != "d2" by { assert "d1"[1] != "d2"[1]; }
    assert Apply(t3, preview) == OnePreview(key);
  }

  /** A preview id used again: the creation fails with a conflict, and the route has moved. */
  lemma ReusedIdMovesRoute(key: Key) returns (ops: seq<Op>)
    ensures forall i :: 0 <= i < |ops| ==> WellFormed(ops[i])
    ensures var t := ApplyAll(EMPTY, ops); var (u, r) := CreatePreview(t, "v", key, "d2", "r", true);
      && r == Err(Conflict) && key in t.routes && key in u.routes
      && t.routes[key].deployment == "d1" && u.routes[key].deployment == "d2"
  {
    ops := OnePreviewIsReached(key);
  }

  /** So a well-nested run that uses an id twice need not restore the routes: here one stays where none was. */
  lemma ReusedIdIsNotRestored(key: Key) returns (ops: seq<Op>, n: Nesting)
    ensures forall i :: 0 <= i < |ops| ==> WellFormed(ops[i])
    ensures var t := ApplyAll(EMPTY, ops);
      t.previews == map[] && t.routes == map[] && ApplyAll(t, Ops(n)).routes != t.routes
  {
    var artifact, first := CreateArtifact("a", key.project), CreateDeployment("d", key.project, "a", true);
    var t1 := Apply(EMPTY, artifact);
    SingleOp(EMPTY, artifact);
    SingleOp(t1, first);
    ApplyConcat(EMPTY, [artifact], [first]);
    ops := [artifact] + [first];
    var t := ApplyAll(EMPTY, ops);
    var once := During("v", key, "d", "r", true, Quiet);
    n := Both(once, once);
    ApplyConcat(t, Ops(once), Ops(once));
    var settled := ApplyAll(t, Ops(once));
    NestingRestores(t, once);
    LeavesSettled(t, "v", key, "d", "r");
    SettledIdRestores(settled, "v", key, "d", "r", true);
  }

  lemma LeavesSettled(t: Tables, id: string, key: Key, deployment: string, routeId: string)
    requires id !in t.previews && WouldMove(t, key, deployment, routeId, true)
    ensures var u := ApplyAll(t, Ops(During(id, key, deployment, routeId, true, Quiet)));
      id in u.previews && u.previews[id].rolledBack
  {
    var create := CreateDeployPreview(id, key, deployment, routeId, true);
    ApplyAround(t, create, [], RollbackDeployPreview(id));
    assert ApplyAll(Apply(t, create), []) == Apply(t, create);
  }
}
