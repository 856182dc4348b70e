/** handleProvision, alone and interleaved with the poller. */
module Provision {
  import opened Wrappers
  import opened Json
  import opened CatalogTypes
  import opened XrdClient
  import opened VersionedCatalog
  import opened Template
  import opened TemplateReader

  datatype Request = Request(name: string, schemaVersion: string, parameters: Object)

  datatype Gvr = Gvr(group: string, version: string, resource: string)

  datatype Xr = Xr(apiVersion: string, kind: string, name: string, namespace: string, parameters: Object)

  /** What the outside answers: the graph parser, the JSON Schema validator
      (schema, object), and nothing else. */
  datatype World = World(parseGraph: string -> Option<Graph>, accepts: (Object, Object) -> bool)

  datatype Decision = EntryNotFound | InvalidBody | VersionNotServed | ValidationFailed | Create(gvr: Gvr, xr: Xr)

  function XrOf(es: EntrySchema, req: Request): Xr {
    Xr(es.group + "/" + req.schemaVersion, es.kind, req.name, "default", req.parameters)
  }

  function GvrOf(es: EntrySchema, req: Request): Gvr { Gvr(es.group, req.schemaVersion, es.resource) }

  /** The handler's checks in order, on the entry it looked up once. */
  function Decide(entry: Option<EntrySchema>, body: Option<Request>, accepts: (Object, Object) -> bool): Decision {
    if entry.None? then EntryNotFound
    else if body.None? then InvalidBody
    else
      var es, req := entry.value, body.value;
      if req.schemaVersion !in es.versions then VersionNotServed
      else if !accepts(es.versions[req.schemaVersion], req.parameters) then ValidationFailed
      else Create(GvrOf(es, req), XrOf(es, req))
  }

  /** `create` is the API server's answer to the create call. The first check that
      fails decides: unknown service, unreadable body, version not served,
      parameters refused. */
  method HandleProvision(cache: Cache, serviceId: string, body: Option<Request>, accepts: (Object, Object) -> bool,
                         create: (Gvr, Xr) -> bool)
    returns (status: int, applied: Option<(Gvr, Xr)>)
    ensures var entry := if serviceId in cache.entrySchemas then Some(cache.entrySchemas[serviceId]) else None;
            match Decide(entry, body, accepts)
            case EntryNotFound => status == 404 && applied == None
            case InvalidBody => status == 400 && applied == None
            case VersionNotServed => status == 404 && applied == None
            case ValidationFailed => status == 400 && applied == None
            case Create(gvr, xr) => applied == Some((gvr, xr)) && status == if create(gvr, xr) then 201 else 500
    ensures serviceId !in cache.entrySchemas ==> status == 404 && applied == None
    ensures serviceId in cache.entrySchemas && body.None? ==> status == 400 && applied == None
    ensures serviceId in cache.entrySchemas && body.Some? ==>
              var es, req := cache.entrySchemas[serviceId], body.value;
              if req.schemaVersion !in es.versions then status == 404 && applied == None
              else if !accepts(es.versions[req.schemaVersion], req.parameters) then status == 400 && applied == None
              else
                var gvr := Gvr(es.group, req.schemaVersion, es.resource);
                var xr := Xr(es.group + "/" + req.schemaVersion, es.kind, req.name, "default", req.parameters);
                applied == Some((gvr, xr)) && status == if create(gvr, xr) then 201 else 500
  {
    var found := cache.GetEntrySchema(serviceId);
    if found.None? {
      return 404, None;
    }
    var es := found.value;
    if body.None? {
      return 400, None;
    }
    var req := body.value;
    if req.schemaVersion !in es.versions {
      return 404, None;
    }
    var versionSchema := es.versions[req.schemaVersion];
    if !accepts(versionSchema, req.parameters) {
      return 400, None;
    }
    var xr := Xr(es.group + "/" + req.schemaVersion, es.kind, req.name, "default", req.parameters);
    var gvr := Gvr(es.group, req.schemaVersion, es.resource);
    var created := create(gvr, xr);
    if !created {
      return 500, Some((gvr, xr));
    }
    return 201, Some((gvr, xr));
  }

  // ----- interleaving with the poller -----

  /** A request after its one cache read; `readAt` counts the polls that had
      succeeded by then. */
  datatype Pending = Pending(serviceId: string, es: EntrySchema, readAt: nat)

  datatype Creation = Creation(serviceId: string, readAt: nat, request: Request, gvr: Gvr, xr: Xr)

  /** `lists` are the successful LISTs so far, in order. */
  datatype Sys = Sys(cache: Snapshot, lists: seq<seq<Xrd>>, pending: map<nat, Pending>, created: seq<Creation>)

  datatype Event =
    | Polled(outcome: Option<seq<Xrd>>)
    | LookedUp(id: nat, serviceId: string)
    | Finished(id: nat, body: Option<Request>, applied: bool)

  const INIT := Sys(EMPTY, [], map[], [])

  /** One atomic step: a poll, a request's read under the lock, or the rest of a
      request, which touches the cache no more. */
  function Apply(w: World, s: Sys, e: Event): Sys {
    match e
    case Polled(None) => s
    case Polled(Some(list)) => s.(cache := SnapshotOf(list, w.parseGraph), lists := s.lists + [list])
    case LookedUp(id, serviceId) =>
      if id in s.pending || serviceId !in s.cache.entrySchemas then s
      else s.(pending := s.pending[id := Pending(serviceId, s.cache.entrySchemas[serviceId], |s.lists|)])
    case Finished(id, body, applied) =>
      if id !in s.pending then s
      else
        var p := s.pending[id];
        var rest := s.(pending := s.pending - {id});
        match Decide(Some(p.es), body, w.accepts)
        case Create(gvr, xr) =>
          if applied then rest.(created := s.created + [Creation(p.serviceId, p.readAt, body.value, gvr, xr)]) else rest
        case _ => rest
  }

  function Run(w: World, events: seq<Event>): Sys {
    if events == [] then INIT else Apply(w, Run(w, events[..|events| - 1]), events[|events| - 1])
  }

  /** es is what the LIST derives for the id. */
  predicate EntryOf(w: World, list: seq<Xrd>, serviceId: string, es: EntrySchema) {
    var schemas := Schemas(list, w.parseGraph);
    serviceId in schemas && schemas[serviceId] == es
  }

  predicate PendingOk(w: World, lists: seq<seq<Xrd>>, p: Pending) {
    1 <= p.readAt <= |lists| && EntryOf(w, lists[p.readAt - 1], p.serviceId, p.es)
  }

  ghost predicate FromEntry(w: World, list: seq<Xrd>, c: Creation) {
    exists es ::
      EntryOf(w, list, c.serviceId, es) && Decide(Some(es), Some(c.request), w.accepts) == Create(c.gvr, c.xr)
  }

  ghost predicate CreationOk(w: World, lists: seq<seq<Xrd>>, c: Creation) {
    1 <= c.readAt <= |lists| && FromEntry(w, lists[c.readAt - 1], c)
  }

  ghost predicate Inv(w: World, s: Sys) {
    && s.cache == (if s.lists == [] then EMPTY else SnapshotOf(s.lists[|s.lists| - 1], w.parseGraph))
    && (forall id :: id in s.pending ==> PendingOk(w, s.lists, s.pending[id]))
    && forall c :: c in s.created ==> CreationOk(w, s.lists, c)
  }

  lemma Step(w: World, s: Sys, e: Event)
    requires Inv(w, s)
    ensures Inv(w, Apply(w, s, e))
  {
    hide Schemas, Items, XrOf, GvrOf, EntryOf, Decide;
    match e
    case Polled(_) => StepPolled(w, s, e);
    case LookedUp(id, serviceId) =>
      if serviceId in s.cache.entrySchemas {
        StepLookedUp(w, s, serviceId);
      }
    case Finished(id, body, applied) =>
      if id in s.pending && Apply(w, s, e).created != s.created {
        var p := s.pending[id];
        var c := Apply(w, s, e).created[|s.created|];
        CreateHasBody(p.es, body, w.accepts);
        assert EntryOf(w, s.lists[c.readAt - 1], c.serviceId, p.es);
        assert FromEntry(w, s.lists[c.readAt - 1], c);
      }
  }

  lemma CreateHasBody(es: EntrySchema, body: Option<Request>, accepts: (Object, Object) -> bool)
    ensures Decide(Some(es), body, accepts).Create? ==> body.Some?
  {}

  lemma StepPolled(w: World, s: Sys, e: Event)
    requires Inv(w, s) && e.Polled?
    ensures Inv(w, Apply(w, s, e))
  {}

  lemma StepLookedUp(w: World, s: Sys, serviceId: string)
    requires Inv(w, s) && serviceId in s.cache.entrySchemas
    ensures s.lists != [] && EntryOf(w, s.lists[|s.lists| - 1], serviceId, s.cache.entrySchemas[serviceId])
  {}

  lemma {:induction false} RunInv(w: World, events: seq<Event>)
    ensures Inv(w, Run(w, events))
  {
    if events != [] {
      RunInv(w, events[..|events| - 1]);
      Step(w, Run(w, events[..|events| - 1]), events[|events| - 1]);
    }
  }

  /** The XRD at position i of the LIST, and its version entry at position j, are
      the ones a creation came from: it is the last XRD with the service id that
      derives, the entry is its last that serves the requested version, the
      parameters passed that entry's schema, and the group, kind, plural and
      version of the XR are that XRD's and that entry's. */
  predicate CreatedFrom(w: World, list: seq<Xrd>, c: Creation, i: int, j: int) {
    && LastDerivedAt(list, i, c.serviceId, w.parseGraph)
    && SpecVersions(list[i]).Some?
    && var versions := SpecVersions(list[i]).value;
    && LastServedAt(versions, j, c.request.schemaVersion)
    && w.accepts(ServedEntry(versions[j]).value.1, c.request.parameters)
    && c.gvr == Gvr(SpecGroup(list[i]), c.request.schemaVersion, SpecPlural(list[i]))
    && c.xr == Xr(SpecGroup(list[i]) + "/" + c.request.schemaVersion, SpecKind(list[i]), c.request.name, "default",
                  c.request.parameters)
  }

  ghost predicate CreatedFromOne(w: World, list: seq<Xrd>, c: Creation) {
    exists i, j :: CreatedFrom(w, list, c, i, j)
  }

  /** For every interleaving of polls and requests, each XR created came from one
      XRD and one served version of one LIST, the one that was current when the
      request read the cache. */
  lemma OneSnapshot(w: World, events: seq<Event>, c: Creation)
    requires c in Run(w, events).created
    ensures 1 <= c.readAt <= |Run(w, events).lists|
    ensures CreatedFromOne(w, Run(w, events).lists[c.readAt - 1], c)
  {
    hide Schemas, EntrySchemaOf, ServedEntry, NestedField, NestedString, Run;
    RunInv(w, events);
    var list := Run(w, events).lists[c.readAt - 1];
    assert FromEntry(w, list, c);
    var es :| EntryOf(w, list, c.serviceId, es) && Decide(Some(es), Some(c.request), w.accepts) == Create(c.gvr, c.xr);
    SchemasExact(list, c.serviceId, w.parseGraph);
    var i :| LastDerivedAt(list, i, c.serviceId, w.parseGraph);
    DeriveExact(list[i], c.serviceId, w.parseGraph, es);
    var versions := SpecVersions(list[i]).value;
    var v := c.request.schemaVersion;
    LastServedExists(versions, v);
    var j :| LastServedAt(versions, j, v);
    assert CreatedFrom(w, list, c, i, j);
  }

  lemma {:induction false} LastServedExists(versions: seq<Json>, name: string)
    requires exists i :: ServesAt(versions, i, name)
    ensures exists i :: LastServedAt(versions, i, name)
  {
    var n := |versions| - 1;
    if ServesAt(versions, n, name) {
      assert LastServedAt(versions, n, name);
    } else {
      var front := versions[..n];
      forall i ensures ServesAt(front, i, name) <==> ServesAt(versions, i, name) {}
      LastServedExists(front, name);
      var i :| LastServedAt(front, i, name);
      assert LastServedAt(versions, i, name);
    }
  }

  /** The service is derived from the LIST, in a served version whose schema
      accepts the parameters. */
  predicate Provisionable(w: World, list: seq<Xrd>, serviceId: string, req: Request) {
    var schemas := Schemas(list, w.parseGraph);
    && serviceId in schemas
    && req.schemaVersion in schemas[serviceId].versions
    && w.accepts(schemas[serviceId].versions[req.schemaVersion], req.parameters)
  }

  /** With nothing in between, a request creates an XR exactly when it is
      provisionable in the current LIST and the API server takes it. */
  lemma CreatesExactly(w: World, events: seq<Event>, id: nat, serviceId: string, req: Request, applied: bool)
    requires id !in Run(w, events).pending
    ensures var s := Run(w, events);
            var s' := Apply(w, Apply(w, s, LookedUp(id, serviceId)), Finished(id, Some(req), applied));
            && s'.pending == s.pending
            && (s'.created != s.created <==>
                  applied && s.lists != [] && Provisionable(w, s.lists[|s.lists| - 1], serviceId, req))
  {
    hide Schemas, Items, Run, XrOf, GvrOf;
    RunInv(w, events);
    var s := Run(w, events);
    if serviceId in s.cache.entrySchemas {
      assert s.pending[id := Pending(serviceId, s.cache.entrySchemas[serviceId], |s.lists|)] - {id} == s.pending;
    }
  }

  // ----- from template to request -----

  /** Posting the version read from a printed template passes the version check
      exactly when the XRD has a served entry of that name; read from a version of
      one line it is the storage version. */
  lemma TemplateVersionIsProvisionable(w: World, xrd: Xrd, serviceId: string, es: EntrySchema, f: Format, name: string,
                                       parameters: Object)
    requires EntrySchemaOf(xrd, serviceId, w.parseGraph) == Some(es)
    ensures var version := ReadVersion(Unlines(TemplateLines(es, f)));
            && version.Some?
            && (OneLine(es.storageVersion) ==> version.value == es.storageVersion)
            && (Decide(Some(es), Some(Request(name, version.value, parameters)), w.accepts) != VersionNotServed
                <==> exists i :: ServesAt(SpecVersions(xrd).value, i, version.value))
  {
    hide ReadVersion, Unlines, TemplateLines, EntrySchemaOf;
    VersionReadsBack(es, f);
    DeriveExact(xrd, serviceId, w.parseGraph, es);
  }

  /** For an XRD that derives a schema, the template has the header alone and its
      version is refused when posted back, if no entry serves the name of the first
      referenceable one; otherwise the version passes. */
  lemma UnservedTemplate(w: World, xrd: Xrd, serviceId: string, es: EntrySchema, f: Format, req: Request)
    requires EntrySchemaOf(xrd, serviceId, w.parseGraph) == Some(es)
    requires req.schemaVersion == es.storageVersion
    ensures Decide(Some(es), Some(req), w.accepts) == VersionNotServed
       <==> !ServesReferenceable(SpecVersions(xrd).value)
    ensures !ServesReferenceable(SpecVersions(xrd).value) ==>
              Groups(es) == map[] && TemplateLines(es, f) == HeaderLines(es.storageVersion)
  {
    hide TemplateLines, EntrySchemaOf, Groups;
    DeriveExact(xrd, serviceId, w.parseGraph, es);
    if es.storageVersion !in es.versions {
      UnservedPrintsHeader(es, f);
    }
  }
}
