/** internal/xrdclient of the versioned-schema PoC: what one LIST of XRDs
    derives. `parseGraph` is json.Unmarshal into the resource graph. */
module XrdClient {
  import opened Wrappers
  import opened Json
  import opened CatalogTypes
  import opened LastWriter

  type Graph = seq<ResourceGraphNode>

  /** An XRD as the dynamic client returns it. */
  datatype Xrd = Xrd(annotations: map<string, string>, manifest: Object)

  // ----- the unstructured accessors -----

  datatype Nested = Missing | Found(json: Json) | BadPath

  function NestedField(j: Json, path: seq<string>): Nested {
    if path == [] then Found(j)
    else match j
      case Null => Missing
      case Obj(fields) => if path[0] in fields then NestedField(fields[path[0]], path[1..]) else Missing
      case _ => BadPath
  }

  function NestedString(j: Json, path: seq<string>): string {
    match NestedField(j, path)
    case Found(Str(s)) => s
    case _ => ""
  }

  function NestedBool(j: Json, path: seq<string>): bool {
    match NestedField(j, path)
    case Found(Bool(b)) => b
    case _ => false
  }

  function NestedSlice(j: Json, path: seq<string>): Option<seq<Json>> {
    match NestedField(j, path)
    case Found(Arr(items)) => Some(items)
    case _ => None
  }

  function NestedMap(j: Json, path: seq<string>): Option<Object> {
    match NestedField(j, path)
    case Found(Obj(fields)) => Some(fields)
    case _ => None
  }

  function Annotation(xrd: Xrd, key: string): string {
    if key in xrd.annotations then xrd.annotations[key] else ""
  }

  const SERVICE_ID := "catalog.ucp.io/service-id"
  const RESOURCE_GRAPH := "catalog.ucp.io/resource-graph"
  const PARAMETERS := ["schema", "openAPIV3Schema", "properties", "spec", "properties", "parameters"]

  // ----- deriveItem -----

  function ServiceId(xrd: Xrd): string { Annotation(xrd, SERVICE_ID) }

  function DeriveItem(xrd: Xrd): Option<Item> {
    if ServiceId(xrd) == "" then None
    else Some(Item(ServiceId(xrd), Annotation(xrd, "catalog.ucp.io/name"), Annotation(xrd, "catalog.ucp.io/provider"),
                   Annotation(xrd, "catalog.ucp.io/category"), Annotation(xrd, "catalog.ucp.io/description")))
  }

  // ----- deriveEntrySchema -----

  /** The name and parameters schema of a named, served version entry that has one. */
  function ServedEntry(v: Json): Option<(string, Object)> {
    if v.Obj? && NestedString(v, ["name"]) != "" && NestedBool(v, ["served"]) then
      match NestedMap(v, PARAMETERS)
      case None => None
      case Some(params) => Some((NestedString(v, ["name"]), params))
    else None
  }

  function ServedEntries(versions: seq<Json>): seq<Option<(string, Object)>> {
    seq(|versions|, i requires 0 <= i < |versions| => ServedEntry(versions[i]))
  }

  predicate Referenceable(v: Json) { v.Obj? && NestedBool(v, ["referenceable"]) }

  /** The name of the first referenceable entry; "" without one. */
  function FirstReferenceable(versions: seq<Json>): string {
    if versions == [] then ""
    else if Referenceable(versions[0]) then NestedString(versions[0], ["name"])
    else FirstReferenceable(versions[1..])
  }

  function SpecVersions(xrd: Xrd): Option<seq<Json>> { NestedSlice(Obj(xrd.manifest), ["spec", "versions"]) }
  function SpecGroup(xrd: Xrd): string { NestedString(Obj(xrd.manifest), ["spec", "group"]) }
  function SpecKind(xrd: Xrd): string { NestedString(Obj(xrd.manifest), ["spec", "names", "kind"]) }
  function SpecPlural(xrd: Xrd): string { NestedString(Obj(xrd.manifest), ["spec", "names", "plural"]) }

  function Derived(xrd: Xrd, serviceId: string, graph: Graph, versions: seq<Json>): EntrySchema {
    EntrySchema(serviceId, graph, Collect(ServedEntries(versions)), FirstReferenceable(versions),
                SpecGroup(xrd), SpecKind(xrd), SpecPlural(xrd))
  }

  /** The XRD has all that deriveEntrySchema asks for. */
  predicate Derivable(xrd: Xrd, parseGraph: string -> Option<Graph>) {
    && RESOURCE_GRAPH in xrd.annotations
    && parseGraph(xrd.annotations[RESOURCE_GRAPH]).Some?
    && SpecVersions(xrd).Some?
    && SpecGroup(xrd) != "" && SpecKind(xrd) != "" && SpecPlural(xrd) != ""
    && FirstReferenceable(SpecVersions(xrd).value) != ""
    && Collect(ServedEntries(SpecVersions(xrd).value)) != map[]
  }

  function EntrySchemaOf(xrd: Xrd, serviceId: string, parseGraph: string -> Option<Graph>): Option<EntrySchema> {
    if Derivable(xrd, parseGraph) then
      Some(Derived(xrd, serviceId, parseGraph(xrd.annotations[RESOURCE_GRAPH]).value, SpecVersions(xrd).value))
    else None
  }

  method DeriveEntrySchema(xrd: Xrd, serviceId: string, parseGraph: string -> Option<Graph>)
    returns (r: Option<EntrySchema>)
    ensures r == EntrySchemaOf(xrd, serviceId, parseGraph)
  {
    hide NestedField, NestedString, NestedBool, NestedMap, NestedSlice;
    if RESOURCE_GRAPH !in xrd.annotations {
      return None;
    }
    var graph := parseGraph(xrd.annotations[RESOURCE_GRAPH]);
    if graph.None? {
      return None;
    }
    var spec := SpecVersions(xrd);
    if spec.None? {
      return None;
    }
    var versions := spec.value;
    var group, kind, resource := SpecGroup(xrd), SpecKind(xrd), SpecPlural(xrd);
    if group == "" || kind == "" || resource == "" {
      return None;
    }
    var served: map<string, Object> := map[];
    for i := 0 to |versions|
      invariant served == Collect(ServedEntries(versions[..i]))
    {
      var vm := versions[i];
      assert ServedEntries(versions[..i + 1]) == ServedEntries(versions[..i]) + [ServedEntry(vm)];
      CollectSnoc(ServedEntries(versions[..i]), ServedEntry(vm));
      if !vm.Obj? {
        continue;
      }
      var name := NestedString(vm, ["name"]);
      if name == "" || !NestedBool(vm, ["served"]) {
        continue;
      }
      var params := NestedMap(vm, PARAMETERS);
      if params.None? {
        continue;
      }
      served := served[name := params.value];
    }
    assert versions[..|versions|] == versions;
    var storageVersion := "";
    var i := 0;
    while i < |versions|
      invariant 0 <= i <= |versions|
      invariant storageVersion == "" && FirstReferenceable(versions) == FirstReferenceable(versions[i..])
    {
      var vm := versions[i];
      assert versions[i..][0] == vm && versions[i..][1..] == versions[i + 1..];
      if vm.Obj? && NestedBool(vm, ["referenceable"]) {
        storageVersion := NestedString(vm, ["name"]);
        break;
      }
      i := i + 1;
    }
    if storageVersion == "" || |served| == 0 {
      return None;
    }
    return Some(EntrySchema(serviceId, graph.value, served, storageVersion, group, kind, resource));
  }

  // ----- ListCatalogItems -----

  function SchemaEntry(xrd: Xrd, parseGraph: string -> Option<Graph>): Option<(string, EntrySchema)> {
    if ServiceId(xrd) == "" then None
    else match EntrySchemaOf(xrd, ServiceId(xrd), parseGraph)
      case None => None
      case Some(es) => Some((ServiceId(xrd), es))
  }

  function SchemaEntries(list: seq<Xrd>, parseGraph: string -> Option<Graph>): seq<Option<(string, EntrySchema)>> {
    seq(|list|, i requires 0 <= i < |list| => SchemaEntry(list[i], parseGraph))
  }

  function Schemas(list: seq<Xrd>, parseGraph: string -> Option<Graph>): map<string, EntrySchema> {
    Collect(SchemaEntries(list, parseGraph))
  }

  function Items(list: seq<Xrd>): seq<Item> {
    if list == [] then []
    else
      var items := Items(list[..|list| - 1]);
      match DeriveItem(list[|list| - 1])
      case None => items
      case Some(item) => items + [item]
  }

  /** None is a failed LIST. */
  method ListCatalogItems(listed: Option<seq<Xrd>>, parseGraph: string -> Option<Graph>)
    returns (r: Option<(seq<Item>, map<string, EntrySchema>)>)
    ensures r == match listed case None => None case Some(list) => Some((Items(list), Schemas(list, parseGraph)))
  {
    hide EntrySchemaOf, ServiceId;
    if listed.None? {
      return None;
    }
    var list := listed.value;
    var items: seq<Item> := [];
    var schemas: map<string, EntrySchema> := map[];
    for i := 0 to |list|
      invariant items == Items(list[..i])
      invariant schemas == Schemas(list[..i], parseGraph)
    {
      assert list[..i + 1][..i] == list[..i];
      assert SchemaEntries(list[..i + 1], parseGraph)
          == SchemaEntries(list[..i], parseGraph) + [SchemaEntry(list[i], parseGraph)];
      CollectSnoc(SchemaEntries(list[..i], parseGraph), SchemaEntry(list[i], parseGraph));
      var item := DeriveItem(list[i]);
      if item.None? {
        continue;
      }
      items := items + [item.value];
      var es := DeriveEntrySchema(list[i], item.value.serviceId, parseGraph);
      if es.None? {
        continue;
      }
      schemas := schemas[item.value.serviceId := es.value];
    }
    assert list[..|list|] == list;
    return Some((items, schemas));
  }

  // ----- what the entries hold, field by field -----

  /** x lies in j at the path of keys. */
  predicate HoldsAt(j: Json, path: seq<string>, x: Json) {
    if path == [] then j == x
    else j.Obj? && path[0] in j.fields && HoldsAt(j.fields[path[0]], path[1..], x)
  }

  lemma {:induction false} FoundExact(j: Json, path: seq<string>, x: Json)
    ensures NestedField(j, path) == Found(x) <==> HoldsAt(j, path, x)
  {
    if path != [] && j.Obj? && path[0] in j.fields {
      FoundExact(j.fields[path[0]], path[1..], x);
    }
  }

  /** The entry is named n, served, and has p as its parameters schema. */
  predicate Serves(v: Json, n: string, p: Object) {
    && n != "" && v.Obj?
    && "name" in v.fields && v.fields["name"] == Str(n)
    && "served" in v.fields && v.fields["served"] == Bool(true)
    && HoldsAt(v, ["schema", "openAPIV3Schema", "properties", "spec", "properties", "parameters"], Obj(p))
  }

  predicate MarkedReferenceable(v: Json) {
    v.Obj? && "referenceable" in v.fields && v.fields["referenceable"] == Bool(true)
  }

  lemma ReferenceableExact(v: Json)
    ensures Referenceable(v) <==> MarkedReferenceable(v)
  {
    if v.Obj? {
      LookUp(v.fields, "referenceable");
      hide NestedField;
    }
  }

  lemma ServedEntryExact(v: Json, n: string, p: Object)
    ensures ServedEntry(v) == Some((n, p)) <==> Serves(v, n, p)
  {
    hide NestedField, HoldsAt;
    FoundExact(v, PARAMETERS, Obj(p));
    if v.Obj? {
      LookUp(v.fields, "name");
      LookUp(v.fields, "served");
    }
  }

  lemma NestedStringExact(j: Json, path: seq<string>, text: string)
    requires text != ""
    ensures NestedString(j, path) == text <==> HoldsAt(j, path, Str(text))
  {
    hide NestedField, HoldsAt;
    FoundExact(j, path, Str(text));
  }

  ghost predicate ServesAny(v: Json, n: string) { exists p :: Serves(v, n, p) }

  predicate LastServes(versions: seq<Json>, i: int, n: string, p: Object) {
    0 <= i < |versions| && Serves(versions[i], n, p)
  }

  ghost predicate VersionFrom(versions: seq<Json>, n: string, p: Object) {
    exists i :: LastServes(versions, i, n, p) && forall j :: i < j < |versions| ==> !ServesAny(versions[j], n)
  }

  predicate FirstMarked(versions: seq<Json>, i: int) {
    && 0 <= i < |versions| && MarkedReferenceable(versions[i])
    && forall j :: 0 <= j < i ==> !MarkedReferenceable(versions[j])
  }

  ghost predicate NamedByFirstMarked(versions: seq<Json>, name: string) {
    exists i :: FirstMarked(versions, i) && "name" in versions[i].fields && versions[i].fields["name"] == Str(name)
  }

  predicate Maps(m: map<string, Object>, n: string, p: Object) { n in m && m[n] == p }

  /** The schema in terms of the XRD's own fields: which entry each version comes
      from, which entry names the storage version, and where the rest is copied from. */
  ghost predicate ReadOff(es: EntrySchema, xrd: Xrd, parseGraph: string -> Option<Graph>) {
    var manifest := Obj(xrd.manifest);
    && "catalog.ucp.io/resource-graph" in xrd.annotations
    && parseGraph(xrd.annotations["catalog.ucp.io/resource-graph"]) == Some(es.resourceGraph)
    && HoldsAt(manifest, ["spec", "group"], Str(es.group))
    && HoldsAt(manifest, ["spec", "names", "kind"], Str(es.kind))
    && HoldsAt(manifest, ["spec", "names", "plural"], Str(es.resource))
    && exists versions ::
         && HoldsAt(manifest, ["spec", "versions"], Arr(versions))
         && (forall n, p :: Maps(es.versions, n, p) <==> VersionFrom(versions, n, p))
         && NamedByFirstMarked(versions, es.storageVersion)
  }

  // ----- the derivation is exact -----

  predicate ServesAt(versions: seq<Json>, i: int, name: string) {
    0 <= i < |versions| && ServedEntry(versions[i]).Some? && ServedEntry(versions[i]).value.0 == name
  }

  predicate LastServedAt(versions: seq<Json>, i: int, name: string) {
    ServesAt(versions, i, name) && forall j :: i < j < |versions| ==> !ServesAt(versions, j, name)
  }

  predicate FirstReferenceableAt(versions: seq<Json>, i: int) {
    0 <= i < |versions| && Referenceable(versions[i]) && forall j :: 0 <= j < i ==> !Referenceable(versions[j])
  }

  lemma {:induction false} FirstReferenceableExact(versions: seq<Json>, i: int)
    requires FirstReferenceableAt(versions, i)
    ensures FirstReferenceable(versions) == NestedString(versions[i], ["name"])
  {
    if i > 0 {
      assert !Referenceable(versions[0]);
      FirstReferenceableExact(versions[1..], i - 1);
    }
  }

  lemma {:induction false} FirstReferenceableExists(versions: seq<Json>)
    requires FirstReferenceable(versions) != ""
    ensures exists i :: FirstReferenceableAt(versions, i)
  {
    if Referenceable(versions[0]) {
      assert FirstReferenceableAt(versions, 0);
    } else {
      FirstReferenceableExists(versions[1..]);
      var i :| FirstReferenceableAt(versions[1..], i);
      assert forall j :: 0 < j < i + 1 ==> versions[j] == versions[1..][j - 1];
      assert FirstReferenceableAt(versions, i + 1);
    }
  }

  lemma CollectedVersions(versions: seq<Json>, name: string)
    ensures var m := Collect(ServedEntries(versions));
            && (name in m <==> exists i :: ServesAt(versions, i, name))
            && forall i :: LastServedAt(versions, i, name) ==> name in m && m[name] == ServedEntry(versions[i]).value.1
  {
    hide ServedEntry, Collect;
    var entries := ServedEntries(versions);
    CollectExact(entries, name);
    forall i: int ensures ServesAt(versions, i, name) <==> Writes(entries, i, name) {}
    forall i: int | LastServedAt(versions, i, name) ensures LastWrite(entries, i, name) {}
  }

  /** Versions maps each named served version with parameters to its last such
      entry, and StorageVersion names the first referenceable entry. */
  ghost predicate DerivedFrom(es: EntrySchema, versions: seq<Json>) {
    && (forall name :: name in es.versions <==> exists i :: ServesAt(versions, i, name))
    && (forall name, i :: LastServedAt(versions, i, name) ==>
          name in es.versions && es.versions[name] == ServedEntry(versions[i]).value.1)
    && exists i :: FirstReferenceableAt(versions, i) && NestedString(versions[i], ["name"]) == es.storageVersion
  }

  /** Some entry serves the name of the first referenceable one. */
  ghost predicate ServesReferenceable(versions: seq<Json>) {
    exists i, j :: FirstReferenceableAt(versions, i) && ServesAt(versions, j, NestedString(versions[i], ["name"]))
  }

  /** The derivation is exact, and the storage version lies in Versions
      precisely when some entry serves the name of the first referenceable one. */
  lemma DeriveExact(xrd: Xrd, serviceId: string, parseGraph: string -> Option<Graph>, es: EntrySchema)
    requires EntrySchemaOf(xrd, serviceId, parseGraph) == Some(es)
    ensures SpecVersions(xrd).Some? && DerivedFrom(es, SpecVersions(xrd).value)
    ensures es.storageVersion in es.versions <==> ServesReferenceable(SpecVersions(xrd).value)
    ensures es.storageVersion != "" && es.serviceId == serviceId
    ensures (es.group, es.kind, es.resource) == (SpecGroup(xrd), SpecKind(xrd), SpecPlural(xrd))
    ensures ReadOff(es, xrd, parseGraph)
  {
    DerivedReadsOff(xrd, serviceId, parseGraph, es);
    hide ReadOff;
    hide NestedField, NestedString, ServedEntry, Referenceable, Collect;
    var versions := SpecVersions(xrd).value;
    forall name ensures name in es.versions <==> exists i :: ServesAt(versions, i, name) {
      CollectedVersions(versions, name);
    }
    forall name, i | LastServedAt(versions, i, name)
      ensures name in es.versions && es.versions[name] == ServedEntry(versions[i]).value.1
    {
      CollectedVersions(versions, name);
    }
    FirstReferenceableExists(versions);
    var i :| FirstReferenceableAt(versions, i);
    FirstReferenceableExact(versions, i);
    forall k | FirstReferenceableAt(versions, k) ensures k == i {}
  }

  lemma VersionsReadOff(versions: seq<Json>, n: string, p: Object)
    ensures Maps(Collect(ServedEntries(versions)), n, p) <==> VersionFrom(versions, n, p)
  {
    hide ServedEntry, Serves, Collect;
    var entries := ServedEntries(versions);
    CollectExact(entries, n);
    forall i: int, q ensures LastServes(versions, i, n, q) <==> 0 <= i < |versions| && entries[i] == Some((n, q)) {
      if 0 <= i < |versions| { ServedEntryExact(versions[i], n, q); }
    }
    forall i: int | 0 <= i < |versions| ensures ServesAny(versions[i], n) <==> Writes(entries, i, n) {
      if Writes(entries, i, n) {
        assert LastServes(versions, i, n, entries[i].value.1);
      }
      if ServesAny(versions[i], n) {
        var q :| Serves(versions[i], n, q);
        assert LastServes(versions, i, n, q);
      }
    }
    var m := Collect(entries);
    if n in m && m[n] == p {
      var i :| LastWrite(entries, i, n);
      assert LastServes(versions, i, n, p);
    }
    if VersionFrom(versions, n, p) {
      var i :| LastServes(versions, i, n, p) && forall j :: i < j < |versions| ==> !ServesAny(versions[j], n);
      assert Writes(entries, i, n) && LastWrite(entries, i, n);
    }
  }

  lemma StorageReadOff(versions: seq<Json>)
    requires FirstReferenceable(versions) != ""
    ensures NamedByFirstMarked(versions, FirstReferenceable(versions))
  {
    hide NestedField;
    FirstReferenceableExists(versions);
    var i :| FirstReferenceableAt(versions, i);
    FirstReferenceableExact(versions, i);
    forall j | 0 <= j < |versions| ensures Referenceable(versions[j]) <==> MarkedReferenceable(versions[j]) {
      ReferenceableExact(versions[j]);
    }
    LookUp(versions[i].fields, "name");
    assert FirstMarked(versions, i);
  }

  /** Every derived schema is what the XRD's own fields say. */
  lemma DerivedReadsOff(xrd: Xrd, serviceId: string, parseGraph: string -> Option<Graph>, es: EntrySchema)
    requires EntrySchemaOf(xrd, serviceId, parseGraph) == Some(es)
    ensures ReadOff(es, xrd, parseGraph) && es.serviceId == serviceId
  {
    hide NestedField, HoldsAt, Collect, FirstReferenceable;
    var manifest := Obj(xrd.manifest);
    var versions := SpecVersions(xrd).value;
    FoundExact(manifest, ["spec", "versions"], Arr(versions));
    NestedStringExact(manifest, ["spec", "group"], es.group);
    NestedStringExact(manifest, ["spec", "names", "kind"], es.kind);
    NestedStringExact(manifest, ["spec", "names", "plural"], es.resource);
    forall n, p ensures Maps(es.versions, n, p) <==> VersionFrom(versions, n, p) {
      VersionsReadOff(versions, n, p);
    }
    StorageReadOff(versions);
  }

  /** A schema is derived exactly when it can be read off the XRD's own fields, with
      a group, kind, plural, storage version and at least one version. */
  lemma DerivesExactly(xrd: Xrd, serviceId: string, parseGraph: string -> Option<Graph>, es: EntrySchema)
    ensures EntrySchemaOf(xrd, serviceId, parseGraph) == Some(es) <==>
              && es.serviceId == serviceId && ReadOff(es, xrd, parseGraph)
              && es.group != "" && es.kind != "" && es.resource != "" && es.storageVersion != "" && es.versions != map[]
  {
    hide NestedField, NestedString, HoldsAt, Collect, FirstReferenceable, ReadOff, VersionFrom;
    if EntrySchemaOf(xrd, serviceId, parseGraph) == Some(es) {
      DerivedReadsOff(xrd, serviceId, parseGraph, es);
    }
    if es.serviceId == serviceId && ReadOff(es, xrd, parseGraph) && es.group != "" && es.kind != "" && es.resource != ""
       && es.storageVersion != "" && es.versions != map[] {
      ReadOffDerives(xrd, parseGraph, es);
    }
  }

  lemma ReadOffDerives(xrd: Xrd, parseGraph: string -> Option<Graph>, es: EntrySchema)
    requires ReadOff(es, xrd, parseGraph) && es.group != "" && es.kind != "" && es.resource != ""
    requires es.storageVersion != "" && es.versions != map[]
    ensures EntrySchemaOf(xrd, es.serviceId, parseGraph) == Some(es)
  {
    hide NestedField, NestedString, HoldsAt, Collect, FirstReferenceable, VersionFrom, NamedByFirstMarked;
    var manifest := Obj(xrd.manifest);
    var versions :|
      && HoldsAt(manifest, ["spec", "versions"], Arr(versions))
      && (forall n, p :: Maps(es.versions, n, p) <==> VersionFrom(versions, n, p))
      && NamedByFirstMarked(versions, es.storageVersion);
    FoundExact(manifest, ["spec", "versions"], Arr(versions));
    NestedStringExact(manifest, ["spec", "group"], es.group);
    NestedStringExact(manifest, ["spec", "names", "kind"], es.kind);
    NestedStringExact(manifest, ["spec", "names", "plural"], es.resource);
    StorageNamed(versions, es.storageVersion);
    var m := Collect(ServedEntries(versions));
    forall n, p ensures Maps(m, n, p) <==> Maps(es.versions, n, p) { VersionsReadOff(versions, n, p); }
    SameMap(m, es.versions);
  }

  lemma SameMap(a: map<string, Object>, b: map<string, Object>)
    requires forall n, p :: Maps(a, n, p) <==> Maps(b, n, p)
    ensures a == b
  {
    assert forall n :: n in a ==> Maps(a, n, a[n]);
    assert forall n :: n in b ==> Maps(b, n, b[n]);
  }

  lemma StorageNamed(versions: seq<Json>, name: string)
    requires NamedByFirstMarked(versions, name)
    ensures FirstReferenceable(versions) == name
  {
    hide NestedField;
    var i :| FirstMarked(versions, i) && "name" in versions[i].fields && versions[i].fields["name"] == Str(name);
    forall j | 0 <= j < |versions| ensures Referenceable(versions[j]) <==> MarkedReferenceable(versions[j]) {
      ReferenceableExact(versions[j]);
    }
    assert FirstReferenceableAt(versions, i);
    FirstReferenceableExact(versions, i);
    LookUp(versions[i].fields, "name");
  }

  /** When a schema is derived at all, in terms of the XRD's entries alone. */
  lemma DerivableExactly(xrd: Xrd, parseGraph: string -> Option<Graph>)
    ensures Derivable(xrd, parseGraph) <==>
              && RESOURCE_GRAPH in xrd.annotations && parseGraph(xrd.annotations[RESOURCE_GRAPH]).Some?
              && SpecVersions(xrd).Some?
              && SpecGroup(xrd) != "" && SpecKind(xrd) != "" && SpecPlural(xrd) != ""
              && (exists i :: FirstReferenceableAt(SpecVersions(xrd).value, i)
                    && NestedString(SpecVersions(xrd).value[i], ["name"]) != "")
              && exists i, name :: ServesAt(SpecVersions(xrd).value, i, name)
  {
    hide NestedField, NestedString, NestedSlice, ServedEntry, Referenceable, Collect;
    if SpecVersions(xrd).Some? {
      var versions := SpecVersions(xrd).value;
      if FirstReferenceable(versions) != "" {
        FirstReferenceableExists(versions);
        var i :| FirstReferenceableAt(versions, i);
        FirstReferenceableExact(versions, i);
      }
      forall i | FirstReferenceableAt(versions, i)
        ensures FirstReferenceable(versions) == NestedString(versions[i], ["name"])
      {
        FirstReferenceableExact(versions, i);
      }
      var m := Collect(ServedEntries(versions));
      if m != map[] {
        var name :| name in m;
        CollectedVersions(versions, name);
      }
      forall i, name | ServesAt(versions, i, name) ensures m != map[] {
        CollectedVersions(versions, name);
      }
    }
  }

  /** The code does not tie the storage version to the served ones: for all
      names, graphs and parameters, an XRD whose referenceable entry is not served
      derives a schema without it. */
  lemma StorageVersionMayBeUnserved(
      xrd: Xrd, serviceId: string, graph: string, group: string, kind: string, plural: string, params: Object,
      parseGraph: string -> Option<Graph>)
    returns (es: EntrySchema)
    requires xrd == UnservedXrd(graph, group, kind, plural, params)
    requires parseGraph(graph).Some? && group != "" && kind != "" && plural != ""
    ensures EntrySchemaOf(xrd, serviceId, parseGraph) == Some(es)
    ensures es.storageVersion == "v2" && es.versions == map["v1" := params]
  {
    hide NestedField, ServedVersion, UnservedStorageVersion, Collect;
    var versions := [ServedVersion("v1", params), UnservedStorageVersion("v2")];
    UnservedXrdFields(xrd, graph, group, kind, plural, params);
    UnservedVersions(versions, params);
    es := Derived(xrd, serviceId, parseGraph(graph).value, versions);
    assert "v1" in es.versions;
  }

  function UnservedXrd(graph: string, group: string, kind: string, plural: string, params: Object): Xrd {
    Xrd(map[RESOURCE_GRAPH := graph],
        map["spec" := Obj(map[
          "group" := Str(group),
          "names" := Obj(map["kind" := Str(kind), "plural" := Str(plural)]),
          "versions" := Arr([ServedVersion("v1", params), UnservedStorageVersion("v2")])])])
  }

  lemma UnservedXrdFields(xrd: Xrd, graph: string, group: string, kind: string, plural: string, params: Object)
    requires xrd == UnservedXrd(graph, group, kind, plural, params)
    ensures RESOURCE_GRAPH in xrd.annotations && xrd.annotations[RESOURCE_GRAPH] == graph
    ensures SpecGroup(xrd) == group && SpecKind(xrd) == kind && SpecPlural(xrd) == plural
    ensures SpecVersions(xrd) == Some([ServedVersion("v1", params), UnservedStorageVersion("v2")])
  {
    hide NestedField, ServedVersion, UnservedStorageVersion;
    var spec := xrd.manifest["spec"].fields;
    var names := spec["names"].fields;
    assert ["spec", "group"] == ["spec"] + ["group"] && ["spec", "versions"] == ["spec"] + ["versions"];
    assert ["spec", "names", "kind"] == ["spec"] + ["names", "kind"] && ["names", "kind"] == ["names"] + ["kind"];
    assert ["spec", "names", "plural"] == ["spec"] + ["names", "plural"]
        && ["names", "plural"] == ["names"] + ["plural"];
    Descend(xrd.manifest, "spec", ["group"]);
    Descend(xrd.manifest, "spec", ["versions"]);
    Descend(xrd.manifest, "spec", ["names", "kind"]);
    Descend(xrd.manifest, "spec", ["names", "plural"]);
    Descend(spec, "names", ["kind"]);
    Descend(spec, "names", ["plural"]);
    LookUp(spec, "group");
    LookUp(spec, "versions");
    LookUp(names, "kind");
    LookUp(names, "plural");
  }

  lemma UnservedVersions(versions: seq<Json>, params: Object)
    requires versions == [ServedVersion("v1", params), UnservedStorageVersion("v2")]
    ensures FirstReferenceable(versions) == "v2"
    ensures Collect(ServedEntries(versions)) == map["v1" := params]
  {
    hide NestedField;
    ServedVersionEntry("v1", params);
    UnservedStorageEntry("v2");
    assert FirstReferenceableAt(versions, 1);
    FirstReferenceableExact(versions, 1);
    assert ServedEntries(versions) == [Some(("v1", params))] + [None];
    CollectSnoc([Some(("v1", params))], None);
    CollectSnoc<string, Object>([], Some(("v1", params)));
    assert [] + [Some(("v1", params))] == [Some(("v1", params))];
  }

  function ServedVersion(name: string, params: Object): Json {
    Obj(map["name" := Str(name), "served" := Bool(true), "schema" := OpenApi(params)])
  }

  function OpenApi(params: Object): Json {
    Obj(map["openAPIV3Schema" := Obj(map["properties" := Obj(map["spec" := Obj(map["properties" :=
      Obj(map["parameters" := Obj(params)])])])])])
  }

  function UnservedStorageVersion(name: string): Json {
    Obj(map["name" := Str(name), "referenceable" := Bool(true)])
  }

  lemma Descend(fields: Object, key: string, rest: seq<string>)
    ensures NestedField(Obj(fields), [key] + rest) == if key in fields then NestedField(fields[key], rest) else Missing
  {}

  lemma LookUp(fields: Object, key: string)
    ensures NestedField(Obj(fields), [key]) == if key in fields then Found(fields[key]) else Missing
  {}

  lemma OpenApiParameters(params: Object)
    ensures NestedField(OpenApi(params), PARAMETERS[1..]) == Found(Obj(params))
  {
    hide NestedField;
    var p := PARAMETERS;
    var s0 := OpenApi(params);
    var s1 := s0.fields["openAPIV3Schema"];
    var s2 := s1.fields["properties"];
    var s3 := s2.fields["spec"];
    var s4 := s3.fields["properties"];
    assert p[1..] == [p[1]] + p[2..] && p[2..] == [p[2]] + p[3..];
    assert p[3..] == [p[3]] + p[4..] && p[4..] == [p[4]] + p[5..] && p[5..] == [p[5]];
    Descend(s0.fields, p[1], p[2..]);
    Descend(s1.fields, p[2], p[3..]);
    Descend(s2.fields, p[3], p[4..]);
    Descend(s3.fields, p[4], p[5..]);
    LookUp(s4.fields, p[5]);
  }

  lemma ServedVersionEntry(name: string, params: Object)
    requires name != ""
    ensures ServedEntry(ServedVersion(name, params)) == Some((name, params))
    ensures !Referenceable(ServedVersion(name, params))
  {
    hide NestedField, OpenApi;
    var v := ServedVersion(name, params);
    LookUp(v.fields, "name");
    LookUp(v.fields, "served");
    LookUp(v.fields, "referenceable");
    OpenApiParameters(params);
    assert PARAMETERS == ["schema"] + PARAMETERS[1..];
    Descend(v.fields, "schema", PARAMETERS[1..]);
  }

  lemma UnservedStorageEntry(name: string)
    ensures ServedEntry(UnservedStorageVersion(name)) == None
    ensures Referenceable(UnservedStorageVersion(name))
    ensures NestedString(UnservedStorageVersion(name), ["name"]) == name
  {
    hide NestedField;
    var v := UnservedStorageVersion(name);
    LookUp(v.fields, "name");
    LookUp(v.fields, "served");
    LookUp(v.fields, "referenceable");
  }

  // ----- the LIST is exact -----

  predicate DerivesAt(list: seq<Xrd>, i: int, id: string, parseGraph: string -> Option<Graph>) {
    0 <= i < |list| && id != "" && ServiceId(list[i]) == id && EntrySchemaOf(list[i], id, parseGraph).Some?
  }

  predicate LastDerivedAt(list: seq<Xrd>, i: int, id: string, parseGraph: string -> Option<Graph>) {
    DerivesAt(list, i, id, parseGraph) && forall j :: i < j < |list| ==> !DerivesAt(list, j, id, parseGraph)
  }

  /** schemas[id] is the derivation of the last XRD with that id that derives,
      present exactly when there is one. */
  lemma SchemasExact(list: seq<Xrd>, id: string, parseGraph: string -> Option<Graph>)
    ensures var m := Schemas(list, parseGraph);
            && (id in m <==> exists i :: DerivesAt(list, i, id, parseGraph))
            && (forall i :: LastDerivedAt(list, i, id, parseGraph) ==>
                  id in m && Some(m[id]) == EntrySchemaOf(list[i], id, parseGraph))
            && (id in m ==> exists i :: LastDerivedAt(list, i, id, parseGraph))
  {
    hide EntrySchemaOf, ServiceId, Collect;
    var entries := SchemaEntries(list, parseGraph);
    CollectExact(entries, id);
    forall i: int ensures DerivesAt(list, i, id, parseGraph) <==> Writes(entries, i, id) {}
    forall i: int ensures LastDerivedAt(list, i, id, parseGraph) <==> LastWrite(entries, i, id) {}
  }

  /** The positions of the XRDs that carry a service id. */
  function Positions(list: seq<Xrd>): seq<nat> {
    if list == [] then []
    else Positions(list[..|list| - 1]) + if ServiceId(list[|list| - 1]) == "" then [] else [|list| - 1]
  }

  predicate ItemsAt(list: seq<Xrd>, items: seq<Item>, p: seq<nat>) {
    && |items| == |p|
    && (forall k :: 0 <= k < |p| ==> p[k] < |list| && Some(items[k]) == DeriveItem(list[p[k]]))
    && (forall j, k :: 0 <= j < k < |p| ==> p[j] < p[k])
    && forall i :: 0 <= i < |list| ==> (i in p <==> ServiceId(list[i]) != "")
  }

  lemma SkippedXrd(list: seq<Xrd>, x: Xrd, items: seq<Item>, p: seq<nat>)
    requires ItemsAt(list, items, p) && ServiceId(x) == ""
    ensures ItemsAt(list + [x], items, p)
  {}

  lemma TakenXrd(list: seq<Xrd>, x: Xrd, items: seq<Item>, p: seq<nat>, item: Item)
    requires ItemsAt(list, items, p) && ServiceId(x) != "" && DeriveItem(x) == Some(item)
    ensures ItemsAt(list + [x], items + [item], p + [|list|])
  {
    hide ServiceId, DeriveItem;
    var l, q := list + [x], p + [|list|];
    forall i | 0 <= i < |l| ensures i in q <==> ServiceId(l[i]) != "" {
      assert q[|p|] == |list|;
      if i < |list| {
        assert l[i] == list[i];
        assert i in q <==> i in p;
      }
    }
  }

  predicate AnnotatedAs(xrd: Xrd, key: string, text: string) {
    if key in xrd.annotations then xrd.annotations[key] == text else text == ""
  }

  /** An XRD gives an item exactly when it has a service id, each field from its own
      annotation and empty without one. */
  lemma DeriveItemExact(xrd: Xrd, item: Item)
    ensures DeriveItem(xrd) == Some(item) <==>
              && item.serviceId != ""
              && AnnotatedAs(xrd, "catalog.ucp.io/service-id", item.serviceId)
              && AnnotatedAs(xrd, "catalog.ucp.io/name", item.name)
              && AnnotatedAs(xrd, "catalog.ucp.io/provider", item.provider)
              && AnnotatedAs(xrd, "catalog.ucp.io/category", item.category)
              && AnnotatedAs(xrd, "catalog.ucp.io/description", item.description)
  {}

  /** Items come in LIST order, one for each XRD with a service id. */
  lemma {:induction false} ItemsExact(list: seq<Xrd>)
    ensures ItemsAt(list, Items(list), Positions(list))
  {
    hide Annotation, ServiceId;
    if list != [] {
      var n := |list| - 1;
      var front, x := list[..n], list[n];
      ItemsExact(front);
      assert front + [x] == list;
      if ServiceId(x) == "" {
        SkippedXrd(front, x, Items(front), Positions(front));
      } else {
        TakenXrd(front, x, Items(front), Positions(front), DeriveItem(x).value);
      }
    }
  }

  lemma SchemaKeysAreItems(list: seq<Xrd>, id: string, parseGraph: string -> Option<Graph>)
    requires id in Schemas(list, parseGraph)
    ensures exists item :: item in Items(list) && item.serviceId == id
  {
    hide EntrySchemaOf, Schemas;
    SchemasExact(list, id, parseGraph);
    ItemsExact(list);
    var i :| DerivesAt(list, i, id, parseGraph);
    assert i in Positions(list);
    var k :| 0 <= k < |Positions(list)| && Positions(list)[k] == i;
    assert Items(list)[k].serviceId == id;
  }
}
