/** buildDefinition: start -> [notify] -> tenant admins -> network team -> end. */
module ApprovalDefinition {
  import opened Wrappers
  import opened Text
  import opened Workflow

  datatype Options = Options(
    teamName: string,
    layer1Groups: seq<Group>,
    conditionalNetwork: bool,
    emailNotify: bool,
    noSuccessful: bool,
    fingerprint: bool,
    fingerprintTypes: bool)

  const TENANT_STEP := "tenant_admin_approval"
  const NETWORK_STEP := "network_team_approval"
  const NOTIFY := "notify_approvers"
  const END := "end"

  const APPROVE := "approve"
  const COMPLETE := "complete"
  const REJECT := "reject"
  const CANCEL := "cancel"
  const SKIP := "skip"

  const SUCCESSFUL := "Successful"
  const COMPLETED := "Completed"
  const REJECTED := "Rejected"
  const CANCELED := "Canceled"
  const FAILURE := "Failed"

  /** skip_if: params.vlan is defined and not empty. */
  const VLAN_GIVEN := "vlan"

  const TYPED_FIELDS := map[
    "quota" := "number", "dry_run" := "boolean", "labels" := "object",
    "tags" := "array", "note" := "string", "markup" := "string"]

  const FINGERPRINT_FIELDS := ["resource_type", "resource_id", "tenant_name"]

  const PAYLOAD_FIELDS := map[
    "tenant_rns" := "string", "resource_type" := "string", "resource_id" := "string", "vlan" := "string",
    "approver_emails" := "array", "tenant_name" := "string", "reason" := "string"]

  function TeamGroup(team: string): Group { Team(team, "admins") }

  function StepTriggers(approveTrigger: string, required: set<string>, groups: seq<Group>): map<string, Trigger> {
    map[approveTrigger := Trigger(required, groups), REJECT := Trigger({}, groups), CANCEL := Trigger({}, [CreatedBy])]
  }

  // ----- the definition for the options -----

  function Success(o: Options): string { if o.noSuccessful then COMPLETED else SUCCESSFUL }

  function NetworkApprove(o: Options): string { if o.conditionalNetwork then COMPLETE else APPROVE }

  function TenantNode(o: Options): Node { StepNode(StepTriggers(APPROVE, {}, o.layer1Groups), None) }

  function NetworkNode(o: Options): Node {
    var team := [TeamGroup(o.teamName)];
    if o.conditionalNetwork then
      StepNode(StepTriggers(COMPLETE, {"vlan"}, team)[SKIP := Trigger({}, team)], Some(Skip(VLAN_GIVEN, SKIP)))
    else StepNode(StepTriggers(APPROVE, {}, team), None)
  }

  function Nodes(o: Options): map<string, Node> {
    var base := map[START := StartNode, TENANT_STEP := TenantNode(o), NETWORK_STEP := NetworkNode(o), END := EndNode];
    if o.emailNotify then base[NOTIFY := CallbackNode] else base
  }

  function StepTransitions(o: Options): seq<Transition> {
    [Transition(TENANT_STEP, NETWORK_STEP, APPROVE, ""),
     Transition(TENANT_STEP, END, REJECT, REJECTED),
     Transition(TENANT_STEP, END, CANCEL, CANCELED),
     Transition(NETWORK_STEP, END, NetworkApprove(o), Success(o)),
     Transition(NETWORK_STEP, END, REJECT, REJECTED),
     Transition(NETWORK_STEP, END, CANCEL, CANCELED)]
    + if o.conditionalNetwork then [Transition(NETWORK_STEP, END, SKIP, Success(o))] else []
  }

  function EntryTransitions(o: Options): seq<Transition> {
    if o.emailNotify then
      [Transition(START, NOTIFY, "", ""),
       Transition(NOTIFY, TENANT_STEP, SUCCESS, ""),
       Transition(NOTIFY, END, FAILED, FAILURE)]
    else [Transition(START, TENANT_STEP, "", "")]
  }

  ghost function Build(o: Options): Definition {
    Definition(
      Nodes(o),
      StepTransitions(o) + EntryTransitions(o),
      if o.fingerprint && o.fingerprintTypes then PAYLOAD_FIELDS + TYPED_FIELDS else PAYLOAD_FIELDS,
      {"tenant_rns"},
      if !o.fingerprint then None
      else Some(FINGERPRINT_FIELDS + if o.fingerprintTypes then AscendingOf(TYPED_FIELDS.Keys) else []))
  }

  /** The typed fields, sorted, go into the fingerprint and into the schema. */
  method AddTyped(base: seq<string>, schema: map<string, string>, typed: map<string, string>)
    returns (fields: seq<string>, props: map<string, string>)
    ensures fields == base + AscendingOf(typed.Keys)
    ensures props == schema + typed
  {
    hide Ascending;
    fields, props := base, schema;
    var names := SortedKeys(typed);
    ghost var done: set<string> := {};
    for i := 0 to |names|
      invariant fields == base + names[..i]
      invariant done == Elems(names[..i])
      invariant props == schema + Only(typed, done)
    {
      assert names[i] in Elems(names);
      assert names[..i + 1] == names[..i] + [names[i]];
      fields := fields + [names[i]];
      props := props[names[i] := typed[names[i]]];
      done := done + {names[i]};
      assert Elems(names[..i + 1]) == done;
    }
    assert names[..|names|] == names;
    assert Only(typed, typed.Keys) == typed;
  }

  function Only(m: map<string, string>, keys: set<string>): map<string, string> {
    map k | k in keys && k in m :: m[k]
  }

  method FingerprintAndSchema(o: Options) returns (fingerprint: Option<seq<string>>, properties: map<string, string>)
    ensures fingerprint == Build(o).fingerprint && properties == Build(o).properties
  {
    hide TYPED_FIELDS, PAYLOAD_FIELDS, FINGERPRINT_FIELDS;
    properties := PAYLOAD_FIELDS;
    fingerprint := None;
    if o.fingerprint {
      var fields := FINGERPRINT_FIELDS;
      if o.fingerprintTypes {
        fields, properties := AddTyped(fields, properties, TYPED_FIELDS);
      } else {
        assert fields == fields + [];
      }
      fingerprint := Some(fields);
    }
  }

  method NetworkStep(o: Options) returns (step: Node, networkApprove: string)
    ensures step == NetworkNode(o) && networkApprove == NetworkApprove(o)
  {
    networkApprove := APPROVE;
    var required: set<string> := {};
    var skip: Option<Skip> := None;
    if o.conditionalNetwork {
      networkApprove := COMPLETE;
      required := {"vlan"};
      skip := Some(Skip(VLAN_GIVEN, SKIP));
    }
    var triggers := StepTriggers(networkApprove, required, [TeamGroup(o.teamName)]);
    if o.conditionalNetwork {
      triggers := triggers[SKIP := Trigger({}, [TeamGroup(o.teamName)])];
    }
    step := StepNode(triggers, skip);
  }

  method BuildDefinition(o: Options) returns (def: Definition)
    ensures def == Build(o)
  {
    hide NetworkNode, TYPED_FIELDS, PAYLOAD_FIELDS, FINGERPRINT_FIELDS, NetworkApprove;
    var success := SUCCESSFUL;
    if o.noSuccessful {
      success := COMPLETED;
    }
    var networkStep, networkApprove := NetworkStep(o);
    var nodes := map[
      START := StartNode,
      TENANT_STEP := StepNode(StepTriggers(APPROVE, {}, o.layer1Groups), None),
      NETWORK_STEP := networkStep,
      END := EndNode];
    var transitions := [
      Transition(TENANT_STEP, NETWORK_STEP, APPROVE, ""),
      Transition(TENANT_STEP, END, REJECT, REJECTED),
      Transition(TENANT_STEP, END, CANCEL, CANCELED),
      Transition(NETWORK_STEP, END, networkApprove, success),
      Transition(NETWORK_STEP, END, REJECT, REJECTED),
      Transition(NETWORK_STEP, END, CANCEL, CANCELED)];
    if o.conditionalNetwork {
      transitions := transitions + [Transition(NETWORK_STEP, END, SKIP, success)];
    }
    assert transitions == StepTransitions(o);
    if o.emailNotify {
      nodes := nodes[NOTIFY := CallbackNode];
      transitions := transitions + [
        Transition(START, NOTIFY, "", ""),
        Transition(NOTIFY, TENANT_STEP, SUCCESS, ""),
        Transition(NOTIFY, END, FAILED, FAILURE)];
    } else {
      transitions := transitions + [Transition(START, TENANT_STEP, "", "")];
    }
    assert transitions == StepTransitions(o) + EntryTransitions(o);
    assert nodes == Nodes(o);
    var fingerprint, properties := FingerprintAndSchema(o);
    return Definition(nodes, transitions, properties, {"tenant_rns"}, fingerprint);
  }

  // ----- every definition is well-formed and acyclic -----

  /** The position of the transition that leaves n on c. */
  function Position(o: Options, n: string, c: string): int {
    var k := |StepTransitions(o)|;
    if n == TENANT_STEP then
      if c == APPROVE then 0 else if c == REJECT then 1 else 2
    else if n == NETWORK_STEP then
      if c == NetworkApprove(o) then 3 else if c == REJECT then 4 else if c == CANCEL then 5 else 6
    else if n == START then k
    else if c == SUCCESS then k + 1 else k + 2
  }

  lemma StepPositionOf(o: Options, i: int)
    requires 0 <= i < |StepTransitions(o)|
    ensures var t := StepTransitions(o)[i];
            && t.source in Nodes(o) && t.condition in Exits(Nodes(o)[t.source])
            && Position(o, t.source, t.condition) == i
  {}

  lemma EntryPositionOf(o: Options, i: int)
    requires 0 <= i < |EntryTransitions(o)|
    ensures var t := EntryTransitions(o)[i];
            && t.source in Nodes(o) && t.condition in Exits(Nodes(o)[t.source])
            && Position(o, t.source, t.condition) == |StepTransitions(o)| + i
  {}

  lemma PositionOf(o: Options, i: int)
    requires 0 <= i < |Build(o).transitions|
    ensures var t := Build(o).transitions[i];
            && t.source in Nodes(o) && t.condition in Exits(Nodes(o)[t.source])
            && Position(o, t.source, t.condition) == i
  {
    hide Nodes, Exits, Position, StepTransitions, EntryTransitions;
    var k := |StepTransitions(o)|;
    if i < k {
      StepPositionOf(o, i);
    } else {
      EntryPositionOf(o, i - k);
    }
  }

  lemma AtStepPosition(o: Options, n: string, c: string)
    requires n in Nodes(o) && c in Exits(Nodes(o)[n]) && (n == TENANT_STEP || n == NETWORK_STEP)
    ensures var i := Position(o, n, c);
            0 <= i < |StepTransitions(o)| && StepTransitions(o)[i].source == n && StepTransitions(o)[i].condition == c
  {}

  lemma AtEntryPosition(o: Options, n: string, c: string)
    requires n in Nodes(o) && c in Exits(Nodes(o)[n]) && n != TENANT_STEP && n != NETWORK_STEP
    ensures var i := Position(o, n, c) - |StepTransitions(o)|;
            0 <= i < |EntryTransitions(o)| && EntryTransitions(o)[i].source == n
                && EntryTransitions(o)[i].condition == c
  {}

  lemma AtPosition(o: Options, n: string, c: string)
    requires n in Nodes(o) && c in Exits(Nodes(o)[n])
    ensures Leaves(Build(o), Position(o, n, c), n, c)
  {
    hide Nodes, Exits, Position, StepTransitions, EntryTransitions;
    if n == TENANT_STEP || n == NETWORK_STEP {
      AtStepPosition(o, n, c);
    } else {
      AtEntryPosition(o, n, c);
    }
  }

  lemma BuildExits(o: Options)
    ensures ExitsOk(Build(o))
  {
    hide Build, Position, Nodes, Exits;
    var def := Build(o);
    assert def.nodes == Nodes(o) by { BuildNodes(o); }
    forall n, c | n in def.nodes
      ensures c in Exits(def.nodes[n]) <==> exists i :: Leaves(def, i, n, c)
    {
      if c in Exits(def.nodes[n]) {
        AtPosition(o, n, c);
      }
      forall i | Leaves(def, i, n, c) ensures c in Exits(def.nodes[n]) { PositionOf(o, i); }
    }
    forall i, j, n, c | Leaves(def, i, n, c) && Leaves(def, j, n, c) ensures i == j {
      PositionOf(o, i);
      PositionOf(o, j);
    }
  }

  lemma BuildNodes(o: Options)
    ensures Build(o).nodes == Nodes(o)
  {}

  lemma BuildEndpoints(o: Options)
    ensures EndpointsOk(Build(o))
  {
    var def := Build(o);
    var k := |StepTransitions(o)|;
    forall i | 0 <= i < |def.transitions|
      ensures def.transitions[i].source in def.nodes && def.transitions[i].target in def.nodes
      ensures def.transitions[i].result != "" <==> def.nodes[def.transitions[i].target].EndNode?
    {
      if i < k {
        assert def.transitions[i] == StepTransitions(o)[i];
      } else {
        assert def.transitions[i] == EntryTransitions(o)[i - k];
      }
    }
  }

  lemma BuildFingerprint(o: Options)
    ensures FingerprintOk(Build(o))
  {
    FixedFields();
    var fields := AscendingOf(TYPED_FIELDS.Keys);
    hide TYPED_FIELDS, PAYLOAD_FIELDS, FINGERPRINT_FIELDS, Nodes, StepTransitions, EntryTransitions;
    forall f ensures f in fields <==> f in TYPED_FIELDS { assert f in fields <==> f in Elems(fields); }
    DistinctAppend(FINGERPRINT_FIELDS, fields);
    assert FINGERPRINT_FIELDS + [] == FINGERPRINT_FIELDS;
    hide Distinct;
  }

  lemma FixedFields()
    ensures Distinct(FINGERPRINT_FIELDS) && {"tenant_rns"} <= PAYLOAD_FIELDS.Keys
    ensures forall f :: f in FINGERPRINT_FIELDS ==> f in PAYLOAD_FIELDS && f !in TYPED_FIELDS
  {}

  /** The declared fields in full: seven, and six typed ones with the fingerprint types. */
  lemma DeclaredFields(o: Options, field: string)
    ensures field in Build(o).properties <==>
              || field in {"tenant_rns", "resource_type", "resource_id", "vlan", "approver_emails", "tenant_name",
                           "reason"}
              || (o.fingerprint && o.fingerprintTypes
                  && field in {"quota", "dry_run", "labels", "tags", "note", "markup"})
    ensures Build(o).required == {"tenant_rns"}
  {
    hide Nodes, StepTransitions, EntryTransitions;
  }

  /** The fingerprint in full: none, the three fixed fields, or those and the typed
      ones in ascending order. */
  lemma FingerprintFields(o: Options)
    ensures Build(o).fingerprint ==
              if !o.fingerprint then None
              else if !o.fingerprintTypes then Some(["resource_type", "resource_id", "tenant_name"])
              else Some(["resource_type", "resource_id", "tenant_name",
                         "dry_run", "labels", "markup", "note", "quota", "tags"])
  {
    var typed := ["dry_run", "labels", "markup", "note", "quota", "tags"];
    TypedAscending(typed);
    AscendingUnique(AscendingOf(TYPED_FIELDS.Keys), typed);
    hide Ascending, TYPED_FIELDS, PAYLOAD_FIELDS;
    assert ["resource_type", "resource_id", "tenant_name"] + typed
        == ["resource_type", "resource_id", "tenant_name", "dry_run", "labels", "markup", "note", "quota", "tags"];
    assert FINGERPRINT_FIELDS + [] == FINGERPRINT_FIELDS;
  }

  lemma TypedAscending(typed: seq<string>)
    requires typed == ["dry_run", "labels", "markup", "note", "quota", "tags"]
    ensures Ascending(typed) && Elems(typed) == TYPED_FIELDS.Keys
  {
    FirstLetters(typed);
    hide Leq;
    forall x ensures x in Elems(typed) <==> x in TYPED_FIELDS {
      assert x in typed <==> x in {"dry_run", "labels", "markup", "note", "quota", "tags"};
    }
  }

  lemma FirstLetters(s: seq<string>)
    requires forall i :: 0 <= i < |s| ==> s[i] != ""
    requires forall i, j :: 0 <= i < j < |s| ==> s[i][0] < s[j][0]
    ensures Ascending(s)
  {
    assert forall i, j :: 0 <= i < j < |s| ==> Leq(s[i], s[j]);
  }

  lemma DistinctAppend(a: seq<string>, b: seq<string>)
    requires Distinct(a) && Distinct(b) && forall x :: x in a ==> x !in b
    ensures Distinct(a + b)
  {
    forall i, j | 0 <= i < j < |a + b| ensures (a + b)[i] != (a + b)[j] {
      if i < |a| <= j {
        assert (a + b)[i] in a && (a + b)[j] in b;
      }
    }
  }

  /** Every definition the generator builds is well-formed. */
  lemma BuildWellFormed(o: Options)
    ensures WellFormed(Build(o))
  {
    BuildEndpoints(o);
    BuildExits(o);
    BuildFingerprint(o);
  }

  function Rank(node: string): nat {
    if node == START then 4 else if node == NOTIFY then 3 else if node == TENANT_STEP then 2
    else if node == NETWORK_STEP then 1 else 0
  }

  lemma BuildRanked(o: Options)
    ensures Ranked(Build(o), Rank)
  {}

  /** Any run accepts at most four steps, three without the notification. */
  lemma RunsAreShort(env: Env, o: Options, events: seq<Event>)
    ensures |Run(env, Build(o), events).log| < |Nodes(o)|
  {
    BuildWellFormed(o);
    BuildRanked(o);
    AcceptedStepsBounded(env, Build(o), Rank, events);
  }

  /** Every run of a built definition can end, whatever became of its approvers:
      the requester may cancel either step. */
  lemma EveryBuiltRunCanEnd(env: Env, o: Options, events: seq<Event>, requester: User)
    requires Authorised(env, [CreatedBy], requester)
    ensures exists more :: Run(env, Build(o), events + more).state.result != ""
  {
    BuildWellFormed(o);
    BuildRanked(o);
    BuildStaffed(env, o, requester);
    hide Build, WellFormed, Ranked, Staffed, Run;
    EveryRunCanEnd(env, Build(o), Rank, events);
  }

  lemma BuildStaffed(env: Env, o: Options, requester: User)
    requires Authorised(env, [CreatedBy], requester)
    ensures Staffed(env, Build(o))
  {
    hide Authorised, Build, Nodes;
    BuildNodes(o);
    forall n | n in Nodes(o) && Nodes(o)[n].StepNode?
      ensures CANCEL in Nodes(o)[n].triggers && Nodes(o)[n].triggers[CANCEL].users == [CreatedBy]
    {
      RequesterCancels(o, n);
    }
  }

  lemma RequesterCancels(o: Options, n: string)
    requires n in Nodes(o) && Nodes(o)[n].StepNode?
    ensures CANCEL in Nodes(o)[n].triggers && Nodes(o)[n].triggers[CANCEL].users == [CreatedBy]
  {}
}
