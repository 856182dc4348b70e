/** The driver in main: it fires the triggers of a scenario at a workflow that
    advances by itself, polling until a step is reached. */
module ApprovalDriver {
  import opened Wrappers
  import opened Workflow
  import opened ApprovalDefinition
  import opened ApprovalSafety
  import opened Polling

  datatype Execution = Processing | Waiting | Completed

  datatype Scenario = Happy | RejectLayer1 | CancelLayer1

  // ----- the remote workflow -----

  /** The engine's own steps until it needs a user or has ended. */
  function Advance(env: Env, def: Definition, s: State, callbackOk: bool, fuel: nat): State
    decreases fuel
  {
    if fuel == 0 || Taken(env, def, s, Process(callbackOk)).None? then s
    else Advance(env, def, Next(env, def, s, Process(callbackOk)), callbackOk, fuel - 1)
  }

  /** A created workflow. After each move it reports "processing" for some
      number of reads, its lag; an accepted trigger leaves "waiting" at once. */
  class Remote {
    const env: Env
    const def: Definition
    const callbackOk: bool
    var state: State
    var lag: nat
    var lags: seq<nat>  // the lags after later moves; 0 when used up

    constructor (env: Env, def: Definition, callbackOk: bool, firstLag: nat, lags: seq<nat>)
      ensures this.env == env && this.def == def && this.callbackOk == callbackOk
      ensures state == Advance(env, def, STARTED, callbackOk, |def.nodes|) && lag == firstLag && this.lags == lags
    {
      this.env, this.def, this.callbackOk := env, def, callbackOk;
      state := Advance(env, def, STARTED, callbackOk, |def.nodes|);
      lag, this.lags := firstLag, lags;
    }

    method Status() returns (status: Execution)
      modifies this`lag
      ensures lag == if old(lag) > 0 then old(lag) - 1 else 0
      ensures status == if old(lag) > 0 then Processing else if state.result != "" then Completed else Waiting
    {
      if lag > 0 {
        lag := lag - 1;
        return Processing;
      }
      return if state.result != "" then Completed else Waiting;
    }

    /** A trigger is refused while the workflow is processing and when the
        current node does not accept it. */
    method Act(user: User, trigger: string, payload: set<string>) returns (ok: bool)
      modifies this
      ensures ok <==> old(lag) == 0 && Taken(env, def, old(state), Fire(user, trigger, payload)).Some?
      ensures !ok ==> state == old(state) && lag == old(lag) && lags == old(lags)
      ensures ok ==>
                && state == Fired(env, def, callbackOk, old(state), Fire(user, trigger, payload))
                && lag == (if old(lags) == [] then 0 else old(lags)[0])
                && lags == if old(lags) == [] then [] else old(lags)[1..]
    {
      if lag > 0 || Taken(env, def, state, Fire(user, trigger, payload)).None? {
        return false;
      }
      state := Fired(env, def, callbackOk, state, Fire(user, trigger, payload));
      if lags == [] {
        lag := 0;
      } else {
        lag, lags := lags[0], lags[1..];
      }
      return true;
    }
  }

  // ----- the driver -----

  /** settled: one read, then up to SETTLE_ATTEMPTS more while processing. */
  method Settled(wf: Remote) returns (status: Execution)
    modifies wf`lag
    ensures status == Processing <==> old(wf.lag) > 15
    ensures status == Completed ==> wf.state.result != ""
    ensures status == Waiting ==> wf.state.result == ""
    ensures wf.lag == if old(wf.lag) > SETTLE_ATTEMPTS then old(wf.lag) - SETTLE_ATTEMPTS - 1 else 0
  {
    status := wf.Status();
    var i := 0;
    while i < SETTLE_ATTEMPTS && status == Processing
      invariant 0 <= i <= SETTLE_ATTEMPTS
      invariant wf.lag == if old(wf.lag) > i then old(wf.lag) - i - 1 else 0
      invariant status == Processing <==> old(wf.lag) > i
      invariant status != Processing ==> status == if wf.state.result != "" then Completed else Waiting
    {
      status := wf.Status();
      i := i + 1;
    }
  }

  function Layer1Action(scenario: Scenario): string {
    match scenario
    case Happy => APPROVE
    case RejectLayer1 => REJECT
    case CancelLayer1 => CANCEL
  }

  /** From the first settled read to the final state; false is a fatal exit. */
  method Drive(wf: Remote, operator: User, scenario: Scenario, vlanVariant: bool) returns (ok: bool)
    modifies wf
    ensures ok <==> DriveOk(wf.env, wf.def, wf.callbackOk, old(wf.state), old(wf.lag), old(wf.lags),
                            operator, scenario, vlanVariant)
    ensures ok ==> wf.state == DriveState(wf.env, wf.def, wf.callbackOk, old(wf.state), old(wf.lags),
                                          operator, scenario, vlanVariant)
  {
    var status := Settled(wf);
    var layer1Action := Layer1Action(scenario);
    var fired := wf.Act(operator, layer1Action, {});
    if !fired {
      return false;
    }
    status := Settled(wf);
    if layer1Action != APPROVE || status == Completed {
      return true;
    }
    var layer2Action, layer2Payload := APPROVE, {};
    if vlanVariant {
      layer2Action, layer2Payload := COMPLETE, {"vlan"};
    }
    fired := wf.Act(operator, layer2Action, layer2Payload);
    if !fired {
      return false;
    }
    status := Settled(wf);
    return true;
  }

  function Layer1Fire(operator: User, scenario: Scenario): Event { Fire(operator, Layer1Action(scenario), {}) }

  function Layer2Fire(operator: User, vlanVariant: bool): Event {
    if vlanVariant then Fire(operator, COMPLETE, {"vlan"}) else Fire(operator, APPROVE, {})
  }

  function Fired(env: Env, def: Definition, callbackOk: bool, s: State, e: Event): State {
    Advance(env, def, Next(env, def, s, e), callbackOk, |def.nodes|)
  }

  function NextLag(lags: seq<nat>): nat { if lags == [] then 0 else lags[0] }

  predicate SeenCompleted(s: State, lags: seq<nat>) { s.result != "" && NextLag(lags) <= SETTLE_ATTEMPTS }

  predicate DriveOk(env: Env, def: Definition, callbackOk: bool, s: State, lag: nat, lags: seq<nat>, operator: User,
                    scenario: Scenario, vlanVariant: bool) {
    var s1 := Fired(env, def, callbackOk, s, Layer1Fire(operator, scenario));
    && lag <= SETTLE_ATTEMPTS + 1
    && Taken(env, def, s, Layer1Fire(operator, scenario)).Some?
    && (Layer1Action(scenario) == APPROVE ==>
          || SeenCompleted(s1, lags)
          || (NextLag(lags) <= SETTLE_ATTEMPTS + 1 && Taken(env, def, s1, Layer2Fire(operator, vlanVariant)).Some?))
  }

  function DriveState(env: Env, def: Definition, callbackOk: bool, s: State, lags: seq<nat>, operator: User,
                      scenario: Scenario, vlanVariant: bool): State {
    var s1 := Fired(env, def, callbackOk, s, Layer1Fire(operator, scenario));
    if Layer1Action(scenario) != APPROVE || SeenCompleted(s1, lags) then s1
    else Fired(env, def, callbackOk, s1, Layer2Fire(operator, vlanVariant))
  }

  // ----- driver and definition agree -----

  function LayerGroups(o: Options, scenario: Scenario): seq<Group> {
    if scenario == CancelLayer1 then [CreatedBy] else o.layer1Groups
  }

  function ExpectedOutcome(o: Options, scenario: Scenario): string {
    match scenario
    case Happy => Success(o)
    case RejectLayer1 => REJECTED
    case CancelLayer1 => CANCELED
  }

  predicate SkipsNetwork(env: Env, o: Options) { o.conditionalNetwork && env.holds(VLAN_GIVEN) }

  /** When a driven run goes through: the polls outlast the lags it waits for,
      the callback succeeds, and the operator is entitled to what it fires. A
      trigger still gets through when the last poll was the last to read
      "processing"; a run that skips layer 2 must be seen completed. */
  predicate CanDrive(env: Env, o: Options, callbackOk: bool, lag: nat, lags: seq<nat>, operator: User,
          scenario: Scenario) {
    && lag <= SETTLE_ATTEMPTS + 1
    && (o.emailNotify ==> callbackOk)
    && Authorised(env, LayerGroups(o, scenario), operator)
    && (scenario == Happy ==>
          if SkipsNetwork(env, o) then NextLag(lags) <= SETTLE_ATTEMPTS
          else NextLag(lags) <= SETTLE_ATTEMPTS + 1 && Authorised(env, [TeamGroup(o.teamName)], operator))
  }

  lemma AdvanceStops(env: Env, def: Definition, s: State, callbackOk: bool, fuel: nat)
    requires Taken(env, def, s, Process(callbackOk)).None?
    ensures Advance(env, def, s, callbackOk, fuel) == s
  {}

  lemma AdvanceMoves(env: Env, o: Options, s: State, callbackOk: bool, fuel: nat, t: Transition)
    requires fuel > 0 && s.at in Nodes(o) && t in Build(o).transitions && t.source == s.at
    requires Accepted(env, Nodes(o)[s.at], Process(callbackOk)) == Some(t.condition)
    ensures Advance(env, Build(o), s, callbackOk, fuel)
            == Advance(env, Build(o), State(t.target, t.result), callbackOk, fuel - 1)
  {
    hide Build, Accepted, Nodes, Next, Taken;
    BuildWellFormed(o);
    BuildNodes(o);
    AcceptedMoves(env, Build(o), s, Process(callbackOk));
    Moved(env, o, s, Process(callbackOk), t);
  }

  lemma Refused(env: Env, o: Options, s: State, e: Event)
    requires s.at in Nodes(o) && Accepted(env, Nodes(o)[s.at], e) == None
    ensures Taken(env, Build(o), s, e) == None
  {}

  lemma NodeTable(o: Options)
    ensures START in Nodes(o) && Nodes(o)[START] == StartNode
    ensures TENANT_STEP in Nodes(o) && Nodes(o)[TENANT_STEP] == TenantNode(o)
    ensures NETWORK_STEP in Nodes(o) && Nodes(o)[NETWORK_STEP] == NetworkNode(o)
    ensures END in Nodes(o) && Nodes(o)[END] == EndNode
    ensures o.emailNotify ==> NOTIFY in Nodes(o) && Nodes(o)[NOTIFY] == CallbackNode
    ensures |Nodes(o)| >= 4
  {}

  lemma EdgeTable(o: Options)
    ensures Transition(TENANT_STEP, NETWORK_STEP, APPROVE, "") in Build(o).transitions
    ensures Transition(TENANT_STEP, END, REJECT, REJECTED) in Build(o).transitions
    ensures Transition(TENANT_STEP, END, CANCEL, CANCELED) in Build(o).transitions
    ensures Transition(NETWORK_STEP, END, NetworkApprove(o), Success(o)) in Build(o).transitions
    ensures o.conditionalNetwork ==> Transition(NETWORK_STEP, END, SKIP, Success(o)) in Build(o).transitions
    ensures !o.emailNotify ==> Transition(START, TENANT_STEP, "", "") in Build(o).transitions
    ensures o.emailNotify ==> Transition(START, NOTIFY, "", "") in Build(o).transitions
    ensures o.emailNotify ==> Transition(NOTIFY, TENANT_STEP, SUCCESS, "") in Build(o).transitions
    ensures o.emailNotify ==> Transition(NOTIFY, END, FAILED, FAILURE) in Build(o).transitions
  {}

  /** After creation the engine stops at layer 1, or at the end when the
      notification fails. */
  lemma AfterCreation(env: Env, o: Options, callbackOk: bool)
    ensures Advance(env, Build(o), STARTED, callbackOk, |Build(o).nodes|)
         == if o.emailNotify && !callbackOk then State(END, FAILURE) else State(TENANT_STEP, "")
  {
    hide Build, Nodes, Taken, Advance;
    NodeTable(o);
    EdgeTable(o);
    BuildNodes(o);
    var n := |Build(o).nodes|;
    if !o.emailNotify {
      AdvanceMoves(env, o, STARTED, callbackOk, n, Transition(START, TENANT_STEP, "", ""));
    } else {
      AdvanceMoves(env, o, STARTED, callbackOk, n, Transition(START, NOTIFY, "", ""));
      if callbackOk {
        AdvanceMoves(env, o, State(NOTIFY, ""), callbackOk, n - 1, Transition(NOTIFY, TENANT_STEP, SUCCESS, ""));
      } else {
        AdvanceMoves(env, o, State(NOTIFY, ""), callbackOk, n - 1, Transition(NOTIFY, END, FAILED, FAILURE));
        Refused(env, o, State(END, FAILURE), Process(callbackOk));
        AdvanceStops(env, Build(o), State(END, FAILURE), callbackOk, n - 2);
      }
    }
    Refused(env, o, State(TENANT_STEP, ""), Process(callbackOk));
    AdvanceStops(env, Build(o), State(TENANT_STEP, ""), callbackOk, n - 1);
    if n >= 2 { AdvanceStops(env, Build(o), State(TENANT_STEP, ""), callbackOk, n - 2); }
  }

  /** Layer 1 accepts the scenario's action exactly from an entitled operator. */
  lemma AtLayer1(env: Env, o: Options, callbackOk: bool, operator: User, scenario: Scenario)
    ensures Layer1Fire(operator, scenario) ==
              match scenario
              case Happy => Fire(operator, "approve", {})
              case RejectLayer1 => Fire(operator, "reject", {})
              case CancelLayer1 => Fire(operator, "cancel", {})
    ensures var e := Layer1Fire(operator, scenario); var s := State(TENANT_STEP, "");
            && (Taken(env, Build(o), s, e).Some? <==> Authorised(env, LayerGroups(o, scenario), operator))
            && (Taken(env, Build(o), s, e).Some? ==>
                  Fired(env, Build(o), callbackOk, s, e) ==
                  if scenario != Happy then State(END, ExpectedOutcome(o, scenario))
                  else if SkipsNetwork(env, o) then State(END, Success(o))
                  else State(NETWORK_STEP, ""))
  {
    hide Build, Nodes, Taken, Advance, Authorised, Next;
    var e, s, n := Layer1Fire(operator, scenario), State(TENANT_STEP, ""), |Build(o).nodes|;
    NodeTable(o);
    EdgeTable(o);
    BuildNodes(o);
    BuildWellFormed(o);
    AcceptedMoves(env, Build(o), s, e);
    Layer1Accepts(env, o, operator, scenario);
    if Authorised(env, LayerGroups(o, scenario), operator) {
      if scenario == Happy {
        Moved(env, o, s, e, Transition(TENANT_STEP, NETWORK_STEP, APPROVE, ""));
        NetworkProcess(env, o, callbackOk);
        if SkipsNetwork(env, o) {
          AdvanceMoves(env, o, State(NETWORK_STEP, ""), callbackOk, n, Transition(NETWORK_STEP, END, SKIP, Success(o)));
          Ended(env, o, Success(o), callbackOk, n - 1);
        } else {
          Refused(env, o, State(NETWORK_STEP, ""), Process(callbackOk));
          AdvanceStops(env, Build(o), State(NETWORK_STEP, ""), callbackOk, n);
        }
      } else {
        var t := if scenario == RejectLayer1 then Transition(TENANT_STEP, END, REJECT, REJECTED)
                 else Transition(TENANT_STEP, END, CANCEL, CANCELED);
        Moved(env, o, s, e, t);
        Ended(env, o, t.result, callbackOk, n);
      }
    }
  }

  lemma Layer1Accepts(env: Env, o: Options, operator: User, scenario: Scenario)
    ensures Accepted(env, TenantNode(o), Layer1Fire(operator, scenario))
         == if Authorised(env, LayerGroups(o, scenario), operator) then Some(Layer1Action(scenario)) else None
  {}

  lemma NetworkProcess(env: Env, o: Options, callbackOk: bool)
    ensures Accepted(env, NetworkNode(o), Process(callbackOk)) == if SkipsNetwork(env, o) then Some(SKIP) else None
  {}

  lemma Ended(env: Env, o: Options, result: string, callbackOk: bool, fuel: nat)
    ensures Advance(env, Build(o), State(END, result), callbackOk, fuel) == State(END, result)
  {}

  /** Layer 2 accepts the driver's trigger and payload exactly from the team. */
  lemma AtLayer2(env: Env, o: Options, callbackOk: bool, operator: User)
    requires !SkipsNetwork(env, o)
    ensures Layer2Fire(operator, true) == Fire(operator, "complete", {"vlan"})
    ensures Layer2Fire(operator, false) == Fire(operator, "approve", {})
    ensures var e := Layer2Fire(operator, o.conditionalNetwork); var s := State(NETWORK_STEP, "");
            && (Taken(env, Build(o), s, e).Some? <==> Authorised(env, [TeamGroup(o.teamName)], operator))
            && (Taken(env, Build(o), s, e).Some? ==> Fired(env, Build(o), callbackOk, s, e) == State(END, Success(o)))
  {
    hide Build, Nodes, Taken, Advance, Authorised, Next;
    var e, s, n := Layer2Fire(operator, o.conditionalNetwork), State(NETWORK_STEP, ""), |Build(o).nodes|;
    NodeTable(o);
    EdgeTable(o);
    BuildNodes(o);
    BuildWellFormed(o);
    AcceptedMoves(env, Build(o), s, e);
    Layer2Accepts(env, o, operator);
    if Authorised(env, [TeamGroup(o.teamName)], operator) {
      Moved(env, o, s, e, Transition(NETWORK_STEP, END, NetworkApprove(o), Success(o)));
      Ended(env, o, Success(o), callbackOk, n);
    }
  }

  lemma Layer2Accepts(env: Env, o: Options, operator: User)
    requires !SkipsNetwork(env, o)
    ensures Accepted(env, NetworkNode(o), Layer2Fire(operator, o.conditionalNetwork))
         == if Authorised(env, [TeamGroup(o.teamName)], operator) then Some(NetworkApprove(o)) else None
  {}

  /** For every scenario, variant and VLAN, the driver gets all its triggers
      accepted exactly when CanDrive holds, and then leaves the workflow at the
      end with the outcome of the scenario. */
  lemma DriverAgrees(env: Env, o: Options, callbackOk: bool, lag: nat, lags: seq<nat>, operator: User,
          scenario: Scenario)
    ensures var s := Advance(env, Build(o), STARTED, callbackOk, |Build(o).nodes|);
            && (DriveOk(env, Build(o), callbackOk, s, lag, lags, operator, scenario, o.conditionalNetwork)
                <==> CanDrive(env, o, callbackOk, lag, lags, operator, scenario))
            && (DriveOk(env, Build(o), callbackOk, s, lag, lags, operator, scenario, o.conditionalNetwork) ==>
                  DriveState(env, Build(o), callbackOk, s, lags, operator, scenario, o.conditionalNetwork)
                  == State(END, ExpectedOutcome(o, scenario)))
  {
    hide Build, Nodes, Taken, Advance, Authorised, Fired, Layer1Fire, Layer2Fire;
    AfterCreation(env, o, callbackOk);
    if o.emailNotify && !callbackOk {
      NodeTable(o);
      Refused(env, o, State(END, FAILURE), Layer1Fire(operator, scenario));
    } else {
      AtLayer1(env, o, callbackOk, operator, scenario);
      NodeTable(o);
      Refused(env, o, State(END, Success(o)), Layer2Fire(operator, o.conditionalNetwork));
      if !SkipsNetwork(env, o) {
        AtLayer2(env, o, callbackOk, operator);
      }
    }
  }

  /** One whole run on a fresh workflow. */
  method RunScenario(env: Env, o: Options, callbackOk: bool, firstLag: nat, lags: seq<nat>, operator: User,
          scenario: Scenario)
    returns (ok: bool, outcome: string)
    ensures ok <==> CanDrive(env, o, callbackOk, firstLag, lags, operator, scenario)
    ensures ok ==> outcome == ExpectedOutcome(o, scenario)
  {
    hide Build, DriveOk, DriveState, CanDrive;
    var def := BuildDefinition(o);
    var wf := new Remote(env, def, callbackOk, firstLag, lags);
    ok := Drive(wf, operator, scenario, o.conditionalNetwork);
    outcome := wf.state.result;
    DriverAgrees(env, o, callbackOk, firstLag, lags, operator, scenario);
  }
}
