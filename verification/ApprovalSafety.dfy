/** What every run of a built definition keeps, over all traces of attempts by
    all users, accepted or refused. */
module ApprovalSafety {
  import opened Wrappers
  import opened Workflow
  import opened ApprovalDefinition

  type Move = (string, string)  // the node left and the condition

  function Moves(log: seq<Entry>): seq<Move> {
    if log == [] then []
    else Moves(log[..|log| - 1]) + [(log[|log| - 1].edge.source, log[|log| - 1].edge.condition)]
  }

  lemma {:induction false} MovesAt(log: seq<Entry>, k: int)
    requires 0 <= k < |log|
    ensures |Moves(log)| == |log|
    ensures Moves(log)[k] == (log[k].edge.source, log[k].edge.condition)
  {
    if |log| > 1 { MovesAt(log[..|log| - 1], if k < |log| - 1 then k else 0); }
  }

  /** The moves that lead to the first approval step. */
  function Entrance(o: Options): seq<Move> {
    if o.emailNotify then [(START, ""), (NOTIFY, SUCCESS)] else [(START, "")]
  }

  function Approved(o: Options): seq<Move> { Entrance(o) + [(TENANT_STEP, APPROVE)] }

  /** All paths of a built definition. */
  predicate Shape(o: Options, moves: seq<Move>, at: string, result: string) {
    || (at == START && moves == [])
    || (at == NOTIFY && o.emailNotify && moves == [(START, "")])
    || (at == TENANT_STEP && moves == Entrance(o))
    || (at == NETWORK_STEP && moves == Approved(o))
    || (at == END && Outcome(o, moves, result))
  }

  predicate Outcome(o: Options, moves: seq<Move>, result: string) {
    || (result == FAILURE && o.emailNotify && moves == [(START, ""), (NOTIFY, FAILED)])
    || (result == REJECTED && moves == Entrance(o) + [(TENANT_STEP, REJECT)])
    || (result == CANCELED && moves == Entrance(o) + [(TENANT_STEP, CANCEL)])
    || (result == REJECTED && moves == Approved(o) + [(NETWORK_STEP, REJECT)])
    || (result == CANCELED && moves == Approved(o) + [(NETWORK_STEP, CANCEL)])
    || (result == Success(o) && moves == Approved(o) + [(NETWORK_STEP, NetworkApprove(o))])
    || (result == Success(o) && o.conditionalNetwork && moves == Approved(o) + [(NETWORK_STEP, SKIP)])
  }

  lemma Edges(o: Options, t: Transition)
    requires t in Build(o).transitions
    ensures || (o.emailNotify && (t == Transition(START, NOTIFY, "", "")
                                  || t == Transition(NOTIFY, TENANT_STEP, SUCCESS, "")
                                  || t == Transition(NOTIFY, END, FAILED, FAILURE)))
            || (!o.emailNotify && t == Transition(START, TENANT_STEP, "", ""))
            || t == Transition(TENANT_STEP, NETWORK_STEP, APPROVE, "")
            || t == Transition(TENANT_STEP, END, REJECT, REJECTED)
            || t == Transition(TENANT_STEP, END, CANCEL, CANCELED)
            || t == Transition(NETWORK_STEP, END, NetworkApprove(o), Success(o))
            || t == Transition(NETWORK_STEP, END, REJECT, REJECTED)
            || t == Transition(NETWORK_STEP, END, CANCEL, CANCELED)
            || (o.conditionalNetwork && t == Transition(NETWORK_STEP, END, SKIP, Success(o)))
  {}

  function LastResult(log: seq<Entry>): string { if log == [] then "" else log[|log| - 1].edge.result }

  /** Every path has one of these shapes. */
  lemma {:induction false} PathShape(env: Env, o: Options, log: seq<Entry>, at: string)
    requires PathTo(env, Build(o), log, at)
    ensures Shape(o, Moves(log), at, LastResult(log))
  {
    if log != [] {
      var front, last := log[..|log| - 1], log[|log| - 1];
      PathShape(env, o, front, last.edge.source);
      Edges(o, last.edge);
      ShapeStep(o, Moves(front), LastResult(front), last.edge);
    }
  }

  lemma ShapeStep(o: Options, moves: seq<Move>, result: string, t: Transition)
    requires Shape(o, moves, t.source, result) && t in Build(o).transitions
    ensures Shape(o, moves + [(t.source, t.condition)], t.target, t.result)
  {
    hide Build;
    Edges(o, t);
    assert [] + [(START, "")] == [(START, "")];
    assert [(START, "")] + [(NOTIFY, SUCCESS)] == [(START, ""), (NOTIFY, SUCCESS)];
    assert [(START, "")] + [(NOTIFY, FAILED)] == [(START, ""), (NOTIFY, FAILED)];
  }

  /** Each entry of the log was accepted at the node it left. */
  lemma {:induction false} EntriesAccepted(env: Env, def: Definition, log: seq<Entry>, at: string, k: int)
    requires PathTo(env, def, log, at) && 0 <= k < |log|
    ensures log[k].edge.source in def.nodes
    ensures Accepted(env, def.nodes[log[k].edge.source], log[k].event) == Some(log[k].edge.condition)
  {
    if k < |log| - 1 {
      EntriesAccepted(env, def, log[..|log| - 1], log[|log| - 1].edge.source, k);
    }
  }

  /** A user fired the trigger, entitled by the groups, with the fields it needs. */
  predicate FiredBy(env: Env, entry: Entry, node: string, trigger: string, groups: seq<Group>, fields: set<string>) {
    && entry.edge.source == node && entry.edge.condition == trigger
    && entry.event.Fire?
    && Authorised(env, groups, entry.event.user)
    && fields <= entry.event.payload
  }

  /** The engine itself skipped the network step because a VLAN was given. */
  predicate SkippedByEngine(env: Env, o: Options, entry: Entry) {
    && o.conditionalNetwork && env.holds(VLAN_GIVEN)
    && entry.edge.source == NETWORK_STEP && entry.edge.condition == SKIP && entry.event.Process?
  }

  /** A team member left the network step by its approving trigger or by skip. */
  predicate NetworkPassed(env: Env, o: Options, entry: Entry) {
    var team := [TeamGroup(o.teamName)];
    || FiredBy(env, entry, NETWORK_STEP, NetworkApprove(o), team, if o.conditionalNetwork then {"vlan"} else {})
    || (o.conditionalNetwork && !env.holds(VLAN_GIVEN) && FiredBy(env, entry, NETWORK_STEP, SKIP, team, {}))
    || SkippedByEngine(env, o, entry)
  }

  lemma TenantMoves(env: Env, o: Options, entry: Entry)
    requires entry.edge.source == TENANT_STEP
    requires Accepted(env, TenantNode(o), entry.event) == Some(entry.edge.condition)
    ensures entry.edge.condition == APPROVE ==> FiredBy(env, entry, TENANT_STEP, APPROVE, o.layer1Groups, {})
    ensures entry.edge.condition == REJECT ==> FiredBy(env, entry, TENANT_STEP, REJECT, o.layer1Groups, {})
    ensures entry.edge.condition == CANCEL ==> FiredBy(env, entry, TENANT_STEP, CANCEL, [CreatedBy], {})
  {}

  lemma NetworkMoves(env: Env, o: Options, entry: Entry)
    requires entry.edge.source == NETWORK_STEP
    requires Accepted(env, NetworkNode(o), entry.event) == Some(entry.edge.condition)
    ensures entry.edge.condition == NetworkApprove(o) ==> NetworkPassed(env, o, entry)
    ensures entry.edge.condition == SKIP ==> NetworkPassed(env, o, entry)
    ensures entry.edge.condition == REJECT ==> FiredBy(env, entry, NETWORK_STEP, REJECT, [TeamGroup(o.teamName)], {})
    ensures entry.edge.condition == CANCEL ==> FiredBy(env, entry, NETWORK_STEP, CANCEL, [CreatedBy], {})
    ensures o.conditionalNetwork && env.holds(VLAN_GIVEN) ==> SkippedByEngine(env, o, entry)
  {}

  /** Whom and what the first step takes, trigger by trigger. */
  lemma TenantAccepts(env: Env, o: Options, user: User, trigger: string, payload: set<string>)
    ensures Accepted(env, TenantNode(o), Fire(user, trigger, payload)) == Some(trigger) <==>
              || (trigger in {"approve", "reject"} && Authorised(env, o.layer1Groups, user))
              || (trigger == "cancel" && Authorised(env, [CreatedBy], user))
  {
    hide Authorised;
  }

  /** Whom and what the network step takes: nothing once a VLAN was given, and only
      the completing trigger needs a field. */
  lemma NetworkAccepts(env: Env, o: Options, user: User, trigger: string, payload: set<string>)
    ensures Accepted(env, NetworkNode(o), Fire(user, trigger, payload)) == Some(trigger) <==>
              && !(o.conditionalNetwork && env.holds(VLAN_GIVEN))
              && (|| (trigger == "approve" && !o.conditionalNetwork
                      && Authorised(env, [Team(o.teamName, "admins")], user))
                  || (trigger == "complete" && o.conditionalNetwork && "vlan" in payload
                      && Authorised(env, [Team(o.teamName, "admins")], user))
                  || (trigger == "skip" && o.conditionalNetwork && Authorised(env, [Team(o.teamName, "admins")], user))
                  || (trigger == "reject" && Authorised(env, [Team(o.teamName, "admins")], user))
                  || (trigger == "cancel" && Authorised(env, [CreatedBy], user)))
  {
    hide Authorised;
  }

  lemma RunShape(env: Env, o: Options, events: seq<Event>)
    ensures var h := Run(env, Build(o), events);
            && Shape(o, Moves(h.log), h.state.at, h.state.result)
            && PathTo(env, Build(o), h.log, h.state.at)
            && (h.state.result != "" <==> h.state.at == END)
  {
    hide Build, Run, WellFormed, Shape;
    var h := Run(env, Build(o), events);
    BuildWellFormed(o);
    RunIsPath(env, Build(o), events);
    PathShape(env, o, h.log, h.state.at);
    EndNodeIsEnd(o, h.state.at);
    if h.log == [] { ResultOfEmpty(env, o, events); }
  }

  lemma EndNodeIsEnd(o: Options, at: string)
    requires at in Build(o).nodes
    ensures Build(o).nodes[at].EndNode? <==> at == END
  {}

  lemma {:induction false} ResultOfEmpty(env: Env, o: Options, events: seq<Event>)
    requires Run(env, Build(o), events).log == []
    ensures Run(env, Build(o), events).state == STARTED
  {
    hide Build;
    if events != [] { ResultOfEmpty(env, o, events[..|events| - 1]); }
  }

  /** Success needs both layers: the last two accepted moves are an approval of
      layer 1 by a user its groups entitle, and an exit from the network step by
      its approving trigger or by skip. */
  lemma SuccessNeedsBothLayers(env: Env, o: Options, events: seq<Event>)
    requires Run(env, Build(o), events).state.result == Success(o)
    ensures var log := Run(env, Build(o), events).log;
            && |log| >= 3
            && FiredBy(env, log[|log| - 2], TENANT_STEP, APPROVE, o.layer1Groups, {})
            && NetworkPassed(env, o, log[|log| - 1])
  {
    hide Run, Build, PathTo, FiredBy, NetworkPassed, NetworkApprove, Accepted;
    RunShape(env, o, events);
    var h := Run(env, Build(o), events);
    var n := |h.log|;
    MovesAt(h.log, n - 1);
    assert n >= 3;
    MovesAt(h.log, n - 2);
    assert Moves(h.log)[n - 2] == (TENANT_STEP, APPROVE);
    EntriesAccepted(env, Build(o), h.log, h.state.at, n - 2);
    EntriesAccepted(env, Build(o), h.log, h.state.at, n - 1);
    StepNodes(o);
    TenantMoves(env, o, h.log[n - 2]);
    NetworkMoves(env, o, h.log[n - 1]);
  }

  lemma StepNodes(o: Options)
    ensures TENANT_STEP in Build(o).nodes && Build(o).nodes[TENANT_STEP] == TenantNode(o)
    ensures NETWORK_STEP in Build(o).nodes && Build(o).nodes[NETWORK_STEP] == NetworkNode(o)
  {}

  /** When some layer-1 group is not null, the approver is one of its members. */
  lemma ApproverIsMember(env: Env, o: Options, events: seq<Event>)
    requires Run(env, Build(o), events).state.result == Success(o)
    requires Live(env, o.layer1Groups)
    ensures var log := Run(env, Build(o), events).log;
            exists k :: 0 <= k < |log| && FiredBy(env, log[k], TENANT_STEP, APPROVE, o.layer1Groups, {})
                     && Member(env, o.layer1Groups, log[k].event.user)
  {
    hide Run, Build;
    SuccessNeedsBothLayers(env, o, events);
    var log := Run(env, Build(o), events).log;
    assert FiredBy(env, log[|log| - 2], TENANT_STEP, APPROVE, o.layer1Groups, {});
  }

  /** A refusal: a layer-1 reject or cancel, or a callback that failed. */
  predicate Refusal(entry: Entry) {
    || (entry.edge.source == TENANT_STEP && (entry.edge.condition == REJECT || entry.edge.condition == CANCEL))
    || (entry.edge.source == NOTIFY && entry.edge.condition == FAILED)
  }

  /** After a refusal the run has ended and the network step was never entered. */
  lemma NetworkNeverEnteredAfterRefusal(env: Env, o: Options, events: seq<Event>, k: int)
    requires var log := Run(env, Build(o), events).log; 0 <= k < |log| && Refusal(log[k])
    ensures var h := Run(env, Build(o), events);
            && k == |h.log| - 1
            && (h.state.result == REJECTED || h.state.result == CANCELED || h.state.result == FAILURE)
            && forall j :: 0 <= j < |h.log| ==>
                 h.log[j].edge.source != NETWORK_STEP && h.log[j].edge.target != NETWORK_STEP
  {
    hide Run, Build, PathTo;
    RunShape(env, o, events);
    var h := Run(env, Build(o), events);
    var moves := Moves(h.log);
    MovesAt(h.log, k);
    RefusalIsLast(o, moves, h.state.at, h.state.result, k);
    forall j | 0 <= j < |h.log|
      ensures h.log[j].edge.source != NETWORK_STEP && h.log[j].edge.target != NETWORK_STEP
    {
      MovesAt(h.log, j);
      EdgeInPath(env, o, h.log, h.state.at, j);
      Edges(o, h.log[j].edge);
    }
  }

  lemma RefusalIsLast(o: Options, moves: seq<Move>, at: string, result: string, k: int)
    requires Shape(o, moves, at, result) && 0 <= k < |moves|
    requires moves[k] in {(TENANT_STEP, REJECT), (TENANT_STEP, CANCEL), (NOTIFY, FAILED)}
    ensures k == |moves| - 1 && result in {REJECTED, CANCELED, FAILURE}
    ensures forall j :: 0 <= j < |moves| ==> moves[j].0 != NETWORK_STEP && moves[j] != (TENANT_STEP, APPROVE)
  {}

  lemma {:induction false} EdgeInPath(env: Env, o: Options, log: seq<Entry>, at: string, j: int)
    requires PathTo(env, Build(o), log, at) && 0 <= j < |log|
    ensures log[j].edge in Build(o).transitions
  {
    if j < |log| - 1 { EdgeInPath(env, o, log[..|log| - 1], log[|log| - 1].edge.source, j); }
  }

  /** The outcome tells what happened last: a rejection by an entitled approver,
      a cancellation by the requester, or a failed callback. */
  lemma OutcomeCause(env: Env, o: Options, events: seq<Event>)
    requires Run(env, Build(o), events).state.result != ""
    ensures var h := Run(env, Build(o), events);
            && h.log != []
            && var last := h.log[|h.log| - 1];
            match h.state.result
            case "Rejected" =>
              || FiredBy(env, last, TENANT_STEP, REJECT, o.layer1Groups, {})
              || FiredBy(env, last, NETWORK_STEP, REJECT, [TeamGroup(o.teamName)], {})
            case "Canceled" =>
              || FiredBy(env, last, TENANT_STEP, CANCEL, [CreatedBy], {})
              || FiredBy(env, last, NETWORK_STEP, CANCEL, [CreatedBy], {})
            case "Failed" => o.emailNotify && last.event == Process(false)
            case r => r == Success(o) && NetworkPassed(env, o, last)
  {
    hide Run, Build, PathTo, FiredBy, NetworkPassed, Shape, Accepted;
    RunShape(env, o, events);
    var h := Run(env, Build(o), events);
    var n := |h.log|;
    LastMove(o, Moves(h.log), h.state.result);
    MovesAt(h.log, n - 1);
    EntriesAccepted(env, Build(o), h.log, h.state.at, n - 1);
    StepNodes(o);
    var last := h.log[n - 1];
    if last.edge.source == TENANT_STEP {
      TenantMoves(env, o, last);
    } else if last.edge.source == NETWORK_STEP {
      NetworkMoves(env, o, last);
    } else {
      CallbackFailed(env, o, last);
    }
  }

  /** The last move of a finished run and its outcome. */
  lemma LastMove(o: Options, moves: seq<Move>, result: string)
    requires Shape(o, moves, END, result)
    ensures moves != []
    ensures var last := moves[|moves| - 1];
            || (result == REJECTED && last in {(TENANT_STEP, REJECT), (NETWORK_STEP, REJECT)})
            || (result == CANCELED && last in {(TENANT_STEP, CANCEL), (NETWORK_STEP, CANCEL)})
            || (result == FAILURE && o.emailNotify && last == (NOTIFY, FAILED))
            || (result == Success(o) && last == (NETWORK_STEP, NetworkApprove(o)))
            || (result == Success(o) && o.conditionalNetwork && last == (NETWORK_STEP, SKIP))
  {}

  lemma CallbackFailed(env: Env, o: Options, entry: Entry)
    requires o.emailNotify && entry.edge.source == NOTIFY && entry.edge.condition == FAILED
    requires NOTIFY in Build(o).nodes && Accepted(env, Build(o).nodes[NOTIFY], entry.event) == Some(FAILED)
    ensures entry.event == Process(false)
  {}

  /** Without a Successful edge no run ends Successful. */
  lemma NoSuccessfulOutcome(env: Env, o: Options, events: seq<Event>)
    requires o.noSuccessful
    ensures Run(env, Build(o), events).state.result != SUCCESSFUL
  {
    hide Run, Build, PathTo;
    RunShape(env, o, events);
  }

  /** With a VLAN given no user acts on the network step: each exit from it is
      the engine's skip. */
  lemma VlanGivenSkipsNetwork(env: Env, o: Options, events: seq<Event>, k: int)
    requires o.conditionalNetwork && env.holds(VLAN_GIVEN)
    requires var log := Run(env, Build(o), events).log; 0 <= k < |log| && log[k].edge.source == NETWORK_STEP
    ensures SkippedByEngine(env, o, Run(env, Build(o), events).log[k])
  {
    hide Run, Build, PathTo, Accepted;
    RunShape(env, o, events);
    var h := Run(env, Build(o), events);
    EntriesAccepted(env, Build(o), h.log, h.state.at, k);
    StepNodes(o);
    NetworkMoves(env, o, h.log[k]);
  }

  /** A VLAN came with the request, or in the payload of the approving trigger. */
  predicate VlanKnown(env: Env, last: Entry) {
    env.holds(VLAN_GIVEN) || (last.edge.condition == COMPLETE && last.event.Fire? && "vlan" in last.event.payload)
  }

  /** A conditional definition's success lacks a VLAN exactly when its last move
      is a skip fired by hand, by a user the team entitles. */
  lemma SuccessWithoutVlan(env: Env, o: Options, events: seq<Event>)
    requires o.conditionalNetwork && Run(env, Build(o), events).state.result == Success(o)
    ensures var log := Run(env, Build(o), events).log;
            && log != []
            && var last := log[|log| - 1];
            && (!VlanKnown(env, last) <==> last.edge.condition == SKIP && last.event.Fire?)
            && (!VlanKnown(env, last) ==> FiredBy(env, last, NETWORK_STEP, SKIP, [TeamGroup(o.teamName)], {}))
  {
    hide Run, Build, Authorised;
    SuccessNeedsBothLayers(env, o, events);
  }

  /** The engine's steps up to layer 1. */
  function Entering(o: Options): seq<Event> {
    if o.emailNotify then [Process(true), Process(true)] else [Process(true)]
  }

  /** It happens: without a VLAN given, a team member who skips by hand ends the
      run with the success outcome. */
  lemma SkipByHandSucceeds(env: Env, o: Options, tenantAdmin: User, teamAdmin: User)
    requires o.conditionalNetwork && !env.holds(VLAN_GIVEN)
    requires Authorised(env, o.layer1Groups, tenantAdmin) && Authorised(env, [TeamGroup(o.teamName)], teamAdmin)
    ensures Run(env, Build(o), Entering(o) + [Fire(tenantAdmin, APPROVE, {}), Fire(teamAdmin, SKIP, {})]).state
         == State(END, Success(o))
  {
    hide Build, Run, Authorised, Next, Accepted;
    var def := Build(o);
    var e1, e2 := Fire(tenantAdmin, APPROVE, {}), Fire(teamAdmin, SKIP, {});
    Entered(env, o);
    SkipByHandAccepted(env, o, tenantAdmin, teamAdmin);
    Moved(env, o, State(TENANT_STEP, ""), e1, Transition(TENANT_STEP, NETWORK_STEP, APPROVE, ""));
    Moved(env, o, State(NETWORK_STEP, ""), e2, Transition(NETWORK_STEP, END, SKIP, Success(o)));
    RunSnoc(env, def, Entering(o), e1);
    RunSnoc(env, def, Entering(o) + [e1], e2);
    assert Entering(o) + [e1] + [e2] == Entering(o) + [e1, e2];
  }

  lemma Entered(env: Env, o: Options)
    ensures Run(env, Build(o), Entering(o)).state == State(TENANT_STEP, "")
  {
    hide Build, Run, Next, Accepted;
    var def, e := Build(o), Process(true);
    EntranceAccepted(env, o);
    RunEmpty(env, def);
    RunSnoc(env, def, [], e);
    assert [] + [e] == [e];
    if o.emailNotify {
      Moved(env, o, STARTED, e, Transition(START, NOTIFY, "", ""));
      Moved(env, o, State(NOTIFY, ""), e, Transition(NOTIFY, TENANT_STEP, SUCCESS, ""));
      RunSnoc(env, def, [e], e);
      assert [e] + [e] == [e, e];
    } else {
      Moved(env, o, STARTED, e, Transition(START, TENANT_STEP, "", ""));
    }
  }

  lemma EntranceAccepted(env: Env, o: Options)
    ensures START in Nodes(o) && Accepted(env, Nodes(o)[START], Process(true)) == Some("")
    ensures o.emailNotify ==> NOTIFY in Nodes(o) && Accepted(env, Nodes(o)[NOTIFY], Process(true)) == Some(SUCCESS)
    ensures o.emailNotify ==> Transition(START, NOTIFY, "", "") in Build(o).transitions
    ensures o.emailNotify ==> Transition(NOTIFY, TENANT_STEP, SUCCESS, "") in Build(o).transitions
    ensures !o.emailNotify ==> Transition(START, TENANT_STEP, "", "") in Build(o).transitions
  {
    var e := EntryTransitions(o);
    assert e[0] in e && (o.emailNotify ==> e[1] in e);
  }

  lemma SkipByHandAccepted(env: Env, o: Options, tenantAdmin: User, teamAdmin: User)
    requires o.conditionalNetwork && !env.holds(VLAN_GIVEN)
    requires Authorised(env, o.layer1Groups, tenantAdmin) && Authorised(env, [TeamGroup(o.teamName)], teamAdmin)
    ensures Accepted(env, TenantNode(o), Fire(tenantAdmin, APPROVE, {})) == Some(APPROVE)
    ensures Accepted(env, NetworkNode(o), Fire(teamAdmin, SKIP, {})) == Some(SKIP)
    ensures TENANT_STEP in Nodes(o) && Nodes(o)[TENANT_STEP] == TenantNode(o)
    ensures NETWORK_STEP in Nodes(o) && Nodes(o)[NETWORK_STEP] == NetworkNode(o)
    ensures Transition(TENANT_STEP, NETWORK_STEP, APPROVE, "") in Build(o).transitions
    ensures Transition(NETWORK_STEP, END, SKIP, Success(o)) in Build(o).transitions
  {
    hide Authorised;
    var s := StepTransitions(o);
    assert s[0] in s && s[6] in s;
  }

  lemma RunEmpty(env: Env, def: Definition)
    ensures Run(env, def, []).state == STARTED
  {}

  /** An accepted event takes the transition that leaves on its condition. */
  lemma Moved(env: Env, o: Options, s: State, e: Event, t: Transition)
    requires s.at in Nodes(o) && t in Build(o).transitions && t.source == s.at
    requires Accepted(env, Nodes(o)[s.at], e) == Some(t.condition)
    ensures Next(env, Build(o), s, e) == State(t.target, t.result)
  {
    hide Build, Accepted, Nodes, Taken;
    BuildWellFormed(o);
    BuildNodes(o);
    AcceptedMoves(env, Build(o), s, e);
    var i :| 0 <= i < |Build(o).transitions| && Build(o).transitions[i] == t;
    assert Leaves(Build(o), i, s.at, t.condition);
  }
}
