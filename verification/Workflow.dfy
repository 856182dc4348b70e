/** An interpreter for workflow definitions: steps with triggers, callbacks,
    skipped steps and user groups, over any trace of attempts. */
module Workflow {
  import opened Wrappers
  import opened Text

  type User = string

  datatype Group =
    | Tenant(tenantRns: string, role: string)
    | ServiceResourceRole(serviceRns: string, resourceRns: string, role: string)
    | Team(name: string, role: string)
    | CustomKind(name: string)
    | ApproverSlot(slot: nat, backup: Option<Group>)  // params.approver_emails[slot], null past the end
    | CreatedBy

  datatype Trigger = Trigger(required: set<string>, users: seq<Group>)

  datatype Skip = Skip(condition: string, trigger: string)

  datatype Node =
    | StartNode
    | StepNode(triggers: map<string, Trigger>, skip: Option<Skip>)
    | CallbackNode
    | EndNode

  /** "" stands for a condition or result that is absent. */
  datatype Transition = Transition(source: string, target: string, condition: string, result: string)

  datatype Definition = Definition(
    nodes: map<string, Node>,
    transitions: seq<Transition>,
    properties: map<string, string>,
    required: set<string>,
    fingerprint: Option<seq<string>>)

  const START := "start"
  const SUCCESS := "success"
  const FAILED := "failed"

  // ----- well-formed definitions -----

  /** The conditions on which a node is left. */
  function Exits(node: Node): set<string> {
    match node
    case StartNode => {""}
    case StepNode(triggers, _) => triggers.Keys
    case CallbackNode => {SUCCESS, FAILED}
    case EndNode => {}
  }

  predicate Leaves(def: Definition, i: int, source: string, condition: string) {
    0 <= i < |def.transitions| && def.transitions[i].source == source && def.transitions[i].condition == condition
  }

  predicate EndpointsOk(def: Definition) {
    forall i :: 0 <= i < |def.transitions| ==>
      && def.transitions[i].source in def.nodes
      && def.transitions[i].target in def.nodes
      && (def.transitions[i].result != "" <==> def.nodes[def.transitions[i].target].EndNode?)
  }

  /** Exits and outgoing transitions match one to one. */
  ghost predicate ExitsOk(def: Definition) {
    && (forall n, c :: n in def.nodes ==> (c in Exits(def.nodes[n]) <==> exists i :: Leaves(def, i, n, c)))
    && forall i, j, n, c :: Leaves(def, i, n, c) && Leaves(def, j, n, c) ==> i == j
  }

  predicate SkipsOk(def: Definition) {
    forall n :: n in def.nodes && def.nodes[n].StepNode? && def.nodes[n].skip.Some? ==>
      def.nodes[n].skip.value.trigger in def.nodes[n].triggers
  }

  predicate FingerprintOk(def: Definition) {
    && def.required <= def.properties.Keys
    && (def.fingerprint.Some? ==>
          Distinct(def.fingerprint.value) && forall f :: f in def.fingerprint.value ==> f in def.properties)
  }

  ghost predicate WellFormed(def: Definition) {
    && START in def.nodes && def.nodes[START].StartNode?
    && EndpointsOk(def) && ExitsOk(def) && SkipsOk(def) && FingerprintOk(def)
  }

  ghost predicate Ranked(def: Definition, rank: string -> nat) {
    forall i :: 0 <= i < |def.transitions| ==> rank(def.transitions[i].target) < rank(def.transitions[i].source)
  }

  // ----- the interpreter -----

  /** How groups resolve (None is a null group, which the platform drops), who
      may act when every group is null, and which skip conditions hold. */
  datatype Env = Env(resolve: Group -> Option<set<User>>, actsOnNull: User -> bool, holds: string -> bool)

  predicate Live(env: Env, groups: seq<Group>) {
    exists g :: g in groups && env.resolve(g).Some?
  }

  predicate Member(env: Env, groups: seq<Group>, user: User) {
    exists g :: g in groups && env.resolve(g).Some? && user in env.resolve(g).value
  }

  predicate Authorised(env: Env, groups: seq<Group>, user: User) {
    if Live(env, groups) then Member(env, groups, user) else env.actsOnNull(user)
  }

  /** A user is entitled by a group that resolves to him, or, when every group
      resolves to null, by the rule for that case. */
  lemma AuthorisedExact(env: Env, groups: seq<Group>, user: User)
    ensures Authorised(env, groups, user) <==>
              || (exists i :: 0 <= i < |groups| && env.resolve(groups[i]).Some?
                           && user in env.resolve(groups[i]).value)
              || ((forall i :: 0 <= i < |groups| ==> env.resolve(groups[i]) == None) && env.actsOnNull(user))
  {
    if g :| g in groups && env.resolve(g).Some? && user in env.resolve(g).value {
      var i :| 0 <= i < |groups| && groups[i] == g;
      assert env.resolve(groups[i]).Some?;
    }
  }

  /** A user's attempt, with the fields its payload has, or a step of the
      engine itself, with the outcome of a callback should it reach one. */
  datatype Event = Fire(user: User, trigger: string, payload: set<string>) | Process(callbackOk: bool)

  predicate Skipped(env: Env, node: Node) {
    node.StepNode? && node.skip.Some? && env.holds(node.skip.value.condition)
  }

  /** The condition on which an event leaves a node; None is a refusal. */
  function Accepted(env: Env, node: Node, e: Event): Option<string> {
    match e
    case Fire(user, trigger, payload) =>
      if node.StepNode? && !Skipped(env, node) && trigger in node.triggers
         && Authorised(env, node.triggers[trigger].users, user)
         && node.triggers[trigger].required <= payload
      then Some(trigger) else None
    case Process(callbackOk) =>
      match node
      case StartNode => Some("")
      case CallbackNode => Some(if callbackOk then SUCCESS else FAILED)
      case StepNode(_, _) => if Skipped(env, node) then Some(node.skip.value.trigger) else None
      case EndNode => None
  }

  function EdgeFrom(ts: seq<Transition>, source: string, condition: string): Option<Transition> {
    if ts == [] then None
    else if ts[0].source == source && ts[0].condition == condition then Some(ts[0])
    else EdgeFrom(ts[1..], source, condition)
  }

  datatype State = State(at: string, result: string)

  const STARTED := State(START, "")

  /** The transition an event takes; None when the event changes nothing. */
  function Taken(env: Env, def: Definition, s: State, e: Event): Option<Transition> {
    if s.at !in def.nodes then None
    else match Accepted(env, def.nodes[s.at], e)
      case None => None
      case Some(condition) => EdgeFrom(def.transitions, s.at, condition)
  }

  function Next(env: Env, def: Definition, s: State, e: Event): State {
    match Taken(env, def, s, e)
    case None => s
    case Some(t) => State(t.target, t.result)
  }

  datatype Entry = Entry(event: Event, edge: Transition)

  datatype History = History(state: State, log: seq<Entry>)

  /** The state after a trace of attempts and the accepted ones. */
  function Run(env: Env, def: Definition, events: seq<Event>): History {
    if events == [] then History(STARTED, [])
    else
      var h := Run(env, def, events[..|events| - 1]);
      var e := events[|events| - 1];
      match Taken(env, def, h.state, e)
      case None => h
      case Some(t) => History(State(t.target, t.result), h.log + [Entry(e, t)])
  }

  // ----- every well-formed definition -----

  lemma {:induction false} EdgeFromSound(ts: seq<Transition>, source: string, condition: string)
    ensures var t := EdgeFrom(ts, source, condition);
            t.Some? ==> t.value in ts && t.value.source == source && t.value.condition == condition
    ensures (exists i :: 0 <= i < |ts| && ts[i].source == source && ts[i].condition == condition) ==>
              EdgeFrom(ts, source, condition).Some?
  {
    if ts != [] {
      EdgeFromSound(ts[1..], source, condition);
      forall i | 0 < i < |ts| ensures ts[i] == ts[1..][i - 1] {}
    }
  }

  /** In a well-formed definition an event is accepted exactly when it moves the
      workflow, along the one transition its condition names. */
  lemma AcceptedMoves(env: Env, def: Definition, s: State, e: Event)
    requires WellFormed(def) && s.at in def.nodes
    ensures Accepted(env, def.nodes[s.at], e).Some? <==> Taken(env, def, s, e).Some?
    ensures var a := Accepted(env, def.nodes[s.at], e);
            forall i :: a.Some? && Leaves(def, i, s.at, a.value) ==> Taken(env, def, s, e) == Some(def.transitions[i])
  {
    var node := def.nodes[s.at];
    var a := Accepted(env, node, e);
    if a.Some? {
      assert a.value in Exits(node);
      EdgeFromSound(def.transitions, s.at, a.value);
      var i :| Leaves(def, i, s.at, a.value);
      var t := EdgeFrom(def.transitions, s.at, a.value).value;
      var j :| 0 <= j < |def.transitions| && def.transitions[j] == t;
      assert Leaves(def, j, s.at, a.value);
    }
  }

  /** The log is a path of accepted events from the start to the current node. */
  ghost predicate PathTo(env: Env, def: Definition, log: seq<Entry>, at: string) {
    if log == [] then at == START
    else
      var last := log[|log| - 1];
      && last.edge in def.transitions
      && last.edge.target == at
      && last.edge.source in def.nodes
      && Accepted(env, def.nodes[last.edge.source], last.event) == Some(last.edge.condition)
      && PathTo(env, def, log[..|log| - 1], last.edge.source)
  }

  lemma {:induction false} RunIsPath(env: Env, def: Definition, events: seq<Event>)
    requires WellFormed(def)
    ensures var h := Run(env, def, events);
            && h.state.at in def.nodes
            && (h.state.result != "" <==> def.nodes[h.state.at].EndNode?)
            && PathTo(env, def, h.log, h.state.at)
            && (h.log != [] ==> h.state.result == h.log[|h.log| - 1].edge.result)
  {
    if events != [] {
      var front, e := events[..|events| - 1], events[|events| - 1];
      RunIsPath(env, def, front);
      var h := Run(env, def, front);
      match Taken(env, def, h.state, e)
      case None =>
      case Some(t) =>
        EdgeFromSound(def.transitions, h.state.at, Accepted(env, def.nodes[h.state.at], e).value);
        assert (h.log + [Entry(e, t)])[..|h.log|] == h.log;
    }
  }

  /** The nodes a path has left. */
  function Left(log: seq<Entry>): set<string> {
    if log == [] then {} else Left(log[..|log| - 1]) + {log[|log| - 1].edge.source}
  }

  lemma {:induction false} PathRanks(env: Env, def: Definition, rank: string -> nat, log: seq<Entry>, at: string)
    requires PathTo(env, def, log, at) && Ranked(def, rank)
    ensures |Left(log)| == |log| && Left(log) <= def.nodes.Keys
    ensures forall n :: n in Left(log) ==> rank(at) < rank(n)
  {
    if log != [] {
      var front, last := log[..|log| - 1], log[|log| - 1];
      PathRanks(env, def, rank, front, last.edge.source);
      assert rank(last.edge.target) < rank(last.edge.source);
      assert last.edge.source !in Left(front);
    }
  }

  /** When a rank falls along every transition, each accepted step lowers it,
      and a run takes fewer accepted steps than the definition has nodes. */
  lemma AcceptedStepsBounded(env: Env, def: Definition, rank: string -> nat, events: seq<Event>)
    requires WellFormed(def) && Ranked(def, rank)
    ensures |Run(env, def, events).log| < |def.nodes|
  {
    RunIsPath(env, def, events);
    var h := Run(env, def, events);
    PathRanks(env, def, rank, h.log, h.state.at);
    var seen := Left(h.log) + {h.state.at};
    assert h.state.at !in Left(h.log);
    assert seen <= def.nodes.Keys;
    SubsetSize(seen, def.nodes.Keys);
  }

  /** Somebody may fire some trigger of every step. */
  ghost predicate Staffed(env: Env, def: Definition) {
    forall n :: n in def.nodes && def.nodes[n].StepNode? ==>
      exists t, u :: t in def.nodes[n].triggers && Authorised(env, def.nodes[n].triggers[t].users, u)
  }

  lemma SomeEventMoves(env: Env, def: Definition, s: State) returns (e: Event)
    requires WellFormed(def) && Staffed(env, def) && s.at in def.nodes && !def.nodes[s.at].EndNode?
    ensures Taken(env, def, s, e).Some? && Taken(env, def, s, e).value in def.transitions
    ensures Taken(env, def, s, e).value.source == s.at
  {
    var node := def.nodes[s.at];
    if node.StepNode? && !Skipped(env, node) {
      var t, u :| t in node.triggers && Authorised(env, node.triggers[t].users, u);
      e := Fire(u, t, node.triggers[t].required);
    } else {
      e := Process(true);
    }
    AcceptedMoves(env, def, s, e);
    EdgeFromSound(def.transitions, s.at, Accepted(env, node, e).value);
  }

  lemma RunSnoc(env: Env, def: Definition, events: seq<Event>, e: Event)
    ensures Run(env, def, events + [e]).state == Next(env, def, Run(env, def, events).state, e)
  {}

  /** No run gets stuck: every trace extends to one that has ended. */
  lemma {:induction false} EveryRunCanEnd(env: Env, def: Definition, rank: string -> nat, events: seq<Event>)
    requires WellFormed(def) && Ranked(def, rank) && Staffed(env, def)
    ensures exists more :: Run(env, def, events + more).state.result != ""
    decreases rank(Run(env, def, events).state.at)
  {
    hide Taken, Run, Staffed;
    RunIsPath(env, def, events);
    var s := Run(env, def, events).state;
    if def.nodes[s.at].EndNode? {
      assert events + [] == events;
    } else {
      var e := SomeEventMoves(env, def, s);
      RunSnoc(env, def, events, e);
      EveryRunCanEnd(env, def, rank, events + [e]);
      var more :| Run(env, def, (events + [e]) + more).state.result != "";
      assert (events + [e]) + more == events + ([e] + more);
    }
  }
}
