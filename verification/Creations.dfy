/** The fingerprint and idempotency probes: workflows created concurrently, the
    list of their ids kept under a mutex, and every listed one cancelled. */
module Creations {
  import opened Polling
  import opened Text

  type Id = string

  // ----- concurrent creations -----

  /** Where one creating goroutine stands. Appending under the mutex reads the
      shared slice and writes it back in two steps. */
  datatype Client =
    | Idle
    | InFlight(id: Id)  // accepted by the server, the answer on its way
    | Got(id: Id)
    | Locked(id: Id)
    | Loaded(id: Id, seen: seq<Id>)
    | Stored
    | Done

  datatype Sys = Sys(accepted: seq<Id>, lost: set<Id>, clients: seq<Client>, created: seq<Id>, lock: set<nat>)

  datatype Event =
    | Accept(client: nat, id: Id)
    | Refuse(client: nat)
    | Deliver(client: nat)
    | Lose(client: nat)  // accepted, but the client is told of an error
    | Acquire(client: nat)
    | Load(client: nat)
    | StoreBack(client: nat)
    | Release(client: nat)

  predicate Enabled(mutex: bool, s: Sys, e: Event) {
    e.client < |s.clients| &&
    match e
    case Accept(c, id) => s.clients[c].Idle? && id != "" && id !in s.accepted
    case Refuse(c) => s.clients[c].Idle?
    case Deliver(c) => s.clients[c].InFlight?
    case Lose(c) => s.clients[c].InFlight?
    case Acquire(c) => s.clients[c].Got? && (mutex ==> s.lock == {})
    case Load(c) => s.clients[c].Locked?
    case StoreBack(c) => s.clients[c].Loaded?
    case Release(c) => s.clients[c].Stored?
  }

  function Apply(mutex: bool, s: Sys, e: Event): Sys {
    if !Enabled(mutex, s, e) then s
    else
      var c := e.client;
      var me := s.clients[c];
      match e
      case Accept(_, id) => s.(accepted := s.accepted + [id], clients := s.clients[c := InFlight(id)])
      case Refuse(_) => s.(clients := s.clients[c := Done])
      case Deliver(_) => s.(clients := s.clients[c := Got(me.id)])
      case Lose(_) => s.(lost := s.lost + {me.id}, clients := s.clients[c := Done])
      case Acquire(_) => s.(lock := s.lock + {c}, clients := s.clients[c := Locked(me.id)])
      case Load(_) => s.(clients := s.clients[c := Loaded(me.id, s.created)])
      case StoreBack(_) => s.(created := me.seen + [me.id], clients := s.clients[c := Stored])
      case Release(_) => s.(lock := s.lock - {c}, clients := s.clients[c := Done])
  }

  function Run(mutex: bool, s: Sys, events: seq<Event>): Sys {
    if events == [] then s
    else Apply(mutex, Run(mutex, s, events[..|events| - 1]), events[|events| - 1])
  }

  function Begin(clients: nat): Sys {
    Sys([], {}, seq(clients, i => Idle), [], {})
  }

  /** The goroutines the code waits for have all returned. */
  predicate Joined(s: Sys) {
    forall c :: 0 <= c < |s.clients| ==> s.clients[c].Done?
  }

  predicate Holds(client: Client, id: Id) {
    (client.InFlight? || client.Got? || client.Locked? || client.Loaded?) && client.id == id
  }

  predicate Critical(client: Client) { client.Locked? || client.Loaded? || client.Stored? }

  ghost predicate HeldBySome(s: Sys, id: Id) {
    exists c :: 0 <= c < |s.clients| && Holds(s.clients[c], id)
  }

  /** The recorded ids are different accepted ones, none of them lost. */
  ghost predicate Recorded(s: Sys) {
    && Distinct(s.accepted) && "" !in s.accepted
    && Distinct(s.created)
    && (forall id :: id in s.created ==> id in s.accepted && id !in s.lost)
    && (forall id :: id in s.lost ==> id in s.accepted)
  }

  /** No accepted id has dropped out: it is recorded, lost, or some client has it. */
  ghost predicate Covered(s: Sys) {
    forall id :: id in s.accepted ==> id in s.created || id in s.lost || HeldBySome(s, id)
  }

  /** What a client has is accepted, and nowhere else. */
  ghost predicate HeldOnce(s: Sys) {
    && (forall c :: 0 <= c < |s.clients| ==> HeldProperly(s, s.clients[c]))
    && (forall c, d :: 0 <= c < |s.clients| && 0 <= d < |s.clients| && c != d ==> Apart(s.clients[c], s.clients[d]))
  }

  ghost predicate HeldProperly(s: Sys, client: Client) {
    forall id :: Holds(client, id) ==> id in s.accepted && id !in s.created && id !in s.lost
  }

  ghost predicate Apart(a: Client, b: Client) {
    forall id :: Holds(a, id) ==> !Holds(b, id)
  }

  /** The mutex: only its holder is between Lock and Unlock, so what it read is current. */
  ghost predicate Exclusive(s: Sys) {
    && (forall c :: 0 <= c < |s.clients| && Critical(s.clients[c]) ==> s.lock == {c})
    && (forall c :: c in s.lock ==> c < |s.clients| && Critical(s.clients[c]))
    && (forall c :: 0 <= c < |s.clients| && s.clients[c].Loaded? ==> s.clients[c].seen == s.created)
  }

  ghost predicate Inv(s: Sys) { Recorded(s) && Covered(s) && HeldOnce(s) && Exclusive(s) }

  lemma StepExclusive(s: Sys, e: Event)
    requires Exclusive(s)
    ensures Exclusive(Apply(true, s, e))
  {}

  lemma StepRecorded(s: Sys, e: Event)
    requires Recorded(s) && HeldOnce(s) && Exclusive(s)
    ensures Recorded(Apply(true, s, e))
  {
    hide Apart;
    if Enabled(true, s, e) {
      var me := s.clients[e.client];
      if e.StoreBack? || e.Lose? {
        assert HeldProperly(s, me) && Holds(me, me.id);
      }
      if e.StoreBack? {
        DistinctSnoc(s.created, me.id);
      }
      if e.Accept? {
        DistinctSnoc(s.accepted, e.id);
      }
    }
  }

  lemma DistinctSnoc(ids: seq<Id>, id: Id)
    requires Distinct(ids) && id !in ids
    ensures Distinct(ids + [id])
  {}

  lemma StepCovered(s: Sys, e: Event)
    requires Covered(s) && Exclusive(s)
    ensures Covered(Apply(true, s, e))
  {
    if Enabled(true, s, e) {
      var t := Apply(true, s, e);
      forall id | id in t.accepted ensures id in t.created || id in t.lost || HeldBySome(t, id) {
        StepCovers(s, e, id);
      }
    }
  }

  lemma StepCovers(s: Sys, e: Event, id: Id)
    requires Covered(s) && Exclusive(s) && Enabled(true, s, e)
    requires id in Apply(true, s, e).accepted
    ensures var t := Apply(true, s, e); id in t.created || id in t.lost || HeldBySome(t, id)
  {
    var t := Apply(true, s, e);
    if id !in s.accepted {
      assert Holds(t.clients[e.client], id);
    } else if id !in s.created && id !in s.lost {
      var c :| 0 <= c < |s.clients| && Holds(s.clients[c], id);
      assert c != e.client ==> Holds(t.clients[c], id);
      assert c == e.client ==> id in t.created || id in t.lost || Holds(t.clients[c], id);
    }
  }

  lemma StepHeldOnce(s: Sys, e: Event)
    requires Recorded(s) && HeldOnce(s) && Exclusive(s)
    ensures HeldOnce(Apply(true, s, e))
  {
    hide Distinct;
    if Enabled(true, s, e) {
      var t := Apply(true, s, e);
      forall c, d | 0 <= c < |t.clients| && 0 <= d < |t.clients| && c != d
        ensures Apart(t.clients[c], t.clients[d])
      {
        assert HeldProperly(s, s.clients[c]) && HeldProperly(s, s.clients[d]) && HeldProperly(s, s.clients[e.client]);
        assert Apart(s.clients[c], s.clients[d]) && (c != e.client ==> Apart(s.clients[c], s.clients[e.client]));
      }
      forall c | 0 <= c < |t.clients| ensures HeldProperly(t, t.clients[c]) {
        assert HeldProperly(s, s.clients[c]) && HeldProperly(s, s.clients[e.client]);
        assert c != e.client ==> Apart(s.clients[c], s.clients[e.client]);
      }
    }
  }

  lemma {:induction false} RunInv(clients: nat, events: seq<Event>)
    ensures Inv(Run(true, Begin(clients), events))
  {
    if events != [] {
      RunInv(clients, events[..|events| - 1]);
      var s := Run(true, Begin(clients), events[..|events| - 1]);
      hide Recorded, Covered, HeldOnce, Exclusive, Apply;
      StepExclusive(s, events[|events| - 1]);
      StepRecorded(s, events[|events| - 1]);
      StepCovered(s, events[|events| - 1]);
      StepHeldOnce(s, events[|events| - 1]);
    }
  }

  /** However the creations interleave, once they are joined the list holds each
      accepted id whose answer arrived, exactly once: it is a permutation of what
      the server accepted precisely when no answer was lost. */
  lemma JoinedRecordsAll(clients: nat, events: seq<Event>)
    requires Joined(Run(true, Begin(clients), events))
    ensures var s := Run(true, Begin(clients), events);
            && Distinct(s.created)
            && (forall id :: id in s.created <==> id in s.accepted && id !in s.lost)
            && (multiset(s.created) == multiset(s.accepted) <==> s.lost == {})
  {
    RunInv(clients, events);
    var s := Run(true, Begin(clients), events);
    assert forall id :: id in s.accepted ==> !HeldBySome(s, id);
    OnceCounts(s.created);
    OnceCounts(s.accepted);
    if s.lost == {} {
      assert forall id :: multiset(s.created)[id] == multiset(s.accepted)[id];
    } else {
      var id :| id in s.lost;
      assert multiset(s.accepted)[id] == 1 && multiset(s.created)[id] == 0;
    }
  }

  lemma OnceCounts(ids: seq<Id>)
    requires Distinct(ids)
    ensures forall id :: multiset(ids)[id] == if id in ids then 1 else 0
  {
    DistinctCounts(ids);
    forall id ensures multiset(ids)[id] == if id in ids then 1 else 0 {
      assert id in multiset(ids) <==> id in ids;
    }
  }

  /** Were the mutex not taken, two clients with their answers in hand could
      always read the same slice and leave only one of the two ids in it. */
  lemma WithoutMutexAnIdIsLost(s: Sys, c: nat, d: nat)
    requires c < |s.clients| && d < |s.clients| && c != d && s.clients[c].Got? && s.clients[d].Got?
    ensures var t := Run(false, s, [Acquire(c), Acquire(d), Load(c), Load(d),
                                    StoreBack(c), StoreBack(d), Release(c), Release(d)]);
            && t.created == s.created + [s.clients[d].id] && t.accepted == s.accepted && t.lost == s.lost
            && t.clients == s.clients[c := Done][d := Done]
  {
    var e := [Acquire(c), Acquire(d), Load(c), Load(d), StoreBack(c), StoreBack(d), Release(c), Release(d)];
    hide Run, Apply, Enabled;
    EightSteps(s, e);
    BothLoad(s, c, d);
    var s2 := Apply(false, Apply(false, s, Acquire(c)), Acquire(d));
    BothStore(Apply(false, Apply(false, s2, Load(c)), Load(d)), c, d);
    var a, b := s.clients[c].id, s.clients[d].id;
    assert s.clients[c := Loaded(a, s.created)][d := Loaded(b, s.created)][c := Done][d := Done]
        == s.clients[c := Done][d := Done];
  }

  lemma BothLoad(s: Sys, c: nat, d: nat)
    requires c < |s.clients| && d < |s.clients| && c != d && s.clients[c].Got? && s.clients[d].Got?
    ensures Apply(false, Apply(false, Apply(false, Apply(false, s, Acquire(c)), Acquire(d)), Load(c)), Load(d))
         == s.(lock := s.lock + {c} + {d},
               clients := s.clients[c := Loaded(s.clients[c].id, s.created)][d := Loaded(s.clients[d].id, s.created)])
  {}

  lemma BothStore(s: Sys, c: nat, d: nat)
    requires c < |s.clients| && d < |s.clients| && c != d && s.clients[c].Loaded? && s.clients[d].Loaded?
    ensures Apply(false, Apply(false,
              Apply(false, Apply(false, s, StoreBack(c)), StoreBack(d)), Release(c)), Release(d))
         == s.(created := s.clients[d].seen + [s.clients[d].id], lock := s.lock - {c} - {d},
               clients := s.clients[c := Done][d := Done])
  {}

  lemma EightSteps(s: Sys, e: seq<Event>)
    requires |e| == 8
    ensures Run(false, s, e) ==
            Apply(false, Apply(false, Apply(false, Apply(false,
              Apply(false, Apply(false, Apply(false, Apply(false, s,
                e[0]), e[1]), e[2]), e[3]), e[4]), e[5]), e[6]), e[7])
  {
    hide Apply;
    RunUpTo(s, e, 7);
    RunUpTo(s, e, 6);
    RunUpTo(s, e, 5);
    RunUpTo(s, e, 4);
    RunUpTo(s, e, 3);
    RunUpTo(s, e, 2);
    RunUpTo(s, e, 1);
    RunUpTo(s, e, 0);
    assert e[..8] == e && e[..0] == [];
  }

  lemma RunUpTo(s: Sys, e: seq<Event>, i: nat)
    requires i < |e|
    ensures Run(false, s, e[..i + 1]) == Apply(false, Run(false, s, e[..i]), e[i])
  {
    assert e[..i + 1][..i] == e[..i];
  }

  // ----- the race window: results written by index -----

  /** The ids of the creations that were answered with one. */
  function Kept(ids: seq<Id>): seq<Id> {
    if ids == [] then []
    else Kept(ids[..|ids| - 1]) + if ids[|ids| - 1] != "" then [ids[|ids| - 1]] else []
  }

  lemma {:induction false} KeptConcat(a: seq<Id>, b: seq<Id>)
    ensures Kept(a + b) == Kept(a) + Kept(b)
  {
    if b == [] {
      assert a + b == a;
    } else {
      hide Kept;
      var front, last := b[..|b| - 1], b[|b| - 1];
      KeptConcat(a, front);
      KeptSnoc(front, last);
      KeptSnoc(a + front, last);
      assert b == front + [last];
      Associate(a, front, [last]);
      Associate(Kept(a), Kept(front), [last]);
    }
  }

  lemma KeptSnoc(ids: seq<Id>, id: Id)
    ensures Kept(ids + [id]) == if id != "" then Kept(ids) + [id] else Kept(ids)
  {
    assert (ids + [id])[..|ids|] == ids;
  }

  ghost predicate KeptRightly(ids: seq<Id>) {
    && NonEmpties(ids, Kept(ids))
    && forall id :: id != "" ==> multiset(Kept(ids))[id] == multiset(ids)[id]
  }

  lemma KeptStep(ids: seq<Id>, id: Id)
    requires KeptRightly(ids)
    ensures KeptRightly(ids + [id])
  {
    hide NonEmpties, Kept;
    NonEmptiesSnoc(ids, Kept(ids), id);
    KeptSnoc(ids, id);
  }

  /** What is kept are the non-empty ids, each in its place and as often as it came. */
  lemma {:induction false} KeptExact(ids: seq<Id>)
    ensures KeptRightly(ids)
  {
    if ids == [] {
      NoNonEmpties();
    } else {
      hide KeptRightly;
      var n := |ids| - 1;
      KeptExact(ids[..n]);
      KeptStep(ids[..n], ids[n]);
      assert ids[..n] + [ids[n]] == ids;
    }
  }

  /** One trial: both goroutines write their own slot, in either order, and the
      ids got are then appended in slot order. */
  method RaceTrial(created: seq<Id>, replies: seq<Id>) returns (recorded: seq<Id>)
    requires |replies| == 2
    ensures recorded == created + Kept(replies)
    ensures recorded == created + (if replies[0] != "" then [replies[0]] else [])
                                + (if replies[1] != "" then [replies[1]] else [])
  {
    var ids := new Id[2](i => "");
    var running := {0, 1};
    while running != {}
      invariant running <= {0, 1}
      invariant forall i :: 0 <= i < 2 && i !in running ==> ids[i] == replies[i]
      decreases running
    {
      var i :| i in running;
      ids[i] := replies[i];
      running := running - {i};
    }
    assert ids[..] == replies;
    recorded := created;
    var k := 0;
    while k < ids.Length
      invariant 0 <= k <= 2 && ids[..] == replies
      invariant recorded == created + Kept(replies[..k])
    {
      assert replies[..k + 1][..k] == replies[..k];
      if ids[k] != "" {
        recorded := recorded + [ids[k]];
      }
      k := k + 1;
    }
    assert replies[..2] == replies;
    TwoKept(replies);
  }

  lemma TwoKept(replies: seq<Id>)
    requires |replies| == 2
    ensures Kept(replies)
         == (if replies[0] != "" then [replies[0]] else []) + (if replies[1] != "" then [replies[1]] else [])
  {
    assert replies == [] + [replies[0]] + [replies[1]];
    KeptSnoc([], replies[0]);
    KeptSnoc([replies[0]], replies[1]);
    assert [] + [replies[0]] == [replies[0]];
  }

  // ----- cancelling -----

  datatype Call = Call(id: Id, ok: bool)

  /** How many calls were made for the id. */
  function Asked(calls: seq<Call>, id: Id): nat {
    if calls == [] then 0
    else Asked(calls[..|calls| - 1], id) + if calls[|calls| - 1].id == id then 1 else 0
  }

  /** The server as the canceller sees it: to the call for an id that n others for
      it came before, it answers answers(id, n). */
  class Server {
    const answers: (Id, nat) -> bool
    var calls: seq<Call>

    constructor (answers: (Id, nat) -> bool)
      ensures this.answers == answers && calls == []
    {
      this.answers, calls := answers, [];
    }

    method Cancel(id: Id) returns (ok: bool)
      modifies this`calls
      ensures ok == answers(id, Asked(old(calls), id)) && calls == old(calls) + [Call(id, ok)]
    {
      ok := answers(id, Asked(calls, id));
      calls := calls + [Call(id, ok)];
    }
  }

  /** The calls spent on one id: none for the empty one, else at least one and
      at most fifteen, all but the last refused, and fewer than fifteen only
      because the last succeeded. */
  ghost predicate CancelRun(id: Id, run: seq<Call>) {
    && (forall i :: 0 <= i < |run| ==> run[i].id == id)
    && (id == "" ==> run == [])
    && (id != "" ==> 1 <= |run| <= SETTLE_ATTEMPTS)
    && (forall i :: 0 <= i < |run| - 1 ==> !run[i].ok)
    && (id != "" && |run| < SETTLE_ATTEMPTS ==> run[|run| - 1].ok)
  }

  predicate AnsweredAt(answers: (Id, nat) -> bool, id: Id, from: nat, run: seq<Call>, i: int) {
    0 <= i < |run| ==> run[i].ok == answers(id, from + i)
  }

  /** The calls have the server's answers to those for the id from the from-th on. */
  ghost predicate Answered(answers: (Id, nat) -> bool, id: Id, from: nat, run: seq<Call>) {
    forall i :: AnsweredAt(answers, id, from, run, i)
  }

  ghost predicate AnsweredRun(answers: (Id, nat) -> bool, id: Id, from: nat, run: seq<Call>) {
    CancelRun(id, run) && Answered(answers, id, from, run)
  }

  lemma AnsweredSnoc(answers: (Id, nat) -> bool, id: Id, from: nat, run: seq<Call>, call: Call)
    requires Answered(answers, id, from, run) && call.ok == answers(id, from + |run|)
    ensures Answered(answers, id, from, run + [call])
  {
    forall i ensures AnsweredAt(answers, id, from, run + [call], i) {
      assert AnsweredAt(answers, id, from, run, i);
    }
  }

  lemma AskedSnoc(calls: seq<Call>, call: Call)
    ensures Asked(calls + [call], call.id) == Asked(calls, call.id) + 1
  {
    assert (calls + [call])[..|calls|] == calls;
  }

  /** The result is whether the warning is printed. */
  method CancelWhenReady(server: Server, id: Id) returns (warned: bool, ghost run: seq<Call>)
    modifies server`calls
    ensures AnsweredRun(server.answers, id, Asked(old(server.calls), id), run)
    ensures server.calls == old(server.calls) + run
    ensures warned <==> id != "" && !run[|run| - 1].ok
  {
    hide Asked;
    ghost var from := Asked(server.calls, id);
    run := [];
    if id == "" {
      return false, run;
    }
    var i := 0;
    while i < SETTLE_ATTEMPTS
      invariant 0 <= i <= SETTLE_ATTEMPTS && |run| == i
      invariant server.calls == old(server.calls) + run
      invariant Asked(server.calls, id) == from + i
      invariant Answered(server.answers, id, from, run)
      invariant forall k :: 0 <= k < i ==> run[k] == Call(id, false)
    {
      hide Answered;
      AskedSnoc(server.calls, Call(id, server.answers(id, Asked(server.calls, id))));
      var ok := server.Cancel(id);
      AnsweredSnoc(server.answers, id, from, run, Call(id, ok));
      run := run + [Call(id, ok)];
      if ok {
        return false, run;
      }
      i := i + 1;
    }
    return true, run;
  }

  function Concat<T>(runs: seq<seq<T>>): seq<T> {
    if runs == [] then [] else Concat(runs[..|runs| - 1]) + runs[|runs| - 1]
  }

  /** One run after another for the listed ids, on top of the calls made before. */
  ghost predicate AllAnswered(answers: (Id, nat) -> bool, before: seq<Call>, created: seq<Id>, runs: seq<seq<Call>>) {
    && |runs| == |created|
    && forall i :: 0 <= i < |created| ==>
         AnsweredRun(answers, created[i], Asked(before + Concat(runs[..i]), created[i]), runs[i])
  }

  lemma NoneAnswered(answers: (Id, nat) -> bool, before: seq<Call>, created: seq<Id>)
    ensures AllAnswered(answers, before, created[..0], [])
    ensures before == before + Concat([])
  {}

  lemma AllAnsweredSnoc(
      answers: (Id, nat) -> bool, before: seq<Call>, created: seq<Id>, runs: seq<seq<Call>>, run: seq<Call>)
    requires |runs| < |created| && AllAnswered(answers, before, created[..|runs|], runs)
    requires AnsweredRun(answers, created[|runs|], Asked(before + Concat(runs), created[|runs|]), run)
    ensures AllAnswered(answers, before, created[..|runs| + 1], runs + [run])
    ensures Concat(runs + [run]) == Concat(runs) + run
  {
    hide AnsweredRun, Asked, Concat;
    ConcatSnoc(runs, run);
    var more, some := runs + [run], created[..|runs| + 1];
    forall i | 0 <= i < |some|
      ensures AnsweredRun(answers, some[i], Asked(before + Concat(more[..i]), some[i]), more[i])
    {
      assert more[..i] == runs[..i];
      if i < |runs| {
        assert some[i] == created[..|runs|][i] && more[i] == runs[i];
      } else {
        assert runs[..i] == runs;
      }
    }
  }

  lemma ConcatSnoc<T>(runs: seq<seq<T>>, run: seq<T>)
    ensures Concat(runs + [run]) == Concat(runs) + run
  {
    assert (runs + [run])[..|runs|] == runs;
  }

  method CancelAll(server: Server, created: seq<Id>) returns (ghost runs: seq<seq<Call>>)
    modifies server`calls
    ensures AllAnswered(server.answers, old(server.calls), created, runs)
    ensures server.calls == old(server.calls) + Concat(runs)
  {
    hide AnsweredRun, AllAnswered, Asked, Concat;
    NoneAnswered(server.answers, server.calls, created);
    runs := [];
    var i := 0;
    while i < |created|
      invariant 0 <= i <= |created| && |runs| == i
      invariant server.calls == old(server.calls) + Concat(runs)
      invariant AllAnswered(server.answers, old(server.calls), created[..i], runs)
    {
      var warned, run := CancelWhenReady(server, created[i]);
      AllAnsweredSnoc(server.answers, old(server.calls), created, runs, run);
      runs := runs + [run];
      i := i + 1;
    }
    assert created[..|created|] == created;
  }

  ghost predicate Attempted(calls: seq<Call>, id: Id) {
    exists k :: 0 <= k < |calls| && calls[k].id == id
  }

  /** The calls are for the listed ids alone, one at least for each, and at most
      fifteen times as many. */
  lemma {:induction false} CallsPerId(created: seq<Id>, runs: seq<seq<Call>>)
    requires |runs| == |created| && "" !in created
    requires forall i :: 0 <= i < |created| ==> CancelRun(created[i], runs[i])
    ensures forall id :: Attempted(Concat(runs), id) <==> id in created
    ensures |created| <= |Concat(runs)| <= SETTLE_ATTEMPTS * |created|
  {
    if created != [] {
      var n := |created| - 1;
      CallsPerId(created[..n], runs[..n]);
      forall id ensures Attempted(Concat(runs), id) <==> id in created {
        AttemptedSplit(Concat(runs[..n]), runs[n], id);
        assert created == created[..n] + [created[n]];
        assert CancelRun(created[n], runs[n]) && runs[n][0].id == created[n];
      }
    }
  }

  lemma AttemptedSplit(a: seq<Call>, b: seq<Call>, id: Id)
    ensures Attempted(a + b, id) <==> Attempted(a, id) || Attempted(b, id)
  {
    if Attempted(a, id) {
      var k :| 0 <= k < |a| && a[k].id == id;
      assert (a + b)[k].id == id;
    }
    if Attempted(b, id) {
      var k :| 0 <= k < |b| && b[k].id == id;
      assert (a + b)[|a| + k].id == id;
    }
  }

  /** Of the workflows the server accepted, those for which a cancel call is made
      are exactly those whose creation was answered. */
  lemma TriedUnlessLost(clients: nat, events: seq<Event>, runs: seq<seq<Call>>)
    requires Joined(Run(true, Begin(clients), events))
    requires |runs| == |Run(true, Begin(clients), events).created|
    requires forall i :: 0 <= i < |runs| ==> CancelRun(Run(true, Begin(clients), events).created[i], runs[i])
    ensures var s := Run(true, Begin(clients), events);
            forall id :: Attempted(Concat(runs), id) <==> id in s.accepted && id !in s.lost
  {
    hide CancelRun;
    JoinedRecordsAll(clients, events);
    RunInv(clients, events);
    CallsPerId(Run(true, Begin(clients), events).created, runs);
  }

  ghost predicate Cancelled(calls: seq<Call>, id: Id) { Call(id, true) in calls }

  /** One of fifteen answers of the server, from the from-th on, is an acceptance. */
  ghost predicate AcceptsSoon(answers: (Id, nat) -> bool, id: Id, from: nat) {
    exists n :: from <= n < from + SETTLE_ATTEMPTS && answers(id, n)
  }

  /** A run for an id cancels it exactly when one of the server's next fifteen
      answers for that id is an acceptance. */
  lemma RunCancels(answers: (Id, nat) -> bool, id: Id, from: nat, run: seq<Call>)
    requires id != "" && AnsweredRun(answers, id, from, run)
    ensures Cancelled(run, id) <==> AcceptsSoon(answers, id, from)
  {
    var last := |run| - 1;
    assert AnsweredAt(answers, id, from, run, last) && run[last] in run;
    if AcceptsSoon(answers, id, from) {
      var n :| from <= n < from + SETTLE_ATTEMPTS && answers(id, n);
      assert AnsweredAt(answers, id, from, run, n - from);
    }
    if Cancelled(run, id) {
      assert answers(id, from + last);
    }
  }

  lemma {:induction false} AskedConcat(a: seq<Call>, b: seq<Call>, id: Id)
    ensures Asked(a + b, id) == Asked(a, id) + Asked(b, id)
  {
    if b == [] {
      assert a + b == a;
    } else {
      var n := |b| - 1;
      AskedConcat(a, b[..n], id);
      assert (a + b)[..|a| + n] == a + b[..n];
    }
  }

  lemma {:induction false} NotAsked(run: seq<Call>, id: Id)
    requires forall i :: 0 <= i < |run| ==> run[i].id != id
    ensures Asked(run, id) == 0
  {
    if run != [] { NotAsked(run[..|run| - 1], id); }
  }

  lemma AllAnsweredFront(answers: (Id, nat) -> bool, before: seq<Call>, created: seq<Id>, runs: seq<seq<Call>>)
    requires AllAnswered(answers, before, created, runs) && created != []
    ensures var n := |created| - 1;
            && AllAnswered(answers, before, created[..n], runs[..n])
            && AnsweredRun(answers, created[n], Asked(before + Concat(runs[..n]), created[n]), runs[n])
  {
    hide AnsweredRun;
    assert forall i :: 0 <= i < |created| - 1 ==> runs[..|created| - 1][..i] == runs[..i];
  }

  lemma {:induction false} CancelsPerId(
      answers: (Id, nat) -> bool, before: seq<Call>, created: seq<Id>, runs: seq<seq<Call>>, id: Id)
    requires AllAnswered(answers, before, created, runs) && Distinct(created) && "" !in created
    ensures id in created ==> (Cancelled(Concat(runs), id) <==> AcceptsSoon(answers, id, Asked(before, id)))
    ensures id !in created ==> !Cancelled(Concat(runs), id) && Asked(Concat(runs), id) == 0
  {
    if created != [] {
      var n := |created| - 1;
      hide AllAnswered, AnsweredRun, AcceptsSoon, Asked, Cancelled;
      AllAnsweredFront(answers, before, created, runs);
      DistinctFront(created);
      CancelsPerId(answers, before, created[..n], runs[..n], id);
      CancelsStep(answers, before, Concat(runs[..n]), created[n], runs[n], id);
    }
  }

  lemma DistinctFront(ids: seq<Id>)
    requires ids != [] && Distinct(ids)
    ensures var n := |ids| - 1;
            && Distinct(ids[..n]) && ids[n] !in ids[..n]
            && forall id :: id in ids <==> id in ids[..n] || id == ids[n]
  {
    assert ids == ids[..|ids| - 1] + [ids[|ids| - 1]];
  }

  /** A run adds a cancellation and calls for its own id alone. */
  lemma CancelsStep(answers: (Id, nat) -> bool, before: seq<Call>, calls: seq<Call>, own: Id, run: seq<Call>, id: Id)
    requires own != "" && AnsweredRun(answers, own, Asked(before + calls, own), run)
    ensures id != own ==> Asked(calls + run, id) == Asked(calls, id)
    ensures id != own ==> (Cancelled(calls + run, id) <==> Cancelled(calls, id))
    ensures id == own && Asked(calls, id) == 0 && !Cancelled(calls, id) ==>
              (Cancelled(calls + run, id) <==> AcceptsSoon(answers, id, Asked(before, id)))
  {
    AskedConcat(before, calls, id);
    AskedConcat(calls, run, id);
    hide Asked, Answered, AcceptsSoon;
    if id == own {
      RunCancels(answers, id, Asked(before + calls, id), run);
    } else {
      NotAsked(run, id);
    }
  }

  /** An accepted workflow is cancelled if and only if its creation was answered
      and one of the server's next fifteen answers for it is an acceptance. */
  lemma CancelledExactly(
      clients: nat, events: seq<Event>, answers: (Id, nat) -> bool, before: seq<Call>, runs: seq<seq<Call>>, id: Id)
    requires Joined(Run(true, Begin(clients), events)) && id in Run(true, Begin(clients), events).accepted
    requires AllAnswered(answers, before, Run(true, Begin(clients), events).created, runs)
    ensures var s := Run(true, Begin(clients), events);
            Cancelled(Concat(runs), id) <==> id !in s.lost && AcceptsSoon(answers, id, Asked(before, id))
  {
    hide AllAnswered, AcceptsSoon, Cancelled;
    JoinedRecordsAll(clients, events);
    RunInv(clients, events);
    CancelsPerId(answers, before, Run(true, Begin(clients), events).created, runs, id);
  }

  /** Both ways to miss it occur: an answer can be lost, and then nothing is
      recorded; and fifteen calls can all be refused. */
  lemma NotAllAreCancelled(id: Id, answers: (Id, nat) -> bool, from: nat) returns (run: seq<Call>)
    requires id != "" && !AcceptsSoon(answers, id, from)
    ensures var s := Run(true, Begin(1), [Accept(0, id), Lose(0)]);
            Joined(s) && s.accepted == [id] && s.lost == {id} && s.created == []
    ensures AnsweredRun(answers, id, from, run) && |run| == SETTLE_ATTEMPTS && !Cancelled(run, id)
  {
    var e := [Accept(0, id), Lose(0)];
    assert e[..1] == [Accept(0, id)] && e[..1][..0] == [];
    var s1 := Apply(true, Begin(1), e[0]);
    assert s1.clients == [InFlight(id)] && s1.accepted == [id];
    assert Apply(true, s1, e[1]).clients == [Done];
    assert Run(true, Begin(1), e[..1]) == s1;
    run := seq(SETTLE_ATTEMPTS, i => Call(id, false));
    forall i ensures AnsweredAt(answers, id, from, run, i) {
      assert 0 <= i < |run| && answers(id, from + i) ==> AcceptsSoon(answers, id, from);
    }
  }

  function Refusals(k: nat): (events: seq<Event>)
    ensures |events| == k
  {
    if k == 0 then [] else Refusals(k - 1) + [Refuse(k - 1)]
  }

  /** The server may refuse any number of clients, in the end all of them: nothing
      is accepted, lost or recorded then. */
  lemma {:induction false} AllRefused(clients: nat, k: nat)
    requires k <= clients
    ensures var s := Run(true, Begin(clients), Refusals(k));
            && s == Sys([], {}, seq(clients, i => if i < k then Done else Idle), [], {})
            && (k == clients ==> Joined(s))
  {
    if k > 0 {
      AllRefused(clients, k - 1);
      assert Refusals(k)[..k - 1] == Refusals(k - 1);
    }
  }

  /** Pairs are created one after another; then everything recorded is cancelled. */
  method RaceWindow(server: Server, replies: seq<seq<Id>>) returns (created: seq<Id>, ghost runs: seq<seq<Call>>)
    requires forall i :: 0 <= i < |replies| ==> |replies[i]| == 2
    modifies server`calls
    ensures created == Kept(Concat(replies))
    ensures NonEmpties(Concat(replies), created)
    ensures forall id :: id != "" ==> multiset(created)[id] == multiset(Concat(replies))[id]
    ensures AllAnswered(server.answers, old(server.calls), created, runs)
    ensures server.calls == old(server.calls) + Concat(runs)
  {
    KeptExact(Concat(replies));
    hide AllAnswered, NonEmpties;
    created := [];
    var trial := 0;
    while trial < |replies|
      invariant 0 <= trial <= |replies|
      invariant created == Kept(Concat(replies[..trial]))
      invariant server.calls == old(server.calls)
    {
      assert replies[..trial + 1][..trial] == replies[..trial];
      KeptConcat(Concat(replies[..trial]), replies[trial]);
      created := RaceTrial(created, replies[trial]);
      trial := trial + 1;
    }
    assert replies[..|replies|] == replies;
    runs := CancelAll(server, created);
  }

  /** The slots of the trials in order: those of trial t are the 2t-th and the next. */
  lemma {:induction false} SlotsOf(replies: seq<seq<Id>>, t: nat)
    requires t < |replies| && forall i :: 0 <= i < |replies| ==> |replies[i]| == 2
    ensures |Concat(replies)| == 2 * |replies|
    ensures Concat(replies)[2 * t..2 * t + 2] == replies[t]
  {
    var n := |replies| - 1;
    var front := replies[..n];
    assert replies == front + [replies[n]];
    ConcatSnoc(front, replies[n]);
    if n == 0 {
      assert Concat(front) == [];
    } else {
      SlotsOf(front, if t < n then t else 0);
    }
    hide Concat;
    var slots := Concat(front) + replies[n];
    assert t < n ==> slots[2 * t..2 * t + 2] == Concat(front)[2 * t..2 * t + 2];
    assert slots[2 * n..2 * n + 2] == replies[n];
  }

  /** Every creation of a race window that was answered with an id is recorded and
      gets a cancel call, and every call is for such an id. */
  lemma AnsweredAreTried(answers: (Id, nat) -> bool, before: seq<Call>, replies: seq<seq<Id>>, created: seq<Id>,
                         runs: seq<seq<Call>>, id: Id)
    requires forall i :: 0 <= i < |replies| ==> |replies[i]| == 2
    requires NonEmpties(Concat(replies), created) && AllAnswered(answers, before, created, runs)
    ensures Attempted(Concat(runs), id) <==> id != "" && exists t :: 0 <= t < |replies| && id in replies[t]
  {
    hide NonEmpties, CancelRun, Answered;
    NonEmptiesMembers(Concat(replies), created);
    CallsPerId(created, runs);
    ConcatMembers(replies, id);
  }

  lemma {:induction false} ConcatMembers(lists: seq<seq<Id>>, id: Id)
    ensures id in Concat(lists) <==> exists t :: 0 <= t < |lists| && id in lists[t]
  {
    if lists != [] {
      var n := |lists| - 1;
      ConcatMembers(lists[..n], id);
      assert forall t :: 0 <= t < n ==> lists[..n][t] == lists[t];
    }
  }
}
