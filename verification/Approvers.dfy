/** From the APPROVER_EMAILS text to the approvers of layer 1. */
module Approvers {
  import opened Wrappers
  import opened Text
  import opened Workflow
  import opened ApprovalDefinition
  import opened ApprovalSafety

  const APPROVER_SLOTS := 5
  const NONE := "none"

  /** The trimmed, non-empty parts, in order. */
  function CleanParts(parts: seq<string>): seq<string> {
    if parts == [] then []
    else
      var e := TrimSpace(parts[|parts| - 1]);
      CleanParts(parts[..|parts| - 1]) + if e != "" then [e] else []
  }

  function ParseApprovers(raw: string): seq<string> {
    if raw == NONE then [] else CleanParts(Split(raw, ','))
  }

  function Trims(parts: seq<string>): seq<string> {
    seq(|parts|, i requires 0 <= i < |parts| => TrimSpace(parts[i]))
  }

  /** The comma-separated parts, each without the white space at its ends. */
  function TrimmedParts(raw: string): seq<string> { Trims(Split(raw, ',')) }

  lemma TrimsSnoc(parts: seq<string>, x: string)
    ensures Trims(parts + [x]) == Trims(parts) + [TrimSpace(x)]
  {
    hide TrimSpace;
  }

  lemma CleanPartsSnoc(parts: seq<string>, x: string)
    ensures CleanParts(parts + [x])
         == if TrimSpace(x) != "" then CleanParts(parts) + [TrimSpace(x)] else CleanParts(parts)
  {
    hide TrimSpace;
    assert (parts + [x])[..|parts|] == parts;
  }

  lemma CleanStep(parts: seq<string>, x: string)
    requires NonEmpties(Trims(parts), CleanParts(parts))
    ensures NonEmpties(Trims(parts + [x]), CleanParts(parts + [x]))
  {
    hide Trims, NonEmpties, TrimSpace, CleanParts;
    NonEmptiesSnoc(Trims(parts), CleanParts(parts), TrimSpace(x));
    TrimsSnoc(parts, x);
    CleanPartsSnoc(parts, x);
  }

  lemma {:induction false} CleanPartsExact(parts: seq<string>)
    ensures NonEmpties(Trims(parts), CleanParts(parts))
  {
    if parts == [] {
      assert Trims(parts) == [] && CleanParts(parts) == [];
      NoNonEmpties();
    } else {
      hide Trims, NonEmpties, CleanParts;
      var n := |parts| - 1;
      CleanPartsExact(parts[..n]);
      CleanStep(parts[..n], parts[n]);
      assert parts[..n] + [parts[n]] == parts;
    }
  }

  /** In order the trimmed parts that are not empty; none for the text "none". */
  method ApproverEmails(raw: string) returns (out: seq<string>)
    ensures out == ParseApprovers(raw)
    ensures raw == "none" ==> out == []
    ensures raw != "none" ==> NonEmpties(TrimmedParts(raw), out)
  {
    out := [];
    if raw == NONE {
      return;
    }
    CleanPartsExact(Split(raw, ','));
    hide NonEmpties;
    var parts := Split(raw, ',');
    for i := 0 to |parts|
      invariant out == CleanParts(parts[..i])
    {
      assert parts[..i + 1][..i] == parts[..i];
      var e := TrimSpace(parts[i]);
      if e != "" {
        out := out + [e];
      }
    }
    assert parts[..|parts|] == parts;
  }

  predicate HasPart(raw: string, v: string) { v != "" && v in TrimmedParts(raw) }

  lemma CleanPartsMembers(raw: string, v: string)
    ensures v in CleanParts(Split(raw, ',')) <==> HasPart(raw, v)
  {
    CleanPartsExact(Split(raw, ','));
    NonEmptiesMembers(TrimmedParts(raw), CleanParts(Split(raw, ',')));
  }

  method ParseVariants(raw: string) returns (out: set<string>)
    ensures out == Elems(CleanParts(Split(raw, ',')))
    ensures forall v :: v in out <==> HasPart(raw, v)
  {
    forall v ensures v in CleanParts(Split(raw, ',')) <==> HasPart(raw, v) { CleanPartsMembers(raw, v); }
    hide HasPart;
    out := {};
    var parts := Split(raw, ',');
    for i := 0 to |parts|
      invariant out == Elems(CleanParts(parts[..i]))
    {
      assert parts[..i + 1][..i] == parts[..i];
      var v := TrimSpace(parts[i]);
      if v != "" {
        out := out + {v};
      }
    }
    assert parts[..|parts|] == parts;
  }

  /** The first slot carries the backup. */
  function SlotGroup(i: nat, backup: Option<Group>): Group {
    ApproverSlot(i, if i == 0 then backup else None)
  }

  function SlotGroups(n: nat, backup: Option<Group>): seq<Group> {
    seq(n, i requires 0 <= i < n => SlotGroup(i, backup))
  }

  method EmailUserGroups(backup: Option<Group>) returns (groups: seq<Group>)
    ensures groups == SlotGroups(APPROVER_SLOTS, backup)
    ensures |groups| == 5
    ensures forall i: nat :: i < 5 ==> groups[i] == ApproverSlot(i, if i == 0 then backup else None)
  {
    groups := [];
    for i := 0 to APPROVER_SLOTS
      invariant groups == SlotGroups(i, backup)
    {
      var g := ApproverSlot(i, None);
      if i == 0 && backup.Some? {
        g := g.(backup := backup);
      }
      groups := groups + [g];
    }
  }

  // ----- parsing and joining -----

  predicate Clean(e: string) { e != "" && Trimmed(e) && ',' !in e }

  predicate AllClean(l: seq<string>) { forall e :: e in l ==> Clean(e) }

  lemma {:induction false} CleanPartsOfClean(l: seq<string>)
    requires AllClean(l)
    ensures CleanParts(l) == l
  {
    if l != [] {
      CleanPartsOfClean(l[..|l| - 1]);
      assert Clean(l[|l| - 1]);
      TrimSpaceResult(l[|l| - 1]);
    }
  }

  /** What is parsed is clean: the code can only give clean entries. */
  lemma {:induction false} CleanPartsClean(parts: seq<string>)
    requires forall p :: p in parts ==> ',' !in p
    ensures AllClean(CleanParts(parts))
  {
    if parts != [] {
      CleanPartsClean(parts[..|parts| - 1]);
      assert parts[|parts| - 1] in parts;
      TrimSpaceResult(parts[|parts| - 1]);
    }
  }

  lemma ParsedAreClean(raw: string)
    ensures AllClean(ParseApprovers(raw))
  {
    SplitParts(raw, ',');
    CleanPartsClean(Split(raw, ','));
  }

  lemma CommaInJoin(l: seq<string>)
    requires |l| >= 2
    ensures ',' in Join(l, ',')
  {}

  /** Joining entries and parsing gives them back exactly when they are clean and
      not the single entry "none", which reads as the empty list. */
  lemma JoinThenParse(l: seq<string>)
    ensures ParseApprovers(Join(l, ',')) == l <==> AllClean(l) && l != [NONE]
  {
    ParsedAreClean(Join(l, ','));
    if l == [] {
      assert Split("", ',') == [""];
      assert TrimSpace("") == "" && [""][..0] == [];
    } else if AllClean(l) {
      assert Join(l, ',') == NONE <==> l == [NONE] by {
        if |l| >= 2 { CommaInJoin(l); }
      }
      SplitOfJoin(l, ',');
      CleanPartsOfClean(l);
    }
  }

  // ----- who may approve -----

  /** A slot is the email at its position; past the end it is null, or its
      backup when there is no email at all. */
  ghost predicate SlotsResolve(env: Env, emails: seq<string>) {
    forall i: nat, b :: env.resolve(ApproverSlot(i, b)) ==
      if i < |emails| then Some({emails[i]})
      else if emails == [] && b.Some? then env.resolve(b.value)
      else None
  }

  function FirstFive(emails: seq<string>): seq<string> {
    if |emails| <= APPROVER_SLOTS then emails else emails[..APPROVER_SLOTS]
  }

  /** For every text, the members of the slot groups are exactly its first five
      trimmed non-empty entries; the backup counts only when there is none. */
  lemma ApproversExact(env: Env, raw: string, backup: Group, user: User)
    requires SlotsResolve(env, ParseApprovers(raw))
    ensures var emails := ParseApprovers(raw); var groups := SlotGroups(APPROVER_SLOTS, Some(backup));
            if emails == [] then
              Live(env, groups) == Live(env, [backup]) && Member(env, groups, user) == Member(env, [backup], user)
            else
              && Live(env, groups)
              && (Member(env, groups, user) <==> user in FirstFive(emails))
              && (Member(env, groups, user) <==> exists i: nat :: i < 5 && i < |emails| && emails[i] == user)
  {
    var emails := ParseApprovers(raw);
    var groups := SlotGroups(APPROVER_SLOTS, Some(backup));
    assert forall i: nat :: i < APPROVER_SLOTS ==> groups[i] == SlotGroup(i, Some(backup)) && groups[i] in groups;
    assert groups[0] == ApproverSlot(0, Some(backup));
    assert backup in [backup];
    if emails == [] {
      assert forall i: nat :: 0 < i < APPROVER_SLOTS ==> env.resolve(groups[i]) == None;
      assert env.resolve(groups[0]) == env.resolve(backup);
    } else {
      assert env.resolve(groups[0]) == Some({emails[0]});
      forall i: nat | i < APPROVER_SLOTS
        ensures env.resolve(groups[i]) == if i < |emails| then Some({emails[i]}) else None
      {}
      if user in FirstFive(emails) {
        var i: nat :| i < |FirstFive(emails)| && FirstFive(emails)[i] == user;
        assert user in env.resolve(groups[i]).value;
      }
    }
  }

  /** With the user-groups variant and an email given, a run that succeeds was
      approved at layer 1 by one of the first five emails. */
  lemma SuccessApprovedByListed(env: Env, raw: string, o: Options, events: seq<Event>)
    requires SlotsResolve(env, ParseApprovers(raw)) && ParseApprovers(raw) != []
    requires o.layer1Groups == SlotGroups(APPROVER_SLOTS, Some(TeamGroup(o.teamName)))
    requires Run(env, Build(o), events).state.result == Success(o)
    ensures var log := Run(env, Build(o), events).log;
            exists k :: 0 <= k < |log| && FiredBy(env, log[k], TENANT_STEP, APPROVE, o.layer1Groups, {})
                     && log[k].event.user in FirstFive(ParseApprovers(raw))
  {
    hide Run, Build, ParseApprovers, SlotGroups;
    var log := Run(env, Build(o), events).log;
    ApproversExact(env, raw, TeamGroup(o.teamName), "");
    ApproverIsMember(env, o, events);
    var k :| 0 <= k < |log| && FiredBy(env, log[k], TENANT_STEP, APPROVE, o.layer1Groups, {})
             && Member(env, o.layer1Groups, log[k].event.user);
    ApproversExact(env, raw, TeamGroup(o.teamName), log[k].event.user);
  }
}
