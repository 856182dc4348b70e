/** main of the approval gate from its environment variables to the final state,
    for a production run. */
module OperatorRun {
  import opened Wrappers
  import opened Text
  import opened Workflow
  import opened ApprovalDefinition
  import opened Approvers
  import opened ApprovalDriver
  import opened Polling

  /** The variables main reads, "" when unset; those of the service role with their
      defaults filled in. */
  datatype Settings = Settings(
    teamName: string,
    scenario: string,
    variant: string,
    approverEmails: string,
    vlan: string,
    tenantRns: string,
    serviceRole: Group)

  /** Fatal is an exit with an error; OtherMode a variant that leaves main early. */
  datatype Outcome = Fatal | OtherMode | Finished(result: string)

  const OTHER_MODES := {"custom-kind", "fingerprint", "fingerprint-race", "fingerprint-types", "idempotency"}

  function EnvOr(v: string, fallback: string): string { if v != "" then v else fallback }

  function TeamName(s: Settings): string { EnvOr(s.teamName, "clsd-ucp-team") }

  function ScenarioOf(name: string): Option<Scenario> {
    if name == "happy" then Some(Happy)
    else if name == "reject-layer1" then Some(RejectLayer1)
    else if name == "cancel-layer1" then Some(CancelLayer1)
    else None
  }

  function Variants(s: Settings): set<string> { Elems(CleanParts(Split(s.variant, ','))) }

  /** The approvers sent along: the operator unless some are given. */
  function Emails(s: Settings, operator: User): seq<string> {
    ParseApprovers(EnvOr(s.approverEmails, operator))
  }

  /** How the platform reads the parameters of a workflow that the operator creates. */
  ghost predicate Platform(env: Env, s: Settings, operator: User) {
    && SlotsResolve(env, Emails(s, operator))
    && env.resolve(CreatedBy) == Some({operator})
    && (env.holds(VLAN_GIVEN) <==> s.vlan != "")
  }

  /** Who may act on layer 1: for the email slots one of the first five, or the
      team when there is no email. */
  predicate MayAct(env: Env, s: Settings, operator: User) {
    if "service-role" in Variants(s) then Authorised(env, [s.serviceRole], operator)
    else if "user-groups" !in Variants(s) then Authorised(env, [Tenant(s.tenantRns, "admins")], operator)
    else if Emails(s, operator) != [] then operator in FirstFive(Emails(s, operator))
    else Authorised(env, [TeamGroup(TeamName(s))], operator)
  }

  /** When all the triggers that main fires are accepted. */
  predicate GetsThrough(env: Env, s: Settings, operator: User, scenario: Scenario, callbackOk: bool, lag: nat,
          lags: seq<nat>) {
    && lag <= SETTLE_ATTEMPTS + 1
    && ("email" in Variants(s) ==> callbackOk)
    && (scenario == CancelLayer1 || MayAct(env, s, operator))
    && (scenario == Happy ==>
          if "vlan" in Variants(s) && s.vlan != "" then NextLag(lags) <= SETTLE_ATTEMPTS
          else NextLag(lags) <= SETTLE_ATTEMPTS + 1 && Authorised(env, [TeamGroup(TeamName(s))], operator))
  }

  function Result(s: Settings, scenario: Scenario): string {
    match scenario
    case Happy => if "no-successful" in Variants(s) then COMPLETED else SUCCESSFUL
    case RejectLayer1 => REJECTED
    case CancelLayer1 => CANCELED
  }

  function Layer1Groups(s: Settings): seq<Group> {
    if "service-role" in Variants(s) then [s.serviceRole]
    else if "user-groups" in Variants(s) then SlotGroups(APPROVER_SLOTS, Some(TeamGroup(TeamName(s))))
    else [Tenant(s.tenantRns, "admins")]
  }

  function Ending(env: Env, s: Settings, operator: User, callbackOk: bool, firstLag: nat, lags: seq<nat>): Outcome {
    match ScenarioOf(EnvOr(s.scenario, "happy"))
    case None => Fatal
    case Some(scenario) =>
      if Variants(s) * OTHER_MODES != {} then OtherMode
      else if !GetsThrough(env, s, operator, scenario, callbackOk, firstLag, lags) then Fatal
      else Finished(Result(s, scenario))
  }

  // ----- what the texts of the environment mean -----

  predicate KnownScenario(s: Settings) { s.scenario in {"", "happy", "reject-layer1", "cancel-layer1"} }

  predicate LeavesEarly(s: Settings) {
    || HasPart(s.variant, "custom-kind") || HasPart(s.variant, "fingerprint")
    || HasPart(s.variant, "fingerprint-race") || HasPart(s.variant, "fingerprint-types")
    || HasPart(s.variant, "idempotency")
  }

  /** Which endings the scenario and the variants allow. */
  predicate ResultMeant(s: Settings, r: Outcome) {
    && (!KnownScenario(s) ==> r == Fatal)
    && (r == OtherMode <==> KnownScenario(s) && LeavesEarly(s))
    && (r.Finished? && s.scenario == "reject-layer1" ==> r.result == "Rejected")
    && (r.Finished? && s.scenario == "cancel-layer1" ==> r.result == "Canceled")
    && (r.Finished? && s.scenario in {"", "happy"} ==>
          r.result == if HasPart(s.variant, "no-successful") then "Completed" else "Successful")
  }

  /** Who the operator is when layer 1 took its trigger. */
  predicate ApproverMeant(env: Env, s: Settings, operator: User) {
    if HasPart(s.variant, "service-role") then Authorised(env, [s.serviceRole], operator)
    else if !HasPart(s.variant, "user-groups") then Authorised(env, [Tenant(s.tenantRns, "admins")], operator)
    else
      var emails := ParseApprovers(if s.approverEmails == "" then operator else s.approverEmails);
      if emails == [] then TeamMeant(env, s, operator)
      else AmongFive(emails, operator)
  }

  predicate AmongFive(emails: seq<string>, x: string) {
    exists i :: 0 <= i < |emails| && i < 5 && emails[i] == x
  }

  predicate TeamMeant(env: Env, s: Settings, operator: User) {
    Authorised(env, [Team(if s.teamName == "" then "clsd-ucp-team" else s.teamName, "admins")], operator)
  }

  lemma VariantsMeant(s: Settings, v: string)
    ensures v in Variants(s) <==> HasPart(s.variant, v)
  {
    CleanPartsMembers(s.variant, v);
  }

  lemma LeavesEarlyExact(s: Settings)
    ensures Variants(s) * OTHER_MODES != {} <==> LeavesEarly(s)
  {
    VariantsMeant(s, "custom-kind");
    VariantsMeant(s, "fingerprint");
    VariantsMeant(s, "fingerprint-race");
    VariantsMeant(s, "fingerprint-types");
    VariantsMeant(s, "idempotency");
    hide Variants, HasPart;
    if v :| v in Variants(s) * OTHER_MODES {
      assert v in OTHER_MODES;
    }
    assert forall v :: v in Variants(s) && v in OTHER_MODES ==> v in Variants(s) * OTHER_MODES;
  }

  lemma EndingResult(env: Env, s: Settings, operator: User, callbackOk: bool, firstLag: nat, lags: seq<nat>)
    ensures ResultMeant(s, Ending(env, s, operator, callbackOk, firstLag, lags))
  {
    LeavesEarlyExact(s);
    VariantsMeant(s, "no-successful");
    hide Variants, HasPart, GetsThrough, LeavesEarly, OTHER_MODES;
  }

  lemma FirstFiveMembers(emails: seq<string>, x: string)
    ensures x in FirstFive(emails) <==> AmongFive(emails, x)
  {
    if x in FirstFive(emails) {
      var i :| 0 <= i < |FirstFive(emails)| && FirstFive(emails)[i] == x;
      assert emails[i] == x;
    }
    if i :| 0 <= i < |emails| && i < 5 && emails[i] == x {
      assert FirstFive(emails)[i] == x;
    }
  }

  lemma MayActMeant(env: Env, s: Settings, operator: User)
    ensures MayAct(env, s, operator) <==> ApproverMeant(env, s, operator)
  {
    VariantsMeant(s, "service-role");
    VariantsMeant(s, "user-groups");
    FirstFiveMembers(Emails(s, operator), operator);
    hide Variants, HasPart, Authorised, ParseApprovers, FirstFive, AmongFive;
    assert Emails(s, operator) == ParseApprovers(if s.approverEmails == "" then operator else s.approverEmails);
    assert TeamMeant(env, s, operator) <==> Authorised(env, [TeamGroup(TeamName(s))], operator);
  }

  /** What a run takes to get through: reads that settle in time, a callback that
      succeeds, and an operator entitled to what is fired. */
  predicate ThroughMeant(env: Env, s: Settings, operator: User, callbackOk: bool, firstLag: nat, lags: seq<nat>) {
    && firstLag <= 16
    && (HasPart(s.variant, "email") ==> callbackOk)
    && (s.scenario != "cancel-layer1" ==> ApproverMeant(env, s, operator))
    && (s.scenario in {"", "happy"} ==>
          if HasPart(s.variant, "vlan") && s.vlan != "" then NextLag(lags) <= 15
          else NextLag(lags) <= 16 && TeamMeant(env, s, operator))
  }

  /** A run finishes exactly when its texts say so and it gets through. */
  lemma EndingFinishes(env: Env, s: Settings, operator: User, callbackOk: bool, firstLag: nat, lags: seq<nat>)
    ensures Ending(env, s, operator, callbackOk, firstLag, lags).Finished? <==>
              KnownScenario(s) && !LeavesEarly(s) && ThroughMeant(env, s, operator, callbackOk, firstLag, lags)
  {
    LeavesEarlyExact(s);
    MayActMeant(env, s, operator);
    VariantsMeant(s, "vlan");
    VariantsMeant(s, "email");
    hide Variants, HasPart, Authorised, MayAct, ApproverMeant, LeavesEarly, OTHER_MODES;
  }

  /** For every text of VARIANT, APPROVER_EMAILS, SCENARIO and VLAN: when main
      ends in an error, and the final state of the workflow when it does not. */
  method RunMain(env: Env, s: Settings, operator: User, callbackOk: bool, firstLag: nat, lags: seq<nat>)
    returns (r: Outcome)
    requires Platform(env, s, operator)
    ensures r == Ending(env, s, operator, callbackOk, firstLag, lags)
    ensures ResultMeant(s, r)
    ensures r.Finished? <==>
              KnownScenario(s) && !LeavesEarly(s) && ThroughMeant(env, s, operator, callbackOk, firstLag, lags)
  {
    EndingResult(env, s, operator, callbackOk, firstLag, lags);
    EndingFinishes(env, s, operator, callbackOk, firstLag, lags);
    hide Platform, GetsThrough, CanDrive, MayAct, SlotGroups, ResultMeant, ThroughMeant, KnownScenario, LeavesEarly;
    var variants := ParseVariants(s.variant);
    var scenario := ScenarioOf(EnvOr(s.scenario, "happy"));
    if scenario.None? {
      return Fatal;
    }
    var layer1Groups := [Tenant(s.tenantRns, "admins")];
    if "service-role" in variants {
      layer1Groups := [s.serviceRole];
    } else if "user-groups" in variants {
      layer1Groups := EmailUserGroups(Some(TeamGroup(TeamName(s))));
    }
    if variants * OTHER_MODES != {} {
      return OtherMode;
    }
    var emails := ApproverEmails(EnvOr(s.approverEmails, operator));
    assert emails == Emails(s, operator);
    var o := Options(TeamName(s), layer1Groups, "vlan" in variants, "email" in variants,
                     "no-successful" in variants, false, false);
    var ok, outcome := RunScenario(env, o, callbackOk, firstLag, lags, operator, scenario.value);
    DrivesExactly(env, s, operator, scenario.value, callbackOk, firstLag, lags, o);
    if !ok {
      return Fatal;
    }
    return Finished(outcome);
  }

  lemma DrivesExactly(env: Env, s: Settings, operator: User, scenario: Scenario, callbackOk: bool, lag: nat,
          lags: seq<nat>, o: Options)
    requires Platform(env, s, operator)
    requires o.teamName == TeamName(s) && o.layer1Groups == Layer1Groups(s)
    requires o.conditionalNetwork == ("vlan" in Variants(s)) && o.emailNotify == ("email" in Variants(s))
    ensures CanDrive(env, o, callbackOk, lag, lags, operator, scenario)
       <==> GetsThrough(env, s, operator, scenario, callbackOk, lag, lags)
  {
    hide Variants, Emails, SlotGroups, MayAct, SlotsResolve;
    MayActExactly(env, s, operator);
    RequesterMay(env, operator);
    hide Authorised, Layer1Groups;
  }

  lemma RequesterMay(env: Env, operator: User)
    requires env.resolve(CreatedBy) == Some({operator})
    ensures Authorised(env, [CreatedBy], operator)
  {
    assert CreatedBy in [CreatedBy];
  }

  lemma MayActExactly(env: Env, s: Settings, operator: User)
    requires SlotsResolve(env, Emails(s, operator))
    ensures Authorised(env, Layer1Groups(s), operator) <==> MayAct(env, s, operator)
  {
    ApproversExact(env, EnvOr(s.approverEmails, operator), TeamGroup(TeamName(s)), operator);
    hide Variants, ParseApprovers, SlotGroups, SlotsResolve, Live, Member;
  }
}
