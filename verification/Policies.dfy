// From the rows a plan is built from to the plan (internal/engine/plan.go): which
// policy decides it, whom its steps call, when it is built at all, and who it says was
// on duty - in the rows' own terms.

module Policies {
  import opened Order
  import opened Roster
  import opened Plan
  import opened PlanLaws
  import opened Building

  // ---- whom a policy calls, step by step -----------------------------------------------

  // Step i calls for the message id: to the channel or the person it names, or to
  // somebody on duty on the schedule it names.
  ghost predicate StepCalls(team: TeamOnCall, steps: seq<Option<Step>>, ws: seq<World>, i: nat, id: Identity)
    requires i < |steps| == |ws|
  {
    && steps[i].Some?
    && var step := steps[i].value;
       && id.slot == Policy(step.index) && id.provider == step.provider
       && (step.provider == "slack" || step.provider == "telegram" || step.provider == "phone")
       && if step.targetType == "schedule" then
            && id.target.kind.ToUser?
            && exists p :: p in PagedBy(team, steps, ws, step.targetID) && p.id == id.target.ref
          else
            && step.targetID != "" && id.target.ref == step.targetID
            && (if step.targetType == "channel" then id.target.kind.ToChannel? else id.target.kind.ToUser?)
  }

  ghost predicate Wants(items: seq<Item>, id: Identity) {
    exists k :: 0 <= k < |items| && items[k].Wanted? && items[k].aim.Id() == id
  }

  // Step i asks for the message id.
  ghost predicate StepWants(team: TeamOnCall, steps: seq<Option<Step>>, ws: seq<World>, i: nat, id: Identity)
    requires i < |steps| == |ws|
  {
    && steps[i].Some?
    && Asks(Survey(UNASKED, team, steps[..i], ws[..i]).0, team, steps[i].value, ws[i], id)
  }

  ghost predicate Asks(r: Resolver, team: TeamOnCall, step: Step, w: World, id: Identity) {
    && DeliversThrough(step.provider) && id.slot == Policy(step.index) && id.provider == step.provider
    && var to := Recipients(r, team, step, w).1;
       to.Some? && id.target in to.value
  }

  lemma WantsOfConcat(a: seq<Item>, b: seq<Item>, id: Identity)
    ensures Wants(a + b, id) <==> Wants(a, id) || Wants(b, id)
  {
    if k :| 0 <= k < |a| && a[k].Wanted? && a[k].aim.Id() == id { assert (a + b)[k] == a[k]; }
    if k :| 0 <= k < |b| && b[k].Wanted? && b[k].aim.Id() == id { assert (a + b)[|a| + k] == b[k]; }
  }

  lemma {:induction false} AimsWant(step: Step, offset: int, targets: seq<Target>, id: Identity)
    ensures Wants(Aims(step, offset, targets), id) <==>
              id.slot == Policy(step.index) && id.provider == step.provider && id.target in targets
  {
    AimsAre(step, offset, targets);
    if k :| 0 <= k < |targets| && Identity(Policy(step.index), step.provider, targets[k]) == id {
      assert Aims(step, offset, targets)[k].Wanted?;
    }
  }

  lemma {:induction false} ItemsWant(team: TeamOnCall, steps: seq<Option<Step>>, ws: seq<World>, id: Identity)
    requires |ws| == |steps| && Survey(UNASKED, team, steps, ws).1.Some?
    ensures Wants(Survey(UNASKED, team, steps, ws).1.value, id) <==>
              exists i :: 0 <= i < |steps| && StepWants(team, steps, ws, i, id)
  {
    if steps != [] {
      var n := |steps| - 1;
      ItemsWant(team, steps[..n], ws[..n], id);
      var (before, items) := Survey(UNASKED, team, steps[..n], ws[..n]);
      forall i | 0 <= i < n
        ensures StepWants(team, steps[..n], ws[..n], i, id) <==> StepWants(team, steps, ws, i, id)
      {
        assert steps[..n][..i] == steps[..i] && ws[..n][..i] == ws[..i];
      }
      if steps[n].Some? { StepItemsWant(before, team, steps[n].value, Delays(steps), ws[n], items.value, id); }
      assert Wants(Survey(UNASKED, team, steps, ws).1.value, id) <==>
        Wants(items.value, id) || StepWants(team, steps, ws, n, id);
    }
  }

  lemma {:induction false} StepItemsWant(r: Resolver, team: TeamOnCall, step: Step, offset: int, w: World,
                                         items: seq<Item>, id: Identity)
    requires StepItems(r, team, step, offset, w).1.Some?
    ensures Wants(items + StepItems(r, team, step, offset, w).1.value, id) <==>
              Wants(items, id) || Asks(r, team, step, w, id)
  {
    WantsOfConcat(items, StepItems(r, team, step, offset, w).1.value, id);
    if DeliversThrough(step.provider) { AimsWant(step, offset, Recipients(r, team, step, w).1.value, id); }
  }

  lemma {:induction false} StepWantsWhatItCalls(team: TeamOnCall, steps: seq<Option<Step>>, ws: seq<World>, i: nat,
                                                id: Identity)
    requires i < |steps| == |ws| && Survey(UNASKED, team, steps, ws).1.Some?
    ensures StepWants(team, steps, ws, i, id) <==> StepCalls(team, steps, ws, i, id)
  {
    if AsksSchedule(steps[i]) {
      var at := ScheduleWasAnswered(team, steps, ws, i);
      SurveyAsks(team, steps, ws);
      EveryoneIsOnOneMap(team, Questions(steps, ws), at);
      UsersAsTargets(PagedBy(team, steps, ws, steps[i].value.targetID), id.target);
    }
  }

  lemma UsersAsTargets(people: seq<User>, t: Target)
    ensures t in UserTargets(people) <==> t.kind.ToUser? && exists p :: p in people && p.id == t.ref
  {
    UsersAreUsers(people);
    if p :| p in people && p.id == t.ref && t.kind.ToUser? {
      var k :| 0 <= k < |people| && people[k] == p;
      assert UserTargets(people)[k] == t;
    }
  }

  ghost predicate Has(planned: seq<Planned>, id: Identity) {
    exists k :: 0 <= k < |planned| && planned[k].commitment.id == id
  }

  // A plan has a message of the policy, to a channel or a person, exactly when some
  // step of the policy calls for it.
  lemma {:induction false} PlanIsThePolicys(channel: string, team: TeamOnCall, steps: seq<Option<Step>>,
                                            ws: seq<World>, id: Identity)
    requires |ws| == |steps| && Survey(UNASKED, team, steps, ws).1.Some?
    requires id.slot.Policy? && !id.target.Satellite()
    ensures Has(Promised(channel, Survey(UNASKED, team, steps, ws).1.value), id) <==>
              exists i :: 0 <= i < |steps| && StepCalls(team, steps, ws, i, id)
  {
    var items := Survey(UNASKED, team, steps, ws).1.value;
    SurveyIsAimed(UNASKED, team, steps, ws);
    PlanHasTheWanted(channel, items, id);
    ItemsWant(team, steps, ws, id);
    forall i | 0 <= i < |steps| ensures StepWants(team, steps, ws, i, id) <==> StepCalls(team, steps, ws, i, id) {
      StepWantsWhatItCalls(team, steps, ws, i, id);
    }
  }

  lemma {:induction false} PlanHasTheWanted(channel: string, items: seq<Item>, id: Identity)
    requires Aimed(items) && id.slot.Policy? && !id.target.Satellite()
    ensures Has(Promised(channel, items), id) <==> Wants(items, id)
  {
    var planned := Promised(channel, items);
    if k :| 0 <= k < |planned| && planned[k].commitment.id == id {
      var c := EntryIsACard(channel, items, k);
      var at := c - (|AllCards(channel, items)| - |FirstCards(items)|);
      if at >= 0 { var j := RequestOf(items, at); }
    }
    if k :| 0 <= k < |items| && items[k].Wanted? && items[k].aim.Id() == id {
      EveryRecipientIsPromised(channel, items, k);
    }
  }

  // ---- the firehose ------------------------------------------------------------------------

  // Its card is the first message of a plan, when there is a channel for it, and of no
  // other plan.
  lemma {:induction false} FirehoseIsFirst(channel: string, items: seq<Item>, i: nat)
    requires Aimed(items)
    ensures channel != "" ==>
              Promised(channel, items) != [] && IsTheFirehose(Promised(channel, items)[0], channel)
    ensures channel == "" && i < |Promised(channel, items)| ==>
              Promised(channel, items)[i].commitment.id.slot.Policy?
  {
    if channel == "" && i < |Promised(channel, items)| { NoFirehose(items, i); }
  }

  lemma {:induction false} NoFirehose(items: seq<Item>, i: nat)
    requires Aimed(items) && i < |Promised("", items)|
    ensures Promised("", items)[i].commitment.id.slot.Policy?
  {
    var planned := Promised("", items);
    SatelliteFollowsItsCard("", items, i);
    var card := i;
    if planned[i].commitment.id.target.Satellite() {
      card :| 0 <= card < i && i - 2 <= card && Threads(planned[card])
              && HangsUnder(planned[i], planned[card], card == i - 2);
    }
    NothingUnaskedIsPromised("", items, card);
  }

  // ---- which policy decides ----------------------------------------------------------------

  // planned has these steps' messages and no others of a policy, and the firehose of
  // this channel if there is one.
  ghost predicate IsPlanOf(planned: seq<Planned>, channel: string, team: TeamOnCall, steps: seq<Option<Step>>,
                           ws: seq<World>)
    requires |ws| == |steps|
  {
    && (forall id: Identity :: id.slot.Policy? && !id.target.Satellite() ==>
          (Has(planned, id) <==> exists i :: 0 <= i < |steps| && StepCalls(team, steps, ws, i, id)))
    && (if channel != "" then planned != [] && IsTheFirehose(planned[0], channel)
        else forall i :: 0 <= i < |planned| ==> planned[i].commitment.id.slot.Policy?)
  }

  lemma {:induction false} PromisedIsPlanOf(channel: string, team: TeamOnCall, steps: seq<Option<Step>>, ws: seq<World>)
    requires |ws| == |steps| && Survey(UNASKED, team, steps, ws).1.Some?
    ensures IsPlanOf(Promised(channel, Survey(UNASKED, team, steps, ws).1.value), channel, team, steps, ws)
  {
    var items := Survey(UNASKED, team, steps, ws).1.value;
    var planned := Promised(channel, items);
    SurveyIsAimed(UNASKED, team, steps, ws);
    forall id: Identity | id.slot.Policy? && !id.target.Satellite()
      ensures Has(planned, id) <==> exists i :: 0 <= i < |steps| && StepCalls(team, steps, ws, i, id)
    {
      PlanIsThePolicys(channel, team, steps, ws, id);
    }
    FirehoseIsFirst(channel, items, 0);
    forall i | 0 <= i < |planned| && channel == "" ensures planned[i].commitment.id.slot.Policy? {
      FirehoseIsFirst(channel, items, i);
    }
  }

  // The channel configured for a severity; a word that is none of the three has none.
  ghost predicate IsChannelFor(channel: string, severity: string, channels: Channels) {
    && (severity == "critical" ==> channel == channels.critical)
    && (severity == "warning" ==> channel == channels.warning)
    && (severity == "info" ==> channel == channels.info)
    && (severity != "critical" && severity != "warning" && severity != "info" ==> channel == "")
  }

  // The id a team's row escalates a severity by: the severity's own, or the default.
  ghost predicate IsRouteFor(id: string, severity: string, row: TeamRow) {
    && row.TeamFound?
    && (severity in row.routes && row.routes[severity] != "" ==> id == row.routes[severity])
    && (severity !in row.routes || row.routes[severity] == "" ==> id == row.defaultPolicy)
  }

  // A plan that is built is the plan of the policy its team's row names for the
  // severity, found under that id, and is recorded as that policy's. With no team named
  // or found, no id named, or no policy under it, it is the firehose alone, by no
  // policy. The firehose is the severity's own. Buttons are offered unless the alert
  // names a team nobody set up.
  lemma {:induction false} ThePolicyDecides(alert: Alert, channels: Channels, facts: Facts, channel: string, id: string)
    requires Decision(alert, channels, facts).Batch? && IsChannelFor(channel, alert.severity, channels)
    requires facts.teams(alert.teamID).TeamFound? ==> IsRouteFor(id, alert.severity, facts.teams(alert.teamID))
    ensures var (b, row) := (Decision(alert, channels, facts), facts.teams(alert.teamID));
            && (if alert.teamID != "" && row.TeamFound? && id != "" && facts.policies(id).PolicyFound? then
                  var steps := facts.policies(id).steps;
                  && b.policyID == id && PolicySteps(alert, facts) == steps
                  && IsPlanOf(b.planned, channel, facts.onCall, steps, Worlds(facts, |steps|))
                else
                  && b.policyID == "" && PolicySteps(alert, facts) == []
                  && IsPlanOf(b.planned, channel, facts.onCall, [], []))
            && (b.onboarded <==> alert.teamID == "" || row.TeamFound?)
  {
    var steps := PolicySteps(alert, facts);
    ChannelsAgree(alert.severity, channels, channel);
    RoutesAgree(alert, facts, id);
    assert Worlds(facts, |steps|) == [] || steps != [];
    PromisedIsPlanOf(channel, facts.onCall, steps, Worlds(facts, |steps|));
  }

  lemma ChannelsAgree(severity: string, channels: Channels, channel: string)
    requires IsChannelFor(channel, severity, channels)
    ensures FirehoseChannel(channels, severity) == channel
  {
  }

  lemma RoutesAgree(alert: Alert, facts: Facts, id: string)
    requires facts.teams(alert.teamID).TeamFound? ==> IsRouteFor(id, alert.severity, facts.teams(alert.teamID))
    ensures var team := TeamFor(alert.teamID, facts.teams(alert.teamID));
            team.Some? ==>
              Route(team.value, alert.severity) ==
              if alert.teamID != "" && facts.teams(alert.teamID).TeamFound? then id else ""
  {
  }

  // ---- what each message says --------------------------------------------------------------

  // A message of the policy says what one of its steps says, in its words and manner,
  // and is due the sum of the delays up to that step.
  lemma {:induction false} EachMessageIsItsSteps(channel: string, team: TeamOnCall, steps: seq<Option<Step>>,
                                                 ws: seq<World>, k: nat)
    requires |ws| == |steps| && Survey(UNASKED, team, steps, ws).1.Some?
    requires var planned := Promised(channel, Survey(UNASKED, team, steps, ws).1.value);
             k < |planned| && planned[k].commitment.id.slot.Policy? && !planned[k].commitment.id.target.Satellite()
    ensures var p := Promised(channel, Survey(UNASKED, team, steps, ws).1.value)[k];
            exists i :: 0 <= i < |steps| && steps[i].Some? && SaysWhatTheStepSays(p.commitment, steps[i].value)
              && p.shape == steps[i].value.shape && p.commitment.offset == Delays(steps[..i + 1])
  {
    var items := Survey(UNASKED, team, steps, ws).1.value;
    SurveyIsAimed(UNASKED, team, steps, ws);
    NothingUnaskedIsPromised(channel, items, k);
    var p := Promised(channel, items)[k];
    var j :| 0 <= j < |items| && First(items, j) && p.commitment.id.target == items[j].aim.target
             && p.commitment.offset == items[j].aim.offset && SaysWhatTheStepSays(p.commitment, items[j].aim.step)
             && p.shape == items[j].aim.step.shape;
    var i := DueAfterTheDelays(UNASKED, team, steps, ws, j);
  }

  // So in a plan that is built; and every satellite stands behind its card. What the
  // group records of its policy is the plan's messages but for the satellites; and they,
  // less the firehose, with what it notes as not promised, are as many as the policy's
  // requests.
  lemma {:induction false} MessagesOfABuiltPlan(alert: Alert, channels: Channels, facts: Facts, k: nat, p: Planned)
    requires Decision(alert, channels, facts).Batch? && k < |Decision(alert, channels, facts).planned|
    ensures var (b, steps) := (Decision(alert, channels, facts), PolicySteps(alert, facts));
            var items := Survey(UNASKED, facts.onCall, steps, Worlds(facts, |steps|)).1;
            var (c, shape) := (b.planned[k].commitment, b.planned[k].shape);
            && (c.id.slot.Policy? && !c.id.target.Satellite() ==>
                  exists i :: 0 <= i < |steps| && steps[i].Some? && SaysWhatTheStepSays(c, steps[i].value)
                    && shape == steps[i].value.shape && c.offset == Delays(steps[..i + 1]))
            && StandsWithItsCard(b.planned, k)
            && (p in b.rows <==> p in b.planned && !p.commitment.id.target.Satellite())
            && items.Some? && b.unpromised == Notes(items.value)
            && |b.rows| + |b.unpromised| ==
               |items.value| + if FirehoseChannel(channels, alert.severity) == "" then 0 else 1
  {
    var (b, steps) := (Decision(alert, channels, facts), PolicySteps(alert, facts));
    var (team, ws) := (facts.onCall, Worlds(facts, |steps|));
    var items := Survey(UNASKED, team, steps, ws).1.value;
    var channel := FirehoseChannel(channels, alert.severity);
    SurveyIsAimed(UNASKED, team, steps, ws);
    if b.planned[k].commitment.id.slot.Policy? && !b.planned[k].commitment.id.target.Satellite() {
      EachMessageIsItsSteps(channel, team, steps, ws, k);
    }
    SatelliteFollowsItsCard(channel, items, k);
    RowsAre(b.planned, p);
    RecordIsTheCards(channel, items);
    NothingIsLost(items);
  }

  lemma {:induction false} RowsAre(planned: seq<Planned>, p: Planned)
    ensures p in Rows(planned) <==> p in planned && !p.commitment.id.target.Satellite()
  {
    if planned != [] {
      RowsAre(planned[1..], p);
      assert planned == [planned[0]] + planned[1..];
    }
  }

  // ---- when there is a plan at all -----------------------------------------------------------

  // Every question the policy asks of a schedule is answered.
  ghost predicate AllAnswered(team: TeamOnCall, steps: seq<Option<Step>>, ws: seq<World>)
    requires |ws| == |steps|
  {
    forall k :: 0 <= k < |Questions(steps, ws)| ==> Resolved(team, Questions(steps, ws), k).Users?
  }

  lemma ResolvedInPrefix(team: TeamOnCall, asked: seq<Question>, q: Question)
    ensures forall k :: 0 <= k < |asked| ==> Resolved(team, asked + [q], k) == Resolved(team, asked, k)
    ensures Resolved(team, asked + [q], |asked|) == Ask(ResolverAfter(team, asked), team, q.fallback, q.w).1
  {
    var more := asked + [q];
    assert more[..|asked|] == asked;
    forall k | 0 <= k < |asked| ensures Resolved(team, more, k) == Resolved(team, asked, k) {
      assert more[..k] == asked[..k];
    }
  }

  lemma {:induction false} SurveySucceedsIff(team: TeamOnCall, steps: seq<Option<Step>>, ws: seq<World>)
    requires |ws| == |steps|
    ensures Survey(UNASKED, team, steps, ws).1.Some? <==> AllAnswered(team, steps, ws)
  {
    if steps != [] {
      var n := |steps| - 1;
      SurveySucceedsIff(team, steps[..n], ws[..n]);
      var before := Questions(steps[..n], ws[..n]);
      if AsksSchedule(steps[n]) {
        ResolvedInPrefix(team, before, Question(steps[n].value.targetID, ws[n]));
        var asked := before + [Question(steps[n].value.targetID, ws[n])];
        assert Questions(steps, ws) == asked;
        if Survey(UNASKED, team, steps[..n], ws[..n]).1.Some? { SurveyAsks(team, steps[..n], ws[..n]); }
        assert AllAnswered(team, steps, ws) <==>
          AllAnswered(team, steps[..n], ws[..n]) && Resolved(team, asked, |before|).Users?;
      } else {
        assert Questions(steps, ws) == before;
      }
    }
  }

  // Every first request can be named by the grammar.
  ghost predicate AsksSoundly(team: TeamOnCall, steps: seq<Option<Step>>, ws: seq<World>)
    requires |ws| == |steps|
  {
    Survey(UNASKED, team, steps, ws).1.Some? ==> AllSound(Survey(UNASKED, team, steps, ws).1.value)
  }

  ghost predicate ReadsDecide(alert: Alert, facts: Facts, id: string) {
    var row := facts.teams(alert.teamID);
    alert.teamID != "" ==> !row.TeamDown? && (row.TeamFound? && id != "" ==> !facts.policies(id).PolicyDown?)
  }

  // A group waits exactly while its team or its policy cannot be read or, its state
  // once frozen, some question about a schedule goes unanswered. It is refused exactly
  // when those reads decide and its state cannot be frozen, or everything is answered
  // and some first request cannot be named.
  lemma {:induction false} WhenAPlanIsBuilt(alert: Alert, channels: Channels, facts: Facts, id: string)
    requires facts.teams(alert.teamID).TeamFound? ==> IsRouteFor(id, alert.severity, facts.teams(alert.teamID))
    ensures var steps := PolicySteps(alert, facts);
            var (team, ws) := (facts.onCall, Worlds(facts, |steps|));
            var b := Decision(alert, channels, facts);
            && (b.Deferred? <==> !ReadsDecide(alert, facts, id) || (facts.freezes && !AllAnswered(team, steps, ws)))
            && (b.Refused? <==>
                  && ReadsDecide(alert, facts, id)
                  && (!facts.freezes || (AllAnswered(team, steps, ws) && !AsksSoundly(team, steps, ws))))
  {
    var steps := PolicySteps(alert, facts);
    var (team, ws) := (facts.onCall, Worlds(facts, |steps|));
    RoutesAgree(alert, facts, id);
    SurveySucceedsIff(team, steps, ws);
    if Survey(UNASKED, team, steps, ws).1.Some? {
      SurveyIsAimed(UNASKED, team, steps, ws);
      AdmissionAccepts(FirehoseChannel(channels, alert.severity), Survey(UNASKED, team, steps, ws).1.value);
    }
  }

  // Every message of a plan that is built can be named and timed: its step has an index,
  // it is due no earlier than the admission, it is for somebody, through a provider
  // something delivers through; and no two are the same message.
  lemma BuiltPlansCanBeNamed(alert: Alert, channels: Channels, facts: Facts, i: nat, j: nat)
    requires Decision(alert, channels, facts).Batch?
    requires i < |Decision(alert, channels, facts).planned| && j < |Decision(alert, channels, facts).planned|
    ensures var (c, d) := (Decision(alert, channels, facts).planned[i].commitment,
                           Decision(alert, channels, facts).planned[j].commitment);
            && (c.id.slot.Policy? ==> c.id.slot.index >= 0) && c.offset >= 0 && c.id.target.ref != ""
            && (c.id.provider == "slack" || c.id.provider == "telegram" || c.id.provider == "phone")
            && (i != j ==> c.id != d.id)
  {
    assert WellFormed(Decision(alert, channels, facts).planned[i].commitment);
    assert PassesTheGate(Decision(alert, channels, facts).planned[i].commitment);
  }

  // Whoever is on duty has an id.
  ghost predicate PeopleHaveIDs(team: TeamOnCall, steps: seq<Option<Step>>, ws: seq<World>)
    requires |ws| == |steps|
  {
    forall i, p ::
      0 <= i < |steps| && AsksSchedule(steps[i]) && p in PagedBy(team, steps, ws, steps[i].value.targetID) ==>
        p.id != ""
  }

  // So a policy whose steps have an index and wait no negative time is built as soon as
  // everything it needs can be read.
  lemma {:induction false} AnOrdinaryPolicyIsBuilt(alert: Alert, channels: Channels, facts: Facts, id: string)
    requires facts.teams(alert.teamID).TeamFound? ==> IsRouteFor(id, alert.severity, facts.teams(alert.teamID))
    requires ReadsDecide(alert, facts, id) && facts.freezes
    requires var steps := PolicySteps(alert, facts);
             && AllAnswered(facts.onCall, steps, Worlds(facts, |steps|))
             && PeopleHaveIDs(facts.onCall, steps, Worlds(facts, |steps|))
             && forall i :: 0 <= i < |steps| && steps[i].Some? ==>
                  steps[i].value.index >= 0 && steps[i].value.delay >= 0
    ensures Decision(alert, channels, facts).Batch?
  {
    var steps := PolicySteps(alert, facts);
    WhenAPlanIsBuilt(alert, channels, facts, id);
    SurveySucceedsIff(facts.onCall, steps, Worlds(facts, |steps|));
    OrdinaryStepsAskSoundly(facts.onCall, steps, Worlds(facts, |steps|));
  }

  lemma {:induction false} OrdinaryStepsAskSoundly(team: TeamOnCall, steps: seq<Option<Step>>, ws: seq<World>)
    requires |ws| == |steps| && Survey(UNASKED, team, steps, ws).1.Some? && PeopleHaveIDs(team, steps, ws)
    requires forall i :: 0 <= i < |steps| && steps[i].Some? ==> steps[i].value.index >= 0 && steps[i].value.delay >= 0
    ensures AllSound(Survey(UNASKED, team, steps, ws).1.value)
  {
    var items := Survey(UNASKED, team, steps, ws).1.value;
    forall k | 0 <= k < |items| && First(items, k) ensures Sound(items[k].aim) {
      var i := DueAfterTheDelays(UNASKED, team, steps, ws, k);
      DelaysGrow(steps[..i + 1]);
      ItemsWant(team, steps, ws, items[k].aim.Id());
      var j :| 0 <= j < |steps| && StepWants(team, steps, ws, j, items[k].aim.Id());
      StepWantsWhatItCalls(team, steps, ws, j, items[k].aim.Id());
    }
  }

  // ---- who is on duty on a schedule ------------------------------------------------------------

  // The people of a layer, if there is one, as a plan knows them.
  function OnLayer(known: Known, layer: Option<Layer>): seq<User> {
    if layer.Some? then Present(known, layer.value.ids) else []
  }

  // A step that asks a schedule calls the people of its first layer who have a row: of
  // the team's own schedule if it has one; else of the schedule the step names, as it
  // was when first asked about; and nobody when it names none or its data is damaged.
  lemma {:induction false} PeopleOfASchedule(team: TeamOnCall, steps: seq<Option<Step>>, ws: seq<World>, i: nat)
    requires i < |steps| == |ws| && AsksSchedule(steps[i]) && Survey(UNASKED, team, steps, ws).1.Some?
    requires forall j :: 0 <= j < i && AsksSchedule(steps[j]) ==> steps[j].value.targetID != steps[i].value.targetID
    ensures var people := PagedBy(team, steps, ws, steps[i].value.targetID);
            var known := Survey(UNASKED, team, steps, ws).0.known;
            && team.TeamRead?
            && (team.scheduleID != "" ==> people == OnLayer(known, team.onCall.l1))
            && (team.scheduleID == "" && steps[i].value.targetID == "" ==> people == [])
            && (team.scheduleID == "" && steps[i].value.targetID != "" ==>
                  && !ws[i].projection.Unavailable?
                  && (ws[i].projection.Damaged? ==> people == [])
                  && (ws[i].projection.Projected? ==> people == OnLayer(known, ws[i].projection.onCall.l1)))
  {
    var asked, id := Questions(steps, ws), steps[i].value.targetID;
    var at := ScheduleWasAnswered(team, steps, ws, i);
    QuestionsAvoid(steps[..i], ws[..i], id);
    var same := QuestionOf(steps, ws, i);
    FirstAskedIsFirst(asked, at);
    assert FirstAsked(asked, id) == at;
    if team.scheduleID == "" && id != "" { AnUnreadScheduleDefers(team, steps, ws, i); }
  }

  // ---- who the group says was on duty --------------------------------------------------------------

  // The row of somebody known already, or else as the table has it.
  function PersonBy(known: Known, table: Table, id: string): Option<User> {
    if id in known then known[id]
    else if table.Some? && id in table.value then Some(User(id, table.value[id])) else None
  }

  lemma {:induction false} PeopleAre(known: Known, ids: seq<string>, table: Table, u: User)
    requires People(known, ids, table).1.Some?
    ensures u in People(known, ids, table).1.value <==> exists id :: id in ids && PersonBy(known, table, id) == Some(u)
    ensures forall id :: id in known ==>
              id in People(known, ids, table).0 && People(known, ids, table).0[id] == known[id]
    ensures forall id :: id in People(known, ids, table).0 && id !in known ==>
              id in ids && table.Some? && People(known, ids, table).0[id] == PersonBy(known, table, id)
    ensures forall id :: id in ids ==> id in People(known, ids, table).0
    ensures |People(known, ids, table).1.value| <= |ids|
  {
    var after := People(known, ids, table).0;
    PeopleGrow(known, ids, table);
    MissingIsUnknown(known, ids);
    PresentAre(after, ids, u);
    forall id | id in ids ensures id in after && after[id] == PersonBy(known, table, id) {
      if id !in known { PeopleLearn(known, ids, table, id); }
    }
    forall id | id in after && id !in known
      ensures id in ids && table.Some? && after[id] == PersonBy(known, table, id)
    {
      PeopleLearn(known, ids, table, id);
    }
  }

  // What a built plan records of the team's duty: nothing, exactly when the team could
  // not be read or the people it names could not; else who is on the first layer - all
  // of them with a row - with its times and where it came from, and the first of the
  // second layer.
  lemma {:induction false} DutyIsTheTeams(alert: Alert, channels: Channels, facts: Facts, u: User)
    requires Decision(alert, channels, facts).Batch?
    ensures var steps := PolicySteps(alert, facts);
            DutySays(Decision(alert, channels, facts).duty, facts.onCall, facts.firstTable, facts.secondTable,
                     Survey(UNASKED, facts.onCall, steps, Worlds(facts, |steps|)).0.known, u)
  {
    var steps := PolicySteps(alert, facts);
    DutyOfTheTeam(Survey(UNASKED, facts.onCall, steps, Worlds(facts, |steps|)).0.known, facts.onCall,
                  facts.firstTable, facts.secondTable, u);
  }

  lemma {:induction false} DutyOfTheTeam(known: Known, team: TeamOnCall, t1: Table, t2: Table, u: User)
    ensures DutySays(DutyOf(known, team, t1, t2).1, team, t1, t2, known, u)
  {
    if team.TeamRead? {
      var (l1, l2) := (team.onCall.l1, team.onCall.l2);
      if l1.Some? { Readable(known, l1.value.ids, t1); }
      if FirstRead(team, t1, known) {
        if l1.Some? { PeopleAre(known, l1.value.ids, t1, u); }
        var known1 := if l1.Some? then People(known, l1.value.ids, t1).0 else known;
        if l2.Some? && l2.value.ids != [] { SecondLayer(known, known1, team, t1, t2, l2.value.ids[0], u); }
      }
    }
  }

  lemma {:induction false} SecondLayer(known: Known, known1: Known, team: TeamOnCall, t1: Table, t2: Table, id: string,
                                       u: User)
    requires team.TeamRead? && FirstRead(team, t1, known) && team.onCall.l2.Some? && team.onCall.l2.value.ids != []
    requires id == team.onCall.l2.value.ids[0]
    requires known1 == if team.onCall.l1.Some? then People(known, team.onCall.l1.value.ids, t1).0 else known
    ensures var second := People(known1, team.onCall.l2.value.ids[..1], t2).1;
            && (second.Some? <==> SecondRead(team, t1, t2, known))
            && (second.Some? ==>
                  && (second.value == [] ==> SecondIs(team, t1, t2, known, id) != Some(u))
                  && (second.value != [] ==> (second.value[0] == u <==> SecondIs(team, t1, t2, known, id) == Some(u))))
  {
    var l1 := team.onCall.l1;
    var ids := team.onCall.l2.value.ids[..1];
    assert ids == [id];
    if l1.Some? {
      Readable(known, l1.value.ids, t1);
      PeopleAre(known, l1.value.ids, t1, u);
    }
    assert id in known1 <==> id in known || (l1.Some? && id in l1.value.ids);
    Readable(known1, ids, t2);
    if t2.Some? || id in known1 {
      PeopleAre(known1, ids, t2, u);
      assert PersonBy(known1, t2, id) == SecondIs(team, t1, t2, known, id);
      var second := People(known1, ids, t2).1.value;
      assert |second| <= 1;
      assert u in second <==> PersonBy(known1, t2, id) == Some(u);
      assert second != [] ==> (second[0] == u <==> u in second);
    }
  }

  ghost predicate FirstRead(team: TeamOnCall, t1: Table, known: Known) {
    team.TeamRead? && CanBeNamed(known, team.onCall.l1, t1)
  }

  // The first of the second layer was known, or was just read for the first layer, or
  // can be read.
  ghost predicate SecondRead(team: TeamOnCall, t1: Table, t2: Table, known: Known)
    requires team.TeamRead?
  {
    var (l1, l2) := (team.onCall.l1, team.onCall.l2);
    l2.None? || l2.value.ids == [] || t2.Some? || l2.value.ids[0] in known
    || (l1.Some? && l2.value.ids[0] in l1.value.ids)
  }

  ghost predicate DutySays(duty: Duty, team: TeamOnCall, t1: Table, t2: Table, known: Known, u: User) {
    && (duty.Recorded? <==> FirstRead(team, t1, known) && SecondRead(team, t1, t2, known))
    && (duty.Recorded? ==>
          var (l1, l2) := (team.onCall.l1, team.onCall.l2);
          && (duty.l1.Some? <==> l1.Some?)
          && (l1.Some? ==>
                && duty.l1.value.since == l1.value.since && duty.l1.value.until == l1.value.until
                && duty.l1.value.source == l1.value.source
                && (u in duty.l1.value.users <==>
                      exists id :: id in l1.value.ids && PersonBy(known, t1, id) == Some(u)))
          && (duty.l2 == Some(u) <==>
                l2.Some? && l2.value.ids != [] && SecondIs(team, t1, t2, known, l2.value.ids[0]) == Some(u)))
  }

  function SecondIs(team: TeamOnCall, t1: Table, t2: Table, known: Known, id: string): Option<User>
    requires team.TeamRead?
  {
    if id !in known && team.onCall.l1.Some? && id in team.onCall.l1.value.ids then PersonBy(known, t1, id)
    else PersonBy(known, t2, id)
  }
}
