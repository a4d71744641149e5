// Deciding what one alert group promises, and one tick of the engine over the
// groups that wait for it (internal/engine/plan.go, internal/engine/engine.go).

module Building {
  import opened Order
  import opened Roster
  import opened Plan
  import opened PlanLaws

  // ---- the reads a plan is built from -------------------------------------------------

  // A row that is not there is a fact about the product; a read that could not run
  // is a fact about the database.
  datatype TeamRow = TeamMissing | TeamDown | TeamFound(routes: map<string, string>, defaultPolicy: string)
  datatype PolicyRow = PolicyMissing | PolicyDown | PolicyFound(name: string, steps: seq<Option<Step>>)

  datatype AlertTeam = NoTeamNamed | TeamAbsent | TeamSetUp(routes: map<string, string>, defaultPolicy: string)

  datatype Alert = Alert(id: string, teamID: string, severity: string)

  datatype Channels = Channels(critical: string, warning: string, info: string)

  // Everything the store and the projection would answer while one plan is built: of
  // any team, of any policy, at any step - worlds(i) is the world at step i. The two
  // last tables are for the snapshot.
  datatype Facts = Facts(
    teams: string -> TeamRow, policies: string -> PolicyRow, freezes: bool, onCall: TeamOnCall,
    worlds: nat -> World, firstTable: Table, secondTable: Table)

  // None is a deferral.
  function TeamFor(teamID: string, row: TeamRow): Option<AlertTeam> {
    if teamID == "" then Some(NoTeamNamed)
    else match row
      case TeamMissing => Some(TeamAbsent)
      case TeamDown => None
      case TeamFound(routes, defaultPolicy) => Some(TeamSetUp(routes, defaultPolicy))
  }

  function Route(team: AlertTeam, severity: string): string {
    if !team.TeamSetUp? then ""
    else if severity in team.routes && team.routes[severity] != "" then team.routes[severity]
    else team.defaultPolicy
  }

  predicate Onboarded(team: AlertTeam) { !team.TeamAbsent? }

  // None is a deferral; Some(None) is an escalation by no policy.
  function PolicyFor(policyID: string, row: PolicyRow): Option<Option<PolicyRow>> {
    if policyID == "" then Some(None)
    else match row
      case PolicyMissing => Some(None)
      case PolicyDown => None
      case PolicyFound(_, _) => Some(Some(row))
  }

  function FirehoseChannel(channels: Channels, severity: string): string {
    match severity
    case "critical" => channels.critical
    case "warning" => channels.warning
    case "info" => channels.info
    case _ => ""
  }

  // ---- who the group says was on duty ---------------------------------------------------

  datatype DutyRow = DutyRow(users: seq<User>, since: int, until: int, source: string)

  datatype Duty = NotRecorded | Recorded(l1: Option<DutyRow>, l2: Option<User>)

  function DutyOf(known: Known, team: TeamOnCall, t1: Table, t2: Table): (Known, Duty) {
    if team.Unreadable? then (known, NotRecorded)
    else
      var l1, l2 := team.onCall.l1, team.onCall.l2;
      var (known1, first) := if l1.Some? then People(known, l1.value.ids, t1) else (known, Some([]));
      if first.None? then (known1, NotRecorded)
      else
        var row :=
          if l1.Some? then Some(DutyRow(first.value, l1.value.since, l1.value.until, l1.value.source)) else None;
        if l2.None? || l2.value.ids == [] then (known1, Recorded(row, None))
        else
          var (known2, second) := People(known1, l2.value.ids[..1], t2);
          if second.None? then (known2, NotRecorded)
          else (known2, Recorded(row, if second.value == [] then None else Some(second.value[0])))
  }

  method OnCallSnapshot(people: RosterTable, team: TeamOnCall, t1: Table, t2: Table) returns (duty: Duty)
    modifies people
    ensures (people.known, duty) == DutyOf(old(people.known), team, t1, t2)
  {
    if team.Unreadable? {
      return NotRecorded;
    }
    var l1, l2 := team.onCall.l1, team.onCall.l2;
    var row := None;
    if l1.Some? {
      var ok, users := people.PeopleOf(l1.value.ids, t1);
      if !ok {
        return NotRecorded;
      }
      row := Some(DutyRow(users, l1.value.since, l1.value.until, l1.value.source));
    }
    var stand := None;
    if l2.Some? && |l2.value.ids| > 0 {
      var ok, users := people.PeopleOf(l2.value.ids[..1], t2);
      if !ok {
        return NotRecorded;
      }
      if |users| > 0 {
        stand := Some(users[0]);
      }
    }
    return Recorded(row, stand);
  }

  // ---- the plan -----------------------------------------------------------------------------

  // Deferred: the recipients could not be established. Refused: the state cannot be
  // frozen, or the grammar does not take the plan. Neither submits anything.
  datatype Built =
    | Deferred
    | Refused
    | Batch(policyID: string, onboarded: bool, planned: seq<Planned>, rows: seq<Planned>, unpromised: seq<Unpromised>,
            duty: Duty)

  function StepsOf(policy: Option<PolicyRow>): seq<Option<Step>> {
    if policy.Some? && policy.value.PolicyFound? then policy.value.steps else []
  }

  function Worlds(facts: Facts, n: nat): (ws: seq<World>)
    ensures |ws| == n
  {
    seq(n, facts.worlds)
  }

  // The steps of the policy an alert is routed to, as far as they can be read.
  function PolicySteps(alert: Alert, facts: Facts): seq<Option<Step>> {
    var team := TeamFor(alert.teamID, facts.teams(alert.teamID));
    if team.None? then []
    else
      var routed := Route(team.value, alert.severity);
      var policy := PolicyFor(routed, facts.policies(routed));
      if policy.None? then [] else StepsOf(policy.value)
  }

  ghost function Decision(alert: Alert, channels: Channels, facts: Facts): Built {
    var team := TeamFor(alert.teamID, facts.teams(alert.teamID));
    if team.None? then Deferred
    else
      var routed := Route(team.value, alert.severity);
      var policy := PolicyFor(routed, facts.policies(routed));
      if policy.None? then Deferred
      else if !facts.freezes then Refused
      else
        var steps := StepsOf(policy.value);
        var (after, items) := Survey(UNASKED, facts.onCall, steps, Worlds(facts, |steps|));
        if items.None? then Deferred
        else
          Settled(if policy.value.Some? then routed else "", Onboarded(team.value),
                  Promised(FirehoseChannel(channels, alert.severity), items.value), Notes(items.value),
                  after.known, facts)
  }

  // The plan is made; what is left is the admission's own check and the record.
  ghost function Settled(policyID: string, onboarded: bool, planned: seq<Planned>, unpromised: seq<Unpromised>,
                         known: Known, facts: Facts): Built {
    if !Admissible(planned) then Refused
    else Batch(policyID, onboarded, planned, Rows(planned), unpromised,
               DutyOf(known, facts.onCall, facts.firstTable, facts.secondTable).1)
  }

  method Settle(policyID: string, onboarded: bool, planned: seq<Planned>, unpromised: seq<Unpromised>,
                people: RosterTable, facts: Facts)
    returns (built: Built)
    modifies people
    ensures built == Settled(policyID, onboarded, planned, unpromised, old(people.known), facts)
  {
    if !Admissible(planned) {
      return Refused;
    }
    var rows := PolicyRows(planned);
    var duty := OnCallSnapshot(people, facts.onCall, facts.firstTable, facts.secondTable);
    return Batch(policyID, onboarded, planned, rows, unpromised, duty);
  }

  method BuildPlan(alert: Alert, channels: Channels, facts: Facts) returns (built: Built)
    ensures built == Decision(alert, channels, facts)
  {
    var team := TeamFor(alert.teamID, facts.teams(alert.teamID));
    if team.None? {
      return Deferred;
    }
    var policyID := Route(team.value, alert.severity);
    var policy := PolicyFor(policyID, facts.policies(policyID));
    if policy.None? {
      return Deferred;
    }
    if policy.value.None? {
      policyID := "";
    }
    if !facts.freezes {
      return Refused;
    }
    var steps := StepsOf(policy.value);
    var people := new RosterTable();
    var ok, planned, unpromised := Commitments(FirehoseChannel(channels, alert.severity), people, facts.onCall,
                                               if policy.value.Some? then Some(steps) else None,
                                               Worlds(facts, |steps|));
    if !ok {
      return Deferred;
    }
    NoPolicyNoSteps(FirehoseChannel(channels, alert.severity));
    built := Settle(policyID, Onboarded(team.value), planned, unpromised, people, facts);
  }

  lemma NoPolicyNoSteps(channel: string)
    ensures Promised(channel, []) == FirehosePart(channel)
  {
  }

  // ---- a failed read never narrows who is paged ------------------------------------------------

  predicate AsksSchedule(step: Option<Step>) {
    step.Some? && DeliversThrough(step.value.provider) && step.value.targetType == "schedule"
  }

  function Questions(steps: seq<Option<Step>>, ws: seq<World>): seq<Question>
    requires |ws| == |steps|
  {
    if steps == [] then []
    else
      var n := |steps| - 1;
      Questions(steps[..n], ws[..n]) + if AsksSchedule(steps[n]) then [Question(steps[n].value.targetID, ws[n])] else []
  }

  lemma {:induction false} SurveyAsks(team: TeamOnCall, steps: seq<Option<Step>>, ws: seq<World>)
    requires |ws| == |steps| && Survey(UNASKED, team, steps, ws).1.Some?
    ensures Survey(UNASKED, team, steps, ws).0 == ResolverAfter(team, Questions(steps, ws))
  {
    if steps != [] {
      var n := |steps| - 1;
      SurveyAsks(team, steps[..n], ws[..n]);
      var before := Questions(steps[..n], ws[..n]);
      if steps[n].Some? { StepResolver(ResolverAfter(team, before), team, steps[n].value, Delays(steps), ws[n]); }
      if AsksSchedule(steps[n]) {
        OneQuestionMore(team, before, Question(steps[n].value.targetID, ws[n]));
      } else {
        assert Questions(steps, ws) == before;
      }
    }
  }

  lemma OneQuestionMore(team: TeamOnCall, asked: seq<Question>, q: Question)
    ensures ResolverAfter(team, asked + [q]) == Ask(ResolverAfter(team, asked), team, q.fallback, q.w).0
  {
    assert (asked + [q])[..|asked|] == asked;
  }

  lemma StepResolver(r: Resolver, team: TeamOnCall, step: Step, offset: int, w: World)
    ensures StepItems(r, team, step, offset, w).0 ==
            if AsksSchedule(Some(step)) then Ask(r, team, step.targetID, w).0 else r
  {
  }

  lemma {:induction false} QuestionsGrow(steps: seq<Option<Step>>, ws: seq<World>, n: nat)
    requires n <= |steps| == |ws|
    ensures Questions(steps[..n], ws[..n]) <= Questions(steps, ws)
    decreases |steps| - n
  {
    if n == |steps| {
      assert steps[..n] == steps && ws[..n] == ws;
    } else {
      assert steps[..n + 1][..n] == steps[..n] && ws[..n + 1][..n] == ws[..n];
      QuestionsGrow(steps, ws, n + 1);
    }
  }

  lemma {:induction false} SurveyGrows(r: Resolver, team: TeamOnCall, steps: seq<Option<Step>>, ws: seq<World>, n: nat)
    requires n <= |steps| == |ws| && Survey(r, team, steps, ws).1.Some?
    ensures Survey(r, team, steps[..n], ws[..n]).1.Some?
    ensures Survey(r, team, steps[..n], ws[..n]).1.value <= Survey(r, team, steps, ws).1.value
    decreases |steps| - n
  {
    if n == |steps| {
      assert steps[..n] == steps && ws[..n] == ws;
    } else {
      SurveyGrows(r, team, steps, ws, n + 1);
      SurveyStep(r, team, steps, ws, n);
    }
  }

  // Where the requests of step i begin.
  ghost function From(team: TeamOnCall, steps: seq<Option<Step>>, ws: seq<World>, i: nat): nat
    requires i <= |steps| == |ws| && Survey(UNASKED, team, steps[..i], ws[..i]).1.Some?
  {
    |Survey(UNASKED, team, steps[..i], ws[..i]).1.value|
  }

  // The people a schedule step pages, by the one map the plan ends with.
  ghost function PagedBy(team: TeamOnCall, steps: seq<Option<Step>>, ws: seq<World>, scheduleID: string): seq<User>
    requires |ws| == |steps|
  {
    Present(Survey(UNASKED, team, steps, ws).0.known, AskedOf(team, Questions(steps, ws), scheduleID))
  }

  // Which of the questions asked step i is.
  lemma {:induction false} QuestionOf(steps: seq<Option<Step>>, ws: seq<World>, i: nat) returns (at: nat)
    requires i < |steps| == |ws| && AsksSchedule(steps[i])
    ensures at == |Questions(steps[..i], ws[..i])| < |Questions(steps, ws)|
    ensures Questions(steps, ws)[at] == Question(steps[i].value.targetID, ws[i])
    ensures Questions(steps, ws)[..at] == Questions(steps[..i], ws[..i])
  {
    QuestionsGrow(steps, ws, i);
    QuestionsGrow(steps, ws, i + 1);
    assert steps[..i + 1][..i] == steps[..i] && ws[..i + 1][..i] == ws[..i];
    at := |Questions(steps[..i], ws[..i])|;
  }

  // A schedule step of a built plan was answered, and the answer is what the step
  // asks for.
  lemma {:induction false} ScheduleWasAnswered(team: TeamOnCall, steps: seq<Option<Step>>, ws: seq<World>, i: nat)
    returns (at: nat)
    requires i < |steps| == |ws| && AsksSchedule(steps[i]) && Survey(UNASKED, team, steps, ws).1.Some?
    ensures at == |Questions(steps[..i], ws[..i])| < |Questions(steps, ws)|
    ensures Questions(steps, ws)[at] == Question(steps[i].value.targetID, ws[i])
    ensures !team.Unreadable? && Resolved(team, Questions(steps, ws), at).Users?
    ensures Survey(UNASKED, team, steps[..i], ws[..i]).1.Some?
    ensures Recipients(Survey(UNASKED, team, steps[..i], ws[..i]).0, team, steps[i].value, ws[i]).1
            == Some(UserTargets(Resolved(team, Questions(steps, ws), at).users))
  {
    SurveyGrows(UNASKED, team, steps, ws, i);
    SurveyGrows(UNASKED, team, steps, ws, i + 1);
    SurveyStep(UNASKED, team, steps, ws, i);
    SurveyAsks(team, steps[..i], ws[..i]);
    at := QuestionOf(steps, ws, i);
  }

  // In a plan that was built, each schedule step asked for everybody its schedule
  // named whom the store has, and nobody else; and the schedule was read.
  lemma {:induction false} SchedulePagesItsPeople(team: TeamOnCall, steps: seq<Option<Step>>, ws: seq<World>, i: nat)
    requires i < |steps| == |ws| && AsksSchedule(steps[i]) && Survey(UNASKED, team, steps, ws).1.Some?
    ensures !team.Unreadable?
    ensures Survey(UNASKED, team, steps[..i], ws[..i]).1.Some?
            && Survey(UNASKED, team, steps[..i + 1], ws[..i + 1]).1.Some?
    ensures From(team, steps, ws, i) <= From(team, steps, ws, i + 1) <= |Survey(UNASKED, team, steps, ws).1.value|
    ensures var step := steps[i].value;
            var people := PagedBy(team, steps, ws, step.targetID);
            Survey(UNASKED, team, steps, ws).1.value[From(team, steps, ws, i)..From(team, steps, ws, i + 1)] ==
              if people == [] then [Unable(step, NobodyOnCall)]
              else Aims(step, Delays(steps[..i + 1]), UserTargets(people))
  {
    SurveyGrows(UNASKED, team, steps, ws, i);
    SurveyGrows(UNASKED, team, steps, ws, i + 1);
    SurveyStep(UNASKED, team, steps, ws, i);
    SurveyAsks(team, steps, ws);
    var at := ScheduleWasAnswered(team, steps, ws, i);
    EveryoneIsOnOneMap(team, Questions(steps, ws), at);
    UsersAreUsers(PagedBy(team, steps, ws, steps[i].value.targetID));
    Slice(Survey(UNASKED, team, steps[..i], ws[..i]).1.value,
          Survey(UNASKED, team, steps[..i + 1], ws[..i + 1]).1.value,
          Survey(UNASKED, team, steps, ws).1.value);
  }

  lemma Slice<T>(a: seq<T>, b: seq<T>, c: seq<T>)
    requires a <= b <= c
    ensures |a| <= |b| <= |c| && c[|a|..|b|] == b[|a|..]
  {
  }

  // A plan exists only if every read that decides recipients succeeded or came
  // back with a fact, and the reads it made are the ones that decided it.
  lemma {:induction false} AFailedReadDefers(alert: Alert, channels: Channels, facts: Facts)
    requires Decision(alert, channels, facts).Batch?
    ensures alert.teamID != "" ==> !facts.teams(alert.teamID).TeamDown?
    ensures var team := TeamFor(alert.teamID, facts.teams(alert.teamID)).value;
            var routed := Route(team, alert.severity);
            && (routed != "" ==> !facts.policies(routed).PolicyDown?)
            && Onboarded(team) == (alert.teamID == "" || facts.teams(alert.teamID).TeamFound?)
    ensures (exists i :: 0 <= i < |PolicySteps(alert, facts)| && AsksSchedule(PolicySteps(alert, facts)[i])) ==>
              !facts.onCall.Unreadable?
  {
    var steps := PolicySteps(alert, facts);
    if i :| 0 <= i < |steps| && AsksSchedule(steps[i]) {
      SchedulePagesItsPeople(facts.onCall, steps, Worlds(facts, |steps|), i);
    }
  }

  // A schedule read by id decides a step only if it was read - or is damaged, and
  // then its step says that nobody is on call.
  lemma {:induction false} AnUnreadScheduleDefers(team: TeamOnCall, steps: seq<Option<Step>>, ws: seq<World>, i: nat)
    requires i < |steps| == |ws| && AsksSchedule(steps[i]) && Survey(UNASKED, team, steps, ws).1.Some?
    requires team.TeamRead? && team.scheduleID == "" && steps[i].value.targetID != ""
    requires forall j :: 0 <= j < i && AsksSchedule(steps[j]) ==> steps[j].value.targetID != steps[i].value.targetID
    ensures !ws[i].projection.Unavailable?
    ensures ws[i].projection.Projected? ==>
              var known := Survey(UNASKED, team, steps[..i], ws[..i]).0.known;
              Missing(known, DutyIDs(ws[i].projection.onCall)) == [] || ws[i].table.Some?
    ensures ws[i].projection.Damaged? ==> PagedBy(team, steps, ws, steps[i].value.targetID) == []
  {
    var asked, id := Questions(steps, ws), steps[i].value.targetID;
    var at := ScheduleWasAnswered(team, steps, ws, i);
    SurveyAsks(team, steps[..i], ws[..i]);
    QuestionsAvoid(steps[..i], ws[..i], id);
    var same := QuestionOf(steps, ws, i);
    NotYetAsked(team, asked, id, at);
    FirstAskedIsFirst(asked, at);
    assert FirstAsked(asked, id) == at;
  }

  lemma {:induction false} QuestionsAvoid(steps: seq<Option<Step>>, ws: seq<World>, id: string)
    requires |ws| == |steps|
    requires forall j :: 0 <= j < |steps| && AsksSchedule(steps[j]) ==> steps[j].value.targetID != id
    ensures forall k :: 0 <= k < |Questions(steps, ws)| ==> Questions(steps, ws)[k].fallback != id
  {
    if steps != [] { QuestionsAvoid(steps[..|steps| - 1], ws[..|ws| - 1], id); }
  }

  // ---- the people paged are the people the group shows -------------------------------------------

  // Once a step asked who is on duty for a team with a schedule, the snapshot's
  // first layer needs no read of its own: it names exactly the people paged, even
  // if the store is gone by then.
  lemma {:induction false} TheGroupShowsWhoIsPaged(team: TeamOnCall, steps: seq<Option<Step>>, ws: seq<World>, i: nat,
                                                   t1: Table, t2: Table)
    requires i < |steps| == |ws| && AsksSchedule(steps[i]) && Survey(UNASKED, team, steps, ws).1.Some?
    requires team.TeamRead? && team.scheduleID != "" && team.onCall.l1.Some?
    ensures var known := Survey(UNASKED, team, steps, ws).0.known;
            var paged := PagedBy(team, steps, ws, steps[i].value.targetID);
            && People(known, team.onCall.l1.value.ids, t1) == (known, Some(paged))
            && (DutyOf(known, team, t1, t2).1.Recorded? ==>
                  DutyOf(known, team, t1, t2).1.l1.Some? && DutyOf(known, team, t1, t2).1.l1.value.users == paged)
            && (DutyOf(known, team, t1, t2).1.NotRecorded? ==> t2.None?)
  {
    var known := Survey(UNASKED, team, steps, ws).0.known;
    TeamPeopleAreKnown(team, steps, ws, i);
    DutyOfKnownPeople(known, team, t1, t2);
  }

  lemma {:induction false} TeamPeopleAreKnown(team: TeamOnCall, steps: seq<Option<Step>>, ws: seq<World>, i: nat)
    requires i < |steps| == |ws| && AsksSchedule(steps[i]) && Survey(UNASKED, team, steps, ws).1.Some?
    requires team.TeamRead? && team.scheduleID != ""
    ensures forall id :: id in DutyIDs(team.onCall) ==> id in Survey(UNASKED, team, steps, ws).0.known
  {
    SurveyAsks(team, steps, ws);
    var at := ScheduleWasAnswered(team, steps, ws, i);
    EveryoneIsOnOneMap(team, Questions(steps, ws), at);
  }

  lemma DutyOfKnownPeople(known: Known, team: TeamOnCall, t1: Table, t2: Table)
    requires team.TeamRead? && team.onCall.l1.Some?
    requires forall id :: id in team.onCall.l1.value.ids ==> id in known
    ensures var paged := Present(known, team.onCall.l1.value.ids);
            && People(known, team.onCall.l1.value.ids, t1) == (known, Some(paged))
            && (DutyOf(known, team, t1, t2).1.Recorded? ==>
                  DutyOf(known, team, t1, t2).1.l1.Some? && DutyOf(known, team, t1, t2).1.l1.value.users == paged)
            && (DutyOf(known, team, t1, t2).1.NotRecorded? ==> t2.None?)
  {
    NothingMissing(known, team.onCall.l1.value.ids);
  }

  // ---- one tick of the engine -----------------------------------------------------------------------

  // What the admission door says to a submitted plan; Unanswered is a failed call.
  datatype Answer = Created | Existing | Conflict | RecipientErased | GroupNotAdmitted | SourceChanged | Unanswered

  datatype Submission = Submission(group: string, batch: Built)

  ghost function Submissions(groups: seq<Alert>, channels: Channels, facts: nat -> Facts): seq<Submission> {
    if groups == [] then []
    else
      var n := |groups| - 1;
      var built := Decision(groups[n], channels, facts(n));
      Submissions(groups[..n], channels, facts) + if built.Batch? then [Submission(groups[n].id, built)] else []
  }

  ghost function Deferrals(groups: seq<Alert>, channels: Channels, facts: nat -> Facts): seq<string> {
    if groups == [] then []
    else
      var n := |groups| - 1;
      Deferrals(groups[..n], channels, facts) +
        if Decision(groups[n], channels, facts(n)).Deferred? then [groups[n].id] else []
  }

  // The groups whose plan was submitted and had gone stale by then.
  ghost function Stale(groups: seq<Alert>, channels: Channels, facts: nat -> Facts, store: nat -> Answer): seq<string> {
    if groups == [] then []
    else
      var n := |groups| - 1;
      Stale(groups[..n], channels, facts, store) +
      if Decision(groups[n], channels, facts(n)).Batch? && store(n).SourceChanged? then [groups[n].id] else []
  }

  // What a tick over these groups submits and counts.
  ghost predicate Tallied(groups: seq<Alert>, channels: Channels, facts: nat -> Facts, store: nat -> Answer,
                          submitted: seq<Submission>, deferred: nat, deferredFirst: string, sourceChanged: nat) {
    && submitted == Submissions(groups, channels, facts)
    && deferred == |Deferrals(groups, channels, facts)|
    && deferredFirst == (if deferred == 0 then "" else Deferrals(groups, channels, facts)[0])
    && sourceChanged == |Stale(groups, channels, facts, store)|
  }

  lemma TallyOneMore(groups: seq<Alert>, i: nat, channels: Channels, facts: nat -> Facts, store: nat -> Answer,
                     submitted: seq<Submission>, deferred: nat, deferredFirst: string, sourceChanged: nat)
    requires i < |groups|
    requires Tallied(groups[..i], channels, facts, store, submitted, deferred, deferredFirst, sourceChanged)
    ensures var built := Decision(groups[i], channels, facts(i));
            Tallied(groups[..i + 1], channels, facts, store,
                    if built.Batch? then submitted + [Submission(groups[i].id, built)] else submitted,
                    if built.Deferred? then deferred + 1 else deferred,
                    if built.Deferred? && deferred == 0 then groups[i].id else deferredFirst,
                    if built.Batch? && store(i).SourceChanged? then sourceChanged + 1 else sourceChanged)
  {
    OneGroupMore(groups, i, channels, facts, store);
  }

  lemma OneGroupMore(groups: seq<Alert>, i: nat, channels: Channels, facts: nat -> Facts, store: nat -> Answer)
    requires i < |groups|
    ensures var built := Decision(groups[i], channels, facts(i));
            && Submissions(groups[..i + 1], channels, facts) ==
               Submissions(groups[..i], channels, facts) +
               (if built.Batch? then [Submission(groups[i].id, built)] else [])
            && Deferrals(groups[..i + 1], channels, facts) ==
               Deferrals(groups[..i], channels, facts) + (if built.Deferred? then [groups[i].id] else [])
            && Stale(groups[..i + 1], channels, facts, store) ==
               Stale(groups[..i], channels, facts, store) +
               (if built.Batch? && store(i).SourceChanged? then [groups[i].id] else [])
  {
    assert groups[..i + 1][..i] == groups[..i];
  }

  // picked is None when the waiting groups could not be read. A group that is
  // deferred, refused, or not taken by the store costs the groups after it nothing.
  method ProcessNewAlertGroups(picked: Option<seq<Alert>>, channels: Channels, facts: nat -> Facts,
                               store: nat -> Answer)
    returns (submitted: seq<Submission>, deferred: nat, deferredFirst: string, sourceChanged: nat)
    ensures Tallied(if picked.Some? then picked.value else [], channels, facts, store,
                    submitted, deferred, deferredFirst, sourceChanged)
  {
    submitted, deferred, deferredFirst, sourceChanged := [], 0, "", 0;
    if picked.None? {
      return;
    }
    var groups := picked.value;
    for i := 0 to |groups|
      invariant Tallied(groups[..i], channels, facts, store, submitted, deferred, deferredFirst, sourceChanged)
    {
      TallyOneMore(groups, i, channels, facts, store, submitted, deferred, deferredFirst, sourceChanged);
      var built := BuildPlan(groups[i], channels, facts(i));
      if built.Deferred? {
        if deferred == 0 {
          deferredFirst := groups[i].id;
        }
        deferred := deferred + 1;
        continue;
      }
      if built.Refused? {
        continue;
      }
      submitted := submitted + [Submission(groups[i].id, built)];
      var answer := store(i);
      if answer.Unanswered? {
        continue;
      }
      if answer.SourceChanged? {
        sourceChanged := sourceChanged + 1;
        continue;
      }
    }
    assert groups[..|groups|] == groups;
  }

  // The groups before n of which p holds.
  ghost function Those(n: nat, p: nat -> bool): (r: set<nat>) {
    set k: nat | k < n && p(k)
  }

  lemma ThoseOneMore(n: nat, p: nat -> bool)
    ensures |Those(n + 1, p)| == |Those(n, p)| + if p(n) then 1 else 0
  {
    assert Those(n + 1, p) == Those(n, p) + if p(n) then {n} else {};
  }

  ghost function IsBuilt(groups: seq<Alert>, channels: Channels, facts: nat -> Facts): nat -> bool {
    (k: nat) => k < |groups| && Decision(groups[k], channels, facts(k)).Batch?
  }

  ghost function IsDeferred(groups: seq<Alert>, channels: Channels, facts: nat -> Facts): nat -> bool {
    (k: nat) => k < |groups| && Decision(groups[k], channels, facts(k)).Deferred?
  }

  ghost function IsStale(groups: seq<Alert>, channels: Channels, facts: nat -> Facts,
                         store: nat -> Answer): nat -> bool {
    (k: nat) => k < |groups| && Decision(groups[k], channels, facts(k)).Batch? && store(k).SourceChanged?
  }

  lemma SameThose(n: nat, p: nat -> bool, q: nat -> bool)
    requires forall k: nat :: k < n ==> p(k) == q(k)
    ensures Those(n, p) == Those(n, q)
  {
  }

  // Each group is submitted or not by its own reads alone, after the built groups
  // before it and none other: what happened to the others is nowhere in it.
  lemma {:induction false} EachGroupForItself(groups: seq<Alert>, channels: Channels, facts: nat -> Facts, k: nat)
    requires k < |groups|
    ensures |Submissions(groups, channels, facts)| == |Those(|groups|, IsBuilt(groups, channels, facts))|
    ensures var (built, at) := (Decision(groups[k], channels, facts(k)), |Those(k, IsBuilt(groups, channels, facts))|);
            built.Batch? ==> At(Submissions(groups, channels, facts), at, Submission(groups[k].id, built))
  {
    SubmissionsAreCounted(groups, channels, facts);
    var (before, upTo) := (Submissions(groups[..k], channels, facts), Submissions(groups[..k + 1], channels, facts));
    SubmissionsAreCounted(groups[..k], channels, facts);
    SameThose(k, IsBuilt(groups, channels, facts), IsBuilt(groups[..k], channels, facts));
    SubmissionsGrow(groups, channels, facts, k + 1);
    assert groups[..k + 1][..k] == groups[..k] && groups[..k + 1][k] == groups[k];
    assert Decision(groups[k], channels, facts(k)).Batch? ==> At(upTo, |before|, upTo[|before|]);
  }

  lemma {:induction false} SubmissionsGrow(groups: seq<Alert>, channels: Channels, facts: nat -> Facts, n: nat)
    requires n <= |groups|
    ensures Submissions(groups[..n], channels, facts) <= Submissions(groups, channels, facts)
    decreases |groups| - n
  {
    if n == |groups| {
      assert groups[..n] == groups;
    } else {
      SubmissionsGrow(groups, channels, facts, n + 1);
      assert groups[..n + 1][..n] == groups[..n];
    }
  }

  predicate At<T(==)>(s: seq<T>, i: nat, x: T) { i < |s| && s[i] == x }

  lemma {:induction false} SubmissionsAreCounted(groups: seq<Alert>, channels: Channels, facts: nat -> Facts)
    ensures |Submissions(groups, channels, facts)| == |Those(|groups|, IsBuilt(groups, channels, facts))|
  {
    var p := IsBuilt(groups, channels, facts);
    if groups == [] {
      assert Those(0, p) == {};
    } else {
      var n := |groups| - 1;
      SubmissionsAreCounted(groups[..n], channels, facts);
      SameThose(n, p, IsBuilt(groups[..n], channels, facts));
      ThoseOneMore(n, p);
    }
  }

  // So is its deferral.
  lemma {:induction false} EachDeferralForItself(groups: seq<Alert>, channels: Channels, facts: nat -> Facts, k: nat)
    requires k < |groups|
    ensures |Deferrals(groups, channels, facts)| == |Those(|groups|, IsDeferred(groups, channels, facts))|
    ensures var at := |Those(k, IsDeferred(groups, channels, facts))|;
            Decision(groups[k], channels, facts(k)).Deferred? ==>
              && at < |Deferrals(groups, channels, facts)|
              && Deferrals(groups, channels, facts)[at] == groups[k].id
  {
    var n, p := |groups| - 1, IsDeferred(groups, channels, facts);
    var rest := groups[..n];
    SameThose(n, p, IsDeferred(rest, channels, facts));
    SameThose(if k < n then k else n, p, IsDeferred(rest, channels, facts));
    ThoseOneMore(n, p);
    if n == 0 {
      assert Those(0, p) == {};
    } else {
      EachDeferralForItself(rest, channels, facts, if k < n then k else 0);
    }
  }

  // A plan is counted as stale when it was built and the store says so.
  lemma {:induction false} StaleAre(groups: seq<Alert>, channels: Channels, facts: nat -> Facts, store: nat -> Answer)
    ensures |Stale(groups, channels, facts, store)| == |Those(|groups|, IsStale(groups, channels, facts, store))|
  {
    var p := IsStale(groups, channels, facts, store);
    if groups == [] {
      assert Those(0, p) == {};
    } else {
      var n := |groups| - 1;
      StaleAre(groups[..n], channels, facts, store);
      SameThose(n, p, IsStale(groups[..n], channels, facts, store));
      ThoseOneMore(n, p);
    }
  }

  // And nothing is submitted for a group whose plan was not built.
  lemma {:induction false} OnlyBuiltPlansAreSubmitted(groups: seq<Alert>, channels: Channels, facts: nat -> Facts,
                                                      i: nat) returns (k: nat)
    requires i < |Submissions(groups, channels, facts)|
    ensures k < |groups| && Decision(groups[k], channels, facts(k)).Batch?
    ensures Submissions(groups, channels, facts)[i] == Submission(groups[k].id, Decision(groups[k], channels, facts(k)))
  {
    var n := |groups| - 1;
    if i < |Submissions(groups[..n], channels, facts)| {
      k := OnlyBuiltPlansAreSubmitted(groups[..n], channels, facts, i);
    } else {
      k := n;
    }
  }
}
