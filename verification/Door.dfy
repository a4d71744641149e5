// The door an escalation is admitted through (internal/store/outbound_store.go,
// submitEscalation), and when a plan the engine built is taken by it.

module Door {
  import opened Order
  import opened Roster
  import opened Plan
  import opened PlanLaws
  import opened Building
  import opened Policies
  import Transition

  // What is offered: the claim it asks for, the version of the group it was planned
  // from, and the plan.
  datatype Offer = Offer(group: string, version: int, fingerprint: string, policyID: string, planned: seq<Planned>,
                         duty: Duty)

  datatype Row = Row(status: Transition.Status, version: int, policyID: string, duty: Duty)

  // A group's escalation is claimed under the group's own key.
  datatype Store = Store(groups: map<string, Row>, claims: map<string, Offer>)

  predicate Waiting(status: Transition.Status) { status == Transition.New || status == Transition.Processing }

  predicate Promises(planned: seq<Planned>, user: string) {
    exists i :: 0 <= i < |planned| && planned[i].commitment.id.target == Target(ToUser, user)
  }

  predicate PromisesErased(planned: seq<Planned>, erased: set<string>) {
    exists u :: u in erased && Promises(planned, u)
  }

  predicate AllPass(planned: seq<Planned>) {
    forall i :: 0 <= i < |planned| ==> PassesTheGate(planned[i].commitment)
  }

  // ---- the door ----------------------------------------------------------------------

  // What is claimed answers first; then the people; then the gate, the group's status
  // and its version.
  function Admitted(s: Store, erased: set<string>, o: Offer): (Store, Answer) {
    if o.group == "" || o.group !in s.groups then (s, Unanswered)
    else if o.group in s.claims then
      (s, if s.claims[o.group].fingerprint == o.fingerprint then Existing else Conflict)
    else if PromisesErased(o.planned, erased) then (s, RecipientErased)
    else if !AllPass(o.planned) then (s, Unanswered)
    else if !Waiting(s.groups[o.group].status) then (s, GroupNotAdmitted)
    else if s.groups[o.group].version != o.version then (s, SourceChanged)
    else (Store(s.groups[o.group := Escalated(s.groups[o.group], o)], s.claims[o.group := o]), Created)
  }

  // A snapshot that was not read does not blank the one that is there.
  function Escalated(row: Row, o: Offer): Row {
    Row(if row.status == Transition.New then Transition.Processing else row.status, row.version, o.policyID,
        if o.duty.NotRecorded? then row.duty else o.duty)
  }

  class Escalations {
    var groups: map<string, Row>
    var claims: map<string, Offer>

    constructor (groups: map<string, Row>)
      ensures State() == Store(groups, map[])
    {
      this.groups, this.claims := groups, map[];
    }

    function State(): Store
      reads this
    {
      Store(groups, claims)
    }

    // users says of each row whether it is erased. A recipient without a row is not
    // an erased one.
    method Submit(o: Offer, users: map<string, bool>) returns (answer: Answer)
      modifies this
      ensures (State(), answer) == Admitted(old(State()), ErasedIn(users), o)
    {
      if o.group == "" || o.group !in groups {
        return Unanswered;
      }
      if o.group in claims {
        return if claims[o.group].fingerprint == o.fingerprint then Existing else Conflict;
      }
      var erased := ErasedRecipients(o.planned, users);
      if |erased| > 0 {
        assert erased[0] in erased;
        return RecipientErased;
      }
      assert forall u :: u in ErasedIn(users) ==> u !in erased;
      var row := groups[o.group];
      if !AllPass(o.planned) {
        return Unanswered;
      }
      if row.status != Transition.New && row.status != Transition.Processing {
        return GroupNotAdmitted;
      }
      if o.version != row.version {
        return SourceChanged;
      }
      claims := claims[o.group := o];
      row := row.(policyID := o.policyID);
      if row.status == Transition.New {
        row := row.(status := Transition.Processing);
      }
      if o.duty.Recorded? {
        row := row.(duty := o.duty);
      }
      groups := groups[o.group := row];
      return Created;
    }
  }

  function ErasedIn(users: map<string, bool>): set<string> {
    set u | u in users && users[u]
  }

  // The people a plan promises a message, each once and in order, kept if erased.
  method ErasedRecipients(planned: seq<Planned>, users: map<string, bool>) returns (erased: seq<string>)
    ensures forall u :: u in erased <==> u in ErasedIn(users) && Promises(planned, u)
    ensures Sorted(BY_STRING, erased)
  {
    var people: seq<string> := [];
    for i := 0 to |planned|
      invariant forall u :: u in people <==> Promises(planned[..i], u)
    {
      var target := planned[i].commitment.id.target;
      forall u ensures Promises(planned[..i + 1], u) <==> Promises(planned[..i], u) || target == Target(ToUser, u) {
        OnePromiseMore(planned, i, u);
      }
      if !target.kind.ToUser? || target.ref in people {
        continue;
      }
      people := people + [target.ref];
    }
    assert planned[..|planned|] == planned;
    ByStringIsTotal();
    SortIsSortedPermutation(BY_STRING, people);
    forall u
      ensures u in Sort(BY_STRING, people) <==> u in people
    {
      assert u in multiset(people) <==> u in multiset(Sort(BY_STRING, people));
    }
    people := Sort(BY_STRING, people);
    erased := KeepErased(people, users);
  }

  method KeepErased(people: seq<string>, users: map<string, bool>) returns (erased: seq<string>)
    requires Sorted(BY_STRING, people)
    ensures forall u :: u in erased <==> u in ErasedIn(users) && u in people
    ensures Sorted(BY_STRING, erased)
  {
    erased := [];
    for i := 0 to |people|
      invariant forall u :: u in erased <==> u in ErasedIn(users) && u in people[..i]
      invariant Sorted(BY_STRING, erased)
    {
      assert people[..i + 1] == people[..i] + [people[i]];
      if people[i] in users && users[people[i]] {
        forall k | 0 <= k < |erased| ensures BY_STRING(erased[k], people[i]) {
          assert erased[k] in erased;
          var j :| 0 <= j < i && people[j] == erased[k];
        }
        erased := erased + [people[i]];
      }
    }
    assert people[..|people|] == people;
  }

  lemma OnePromiseMore(planned: seq<Planned>, i: nat, u: string)
    requires i < |planned|
    ensures Promises(planned[..i + 1], u) <==>
              Promises(planned[..i], u) || planned[i].commitment.id.target == Target(ToUser, u)
  {
    assert planned[..i + 1][i] == planned[i];
    forall k | 0 <= k < i ensures planned[..i + 1][k] == planned[..i][k] {}
  }

  // ---- whom a policy pages, step by step --------------------------------------------------

  // u is paged by step i: named by it, or on duty on the schedule it names.
  ghost predicate StepPages(team: TeamOnCall, steps: seq<Option<Step>>, ws: seq<World>, i: nat, u: string)
    requires i < |steps| == |ws|
  {
    && steps[i].Some?
    && var step := steps[i].value;
       StepCalls(team, steps, ws, i, Identity(Policy(step.index), step.provider, Target(ToUser, u)))
  }

  predicate NamesDirectly(step: Step, u: string) {
    DeliversThrough(step.provider) && step.targetType != "schedule" && step.targetType != "channel"
    && step.targetID == u && u != ""
  }

  lemma {:induction false} PromisedWhoIsPaged(channel: string, team: TeamOnCall, steps: seq<Option<Step>>,
                                              ws: seq<World>, u: string)
    requires |ws| == |steps| && Survey(UNASKED, team, steps, ws).1.Some?
    ensures Promises(Promised(channel, Survey(UNASKED, team, steps, ws).1.value), u) <==>
              exists i :: 0 <= i < |steps| && StepPages(team, steps, ws, i, u)
  {
    var items := Survey(UNASKED, team, steps, ws).1.value;
    var planned := Promised(channel, items);
    SurveyIsAimed(UNASKED, team, steps, ws);
    if k :| 0 <= k < |planned| && planned[k].commitment.id.target == Target(ToUser, u) {
      NothingUnaskedIsPromised(channel, items, k);
      PlanIsThePolicys(channel, team, steps, ws, planned[k].commitment.id);
      var i :| 0 <= i < |steps| && StepCalls(team, steps, ws, i, planned[k].commitment.id);
      assert StepPages(team, steps, ws, i, u);
    }
    if i :| 0 <= i < |steps| && StepPages(team, steps, ws, i, u) {
      var id := Identity(Policy(steps[i].value.index), steps[i].value.provider, Target(ToUser, u));
      PlanIsThePolicys(channel, team, steps, ws, id);
      var k :| 0 <= k < |planned| && planned[k].commitment.id == id;
      assert planned[k].commitment.id.target == Target(ToUser, u);
    }
  }

  // Some step pages somebody erased.
  ghost predicate PagesErased(team: TeamOnCall, steps: seq<Option<Step>>, ws: seq<World>, erased: set<string>)
    requires |ws| == |steps|
  {
    exists i, u :: 0 <= i < |steps| && u in erased && StepPages(team, steps, ws, i, u)
  }

  lemma {:induction false} PlanPromisesErased(alert: Alert, channels: Channels, facts: Facts, erased: set<string>)
    requires Decision(alert, channels, facts).Batch?
    ensures var steps := PolicySteps(alert, facts);
            PromisesErased(Decision(alert, channels, facts).planned, erased) <==>
              PagesErased(facts.onCall, steps, Worlds(facts, |steps|), erased)
  {
    var steps := PolicySteps(alert, facts);
    var (team, ws) := (facts.onCall, Worlds(facts, |steps|));
    forall u ensures Promises(Decision(alert, channels, facts).planned, u) <==>
                       exists i :: 0 <= i < |steps| && StepPages(team, steps, ws, i, u)
    {
      PromisedWhoIsPaged(FirehoseChannel(channels, alert.severity), team, steps, ws, u);
    }
  }

  ghost function OfferOf(alert: Alert, version: int, fingerprint: string, b: Built): Offer
    requires b.Batch?
  {
    Offer(alert.id, version, fingerprint, b.policyID, b.planned, b.duty)
  }

  // What becomes of a plan that was built, for a group nobody claimed yet: somebody
  // erased among those its steps page refuses all of it, whatever else has happened to
  // the group; otherwise it is taken exactly when the group still waits at the version
  // it was planned from. The gate never refuses it.
  lemma {:induction false} ABuiltPlanIsTaken(s: Store, erased: set<string>, alert: Alert, channels: Channels,
                                             facts: Facts, version: int, fingerprint: string)
    requires Decision(alert, channels, facts).Batch?
    requires alert.id != "" && alert.id in s.groups && alert.id !in s.claims
    ensures var steps := PolicySteps(alert, facts);
            var answer := Admitted(s, erased, OfferOf(alert, version, fingerprint, Decision(alert, channels, facts))).1;
            var refused := PagesErased(facts.onCall, steps, Worlds(facts, |steps|), erased);
            var row := s.groups[alert.id];
            var waits := row.status == Transition.New || row.status == Transition.Processing;
            && (answer == RecipientErased <==> refused)
            && (answer == GroupNotAdmitted <==> !refused && !waits)
            && (answer == SourceChanged <==> !refused && waits && row.version != version)
            && (answer == Created <==> !refused && waits && row.version == version)
  {
    PlanPromisesErased(alert, channels, facts, erased);
    assert AllPass(Decision(alert, channels, facts).planned);
  }

  // What one admission writes: nothing, unless it is the one that claims the group; and
  // then the claim as it was offered, and on that group's row its policy, who was on
  // duty if that was recorded, and that it is no longer new. A claimed group answers by
  // its claim alone, whatever else has changed.
  lemma {:induction false} WhatAnAdmissionWrites(s: Store, erased: set<string>, o: Offer)
    requires o.group != "" && o.group in s.groups
    ensures var (after, answer) := Admitted(s, erased, o);
            var row := s.groups[o.group];
            && (o.group in s.claims ==>
                  (answer == Existing <==> s.claims[o.group].fingerprint == o.fingerprint)
                  && (answer == Conflict <==> s.claims[o.group].fingerprint != o.fingerprint))
            && (answer != Created ==> after == s)
            && (answer == Created ==>
                  && o.group !in s.claims && after.claims == s.claims[o.group := o]
                  && after.groups.Keys == s.groups.Keys
                  && (forall g :: g in s.groups && g != o.group ==> after.groups[g] == s.groups[g])
                  && after.groups[o.group].policyID == o.policyID
                  && after.groups[o.group].duty == (if o.duty.Recorded? then o.duty else row.duty)
                  && after.groups[o.group].version == row.version
                  && (row.status == Transition.New ==> after.groups[o.group].status == Transition.Processing)
                  && (row.status != Transition.New ==> after.groups[o.group].status == row.status))
  {
  }

  // ---- any number of engines, over any time ----------------------------------------------------

  datatype Move =
    // One engine plans a group it read at some version, and offers what it planned.
    | Tick(alert: Alert, channels: Channels, facts: Facts, version: int, fingerprint: string)
    // The group is opened, its alerts change, or somebody else moves it on.
    | Open(group: string)
    | Change(group: string)
    | MoveOn(group: string, to: Transition.Status)
    // Erasure is for good.
    | Erase(user: string)

  datatype Entry = Entry(group: string, answer: Answer)

  datatype System = System(store: Store, erased: set<string>, log: seq<Entry>)

  ghost function Do(s: System, m: Move): System {
    match m
    case Tick(alert, channels, facts, version, fingerprint) =>
      var built := Decision(alert, channels, facts);
      if !built.Batch? then s
      else
        var (store, answer) := Admitted(s.store, s.erased, OfferOf(alert, version, fingerprint, built));
        System(store, s.erased, s.log + [Entry(alert.id, answer)])
    case Open(g) =>
      if g in s.store.groups then s
      else s.(store := s.store.(groups := s.store.groups[g := Row(Transition.New, 0, "", NotRecorded)]))
    case Change(g) =>
      if g !in s.store.groups then s
      else
        var row := s.store.groups[g];
        s.(store := s.store.(groups := s.store.groups[g := row.(version := row.version + 1)]))
    case MoveOn(g, to) =>
      if g !in s.store.groups || to == Transition.New then s
      else s.(store := s.store.(groups := s.store.groups[g := s.store.groups[g].(status := to)]))
    case Erase(u) => s.(erased := s.erased + {u})
  }

  const START := System(Store(map[], map[]), {}, [])

  ghost function After(s: System, moves: seq<Move>): System {
    if moves == [] then s else Do(After(s, moves[..|moves| - 1]), moves[|moves| - 1])
  }

  function Creations(log: seq<Entry>, group: string): nat {
    if log == [] then 0
    else
      var last := log[|log| - 1];
      Creations(log[..|log| - 1], group) + if last == Entry(group, Created) then 1 else 0
  }

  // A group's row says what its claim does, and nothing before there is one.
  predicate RowAgrees(s: Store, g: string) {
    if g in s.claims then
      && g in s.groups && s.groups[g].policyID == s.claims[g].policyID && s.groups[g].duty == s.claims[g].duty
      && s.groups[g].status != Transition.New
    else g in s.groups ==> s.groups[g].policyID == "" && s.groups[g].duty == NotRecorded
  }

  ghost predicate Inv(s: System) {
    && (forall g :: RowAgrees(s.store, g))
    && (forall g :: Creations(s.log, g) == if g in s.store.claims then 1 else 0)
  }

  lemma {:induction false} LogGrows(log: seq<Entry>, e: Entry)
    ensures forall g :: Creations(log + [e], g) == Creations(log, g) + if e == Entry(g, Created) then 1 else 0
  {
    assert (log + [e])[..|log|] == log;
  }

  lemma {:induction false} AdmittedAgrees(s: Store, erased: set<string>, o: Offer)
    requires forall g :: RowAgrees(s, g)
    ensures var (after, answer) := Admitted(s, erased, o);
            && (forall g :: RowAgrees(after, g))
            && after.claims.Keys == s.claims.Keys + (if answer == Created then {o.group} else {})
            && (answer == Created ==> o.group !in s.claims)
  {
    var after := Admitted(s, erased, o).0;
    assert RowAgrees(s, o.group);
    forall g ensures RowAgrees(after, g) { assert RowAgrees(s, g); }
  }

  lemma {:induction false} MoveKeepsInv(s: System, m: Move)
    requires Inv(s)
    ensures Inv(Do(s, m))
  {
    var t := Do(s, m);
    if m.Tick? {
      if Decision(m.alert, m.channels, m.facts).Batch? {
        var offer := OfferOf(m.alert, m.version, m.fingerprint, Decision(m.alert, m.channels, m.facts));
        OfferKeepsInv(s, offer);
      }
    } else {
      forall g ensures RowAgrees(t.store, g) { assert RowAgrees(s.store, g); }
    }
  }

  lemma {:induction false} OfferKeepsInv(s: System, o: Offer)
    requires Inv(s)
    ensures var (store, answer) := Admitted(s.store, s.erased, o);
            Inv(System(store, s.erased, s.log + [Entry(o.group, answer)]))
  {
    var (store, answer) := Admitted(s.store, s.erased, o);
    AdmittedAgrees(s.store, s.erased, o);
    LogGrows(s.log, Entry(o.group, answer));
    forall g ensures Creations(s.log + [Entry(o.group, answer)], g) == if g in store.claims then 1 else 0 {
      assert g in store.claims.Keys <==> g in store.claims;
      assert g in s.store.claims.Keys <==> g in s.store.claims;
    }
  }

  lemma {:induction false} EveryRunKeepsInv(moves: seq<Move>)
    ensures Inv(After(START, moves))
  {
    if moves != [] {
      EveryRunKeepsInv(moves[..|moves| - 1]);
      MoveKeepsInv(After(START, moves[..|moves| - 1]), moves[|moves| - 1]);
    }
  }

  // A claim once made stands as it was made.
  lemma {:induction false} ClaimsStand(s: System, moves: seq<Move>, g: string)
    requires g in s.store.claims
    ensures g in After(s, moves).store.claims && After(s, moves).store.claims[g] == s.store.claims[g]
  {
    if moves != [] {
      ClaimsStand(s, moves[..|moves| - 1], g);
      ClaimStays(After(s, moves[..|moves| - 1]), moves[|moves| - 1], g);
    }
  }

  lemma ClaimStays(s: System, m: Move, g: string)
    requires g in s.store.claims
    ensures g in Do(s, m).store.claims && Do(s, m).store.claims[g] == s.store.claims[g]
  {
    if m.Tick? && Decision(m.alert, m.channels, m.facts).Batch? {
      var offer := OfferOf(m.alert, m.version, m.fingerprint, Decision(m.alert, m.channels, m.facts));
      AdmittedKeeps(s.store, s.erased, offer, g);
    }
  }

  lemma AdmittedKeeps(s: Store, erased: set<string>, o: Offer, g: string)
    requires g in s.claims
    ensures g in Admitted(s, erased, o).0.claims && Admitted(s, erased, o).0.claims[g] == s.claims[g]
  {
  }

  // However many engines plan a group, from whatever they read: it is claimed once, and
  // the policy and the people on duty its row records are those of the plan that is
  // being delivered, never of one that lost; and it is new no more.
  lemma {:induction false} OneEscalationPerGroup(moves: seq<Move>, g: string)
    ensures var s := After(START, moves);
            && Creations(s.log, g) <= 1
            && (g in s.store.claims ==>
                  && g in s.store.groups && Creations(s.log, g) == 1
                  && s.store.groups[g].policyID == s.store.claims[g].policyID
                  && s.store.groups[g].duty == s.store.claims[g].duty
                  && s.store.groups[g].status != Transition.New)
  {
    EveryRunKeepsInv(moves);
    assert RowAgrees(After(START, moves).store, g);
    assert Creations(After(START, moves).log, g) == if g in After(START, moves).store.claims then 1 else 0;
  }

  // ---- a policy that names somebody erased ------------------------------------------------------

  ghost predicate NamesOutright(steps: seq<Option<Step>>, u: string) {
    exists i :: 0 <= i < |steps| && steps[i].Some? && NamesDirectly(steps[i].value, u)
  }

  // Nothing about g was taken between s and t.
  ghost predicate NothingTaken(s: System, t: System, g: string) {
    && g !in t.store.claims && s.erased <= t.erased && s.log <= t.log
    && forall k :: |s.log| <= k < |t.log| && t.log[k].group == g ==> t.log[k].answer in {RecipientErased, Unanswered}
  }

  // Nothing is looked up for a step that names a person, so nothing leaves them out: as
  // long as the policy of a group names somebody erased, every plan for it is refused
  // in full, tick after tick - the people its other steps page, and the channels,
  // hear nothing.
  lemma {:induction false} AnErasedStepIsNeverTaken(s: System, moves: seq<Move>, g: string, u: string)
    requires u in s.erased && g !in s.store.claims
    requires forall k :: 0 <= k < |moves| && moves[k].Tick? && moves[k].alert.id == g ==>
               NamesOutright(PolicySteps(moves[k].alert, moves[k].facts), u)
    ensures NothingTaken(s, After(s, moves), g)
  {
    if moves != [] {
      var n := |moves| - 1;
      AnErasedStepIsNeverTaken(s, moves[..n], g, u);
      ErasedStepRefuses(After(s, moves[..n]), moves[n], g, u);
    }
  }

  lemma {:induction false} ErasedStepRefuses(s: System, m: Move, g: string, u: string)
    requires u in s.erased && g !in s.store.claims
    requires m.Tick? && m.alert.id == g ==> NamesOutright(PolicySteps(m.alert, m.facts), u)
    ensures NothingTaken(s, Do(s, m), g)
  {
    if m.Tick? && Decision(m.alert, m.channels, m.facts).Batch? {
      var offer := OfferOf(m.alert, m.version, m.fingerprint, Decision(m.alert, m.channels, m.facts));
      if offer.group == g { NamedOutrightIsPromised(m.alert, m.channels, m.facts, s.erased, u); }
      OfferTakesNothing(s, offer, g);
    }
  }

  lemma {:induction false} OfferTakesNothing(s: System, o: Offer, g: string)
    requires g !in s.store.claims && (o.group == g ==> PromisesErased(o.planned, s.erased))
    ensures var (store, answer) := Admitted(s.store, s.erased, o);
            NothingTaken(s, System(store, s.erased, s.log + [Entry(o.group, answer)]), g)
  {
  }

  lemma {:induction false} NamedOutrightIsPromised(alert: Alert, channels: Channels, facts: Facts, erased: set<string>,
                                                   u: string)
    requires u in erased && NamesOutright(PolicySteps(alert, facts), u) && Decision(alert, channels, facts).Batch?
    ensures PromisesErased(Decision(alert, channels, facts).planned, erased)
  {
    var steps := PolicySteps(alert, facts);
    var i :| 0 <= i < |steps| && steps[i].Some? && NamesDirectly(steps[i].value, u);
    assert StepPages(facts.onCall, steps, Worlds(facts, |steps|), i, u);
    PlanPromisesErased(alert, channels, facts, erased);
  }
}
