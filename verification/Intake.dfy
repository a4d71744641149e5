// The intake protocol (internal/ingester/http.go over internal/store/alert_merge.go):
// apply, and if no incident is open create one, and if somebody else just did,
// apply again. No lock is held between the three, and any number of requests and
// of people resolving incidents run at once.

module Intake {
  import opened Order
  import opened Merge
  import opened Apply
  import opened History
  import opened MergeLaws

  // ---- the payload ---------------------------------------------------------------

  // An alert as Alertmanager sends it: there is nowhere to write a mark.
  datatype AMAlert = AMAlert(
    fingerprint: string,
    status: Status,
    labels: map<string, string>,
    annotations: map<string, string>,
    startsAt: Instant,
    endsAt: Instant,
    generatorURL: string)

  datatype AMPayload = AMPayload(groupKey: string, alerts: seq<AMAlert>, truncated: nat)

  function AsAlert(a: AMAlert): Alert {
    Alert(a.fingerprint, a.status, a.labels, a.annotations, a.startsAt, a.endsAt, a.generatorURL, None)
  }

  function AlertsOf(p: AMPayload): seq<Alert> {
    seq(|p.alerts|, i requires 0 <= i < |p.alerts| => AsAlert(p.alerts[i]))
  }

  method PayloadAlerts(p: AMPayload) returns (out: seq<Alert>)
    ensures out == AlertsOf(p)
  {
    out := [];
    for i := 0 to |p.alerts|
      invariant |out| == i && forall k :: 0 <= k < i ==> out[k] == AsAlert(p.alerts[k])
    {
      out := out + [AsAlert(p.alerts[i])];
    }
  }

  // The payload is the whole set of alerts still reported only if it named the
  // group, carried alerts and had none cut off.
  function NotificationOf(p: AMPayload): (n: Notification)
    ensures Unmarked(n.alerts)
    ensures n.snapshot <==> p.truncated == 0 && n.alerts != [] && p.groupKey != "" && KeyOf(p) == Some(p.groupKey)
    ensures |n.alerts| == |p.alerts|
  {
    Notification(AlertsOf(p), p.groupKey != "" && p.truncated == 0 && p.alerts != [])
  }

  // An alert of the payload is taken as it was sent.
  lemma AlertsAsSent(p: AMPayload, i: nat)
    requires i < |p.alerts|
    ensures |NotificationOf(p).alerts| == |p.alerts|
    ensures var (a, b) := (NotificationOf(p).alerts[i], p.alerts[i]);
            && a.fingerprint == b.fingerprint && a.status == b.status
            && a.labels == b.labels && a.annotations == b.annotations
            && a.startsAt == b.startsAt && a.endsAt == b.endsAt && a.generatorURL == b.generatorURL
            && a.staleSince.None?
  {
  }

  // What the payload is about; a payload about nothing is turned away.
  function KeyOf(p: AMPayload): Option<string> {
    if p.groupKey != "" then Some(p.groupKey)
    else if p.alerts != [] && p.alerts[0].fingerprint != "" then Some(p.alerts[0].fingerprint)
    else None
  }

  // A group's alerts as they are sent: the first so many, and how many were cut off.
  function Sent(groupKey: string, all: seq<AMAlert>, keep: nat): AMPayload
    requires keep <= |all|
  {
    AMPayload(groupKey, all[..keep], |all| - keep)
  }

  // Absence is evidence only of a payload that left nothing out: it is taken for the
  // whole set exactly when the group was named, had alerts and was sent in full, and
  // then it carries each of them, in order.
  lemma {:induction false} ASnapshotIsTheWholeGroup(groupKey: string, all: seq<AMAlert>, keep: nat)
    requires keep <= |all|
    ensures var n := NotificationOf(Sent(groupKey, all, keep));
            && (n.snapshot <==> groupKey != "" && all != [] && keep == |all|)
            && (n.snapshot ==> n.alerts == AlertsOf(AMPayload(groupKey, all, 0)))
  {
    if keep == |all| { assert all[..keep] == all; }
  }

  // ---- the store, one atomic operation at a time -------------------------------------

  // `taken` is what was delivered to the incident; it is written nowhere and
  // decides nothing.
  datatype Incident = Incident(key: string, open: bool, alerts: seq<Alert>, taken: seq<Taken>)

  predicate OpenAt(incidents: seq<Incident>, key: string, i: nat) {
    i < |incidents| && incidents[i].open && incidents[i].key == key
  }

  // The open incident of a key: the partial unique index allows one.
  function OpenOf(incidents: seq<Incident>, key: string): (r: Option<nat>)
    ensures r.Some? ==> OpenAt(incidents, key, r.value)
    ensures r.None? ==> forall i: nat :: !OpenAt(incidents, key, i)
  {
    if incidents == [] then None
    else
      var k := |incidents| - 1;
      if OpenAt(incidents, key, k) then Some(k)
      else
        var r := OpenOf(incidents[..k], key);
        assert forall i: nat :: OpenAt(incidents, key, i) ==> i == k || OpenAt(incidents[..k], key, i);
        r
  }

  // ApplyAlertmanagerUpdateAtomic on the open incident.
  ghost function Absorb(c: Incident, n: Notification, at: Instant): Incident {
    var e := Effect(c.alerts, n, at);
    c.(alerts := e.alerts, open := !e.resolving, taken := c.taken + [Taken(n, at)])
  }

  // CreateAlertGroupAtomic, of the firing alerts of a payload.
  ghost function Fresh(key: string, n: Notification, at: Instant): Incident {
    Incident(key, true, FiringOnly(n.alerts), [Taken(n, at)])
  }

  // ---- what one delivery means, all at once ---------------------------------------------

  // The specification a concurrent run is held to.
  ghost function Deliver(incidents: seq<Incident>, key: string, n: Notification, at: Instant): seq<Incident> {
    match OpenOf(incidents, key)
    case Some(i) => incidents[i := Absorb(incidents[i], n, at)]
    case None => if FiringOnly(n.alerts) == [] then incidents else incidents + [Fresh(key, n, at)]
  }

  datatype Entry = Delivered(rid: nat, key: string, n: Notification, at: Instant) | Ended(i: nat)

  ghost function InOrder(log: seq<Entry>): seq<Incident> {
    if log == [] then []
    else
      var before := InOrder(log[..|log| - 1]);
      match log[|log| - 1]
      case Delivered(_, key, n, at) => Deliver(before, key, n, at)
      case Ended(i) => if i < |before| then before[i := before[i].(open := false)] else before
  }

  // ---- the protocol -------------------------------------------------------------------

  datatype Stage = Arrived | Creating | Retrying | Answered(code: nat)

  datatype Request = Request(key: string, n: Notification, stage: Stage)

  datatype State = State(incidents: seq<Incident>, requests: map<nat, Request>, log: seq<Entry>)

  // One thing that can happen next. A store call that answers with an error
  // changed nothing.
  datatype Move =
    | Arrive(rid: nat, p: AMPayload)
    | ApplyCall(rid: nat, at: Instant)
    | CreateCall(rid: nat, at: Instant)
    | Fails(rid: nat)
    | HumanResolves(i: nat)

  predicate Enabled(s: State, m: Move) {
    match m
    case Arrive(rid, p) => rid !in s.requests && KeyOf(p).Some?
    case ApplyCall(rid, _) => rid in s.requests && s.requests[rid].stage in {Arrived, Retrying}
    case CreateCall(rid, _) => rid in s.requests && s.requests[rid].stage == Creating
    case Fails(rid) => rid in s.requests && !s.requests[rid].stage.Answered?
    case HumanResolves(i) => i < |s.incidents| && s.incidents[i].open
  }

  function AtStage(s: State, rid: nat, stage: Stage): State
    requires rid in s.requests
  {
    s.(requests := s.requests[rid := s.requests[rid].(stage := stage)])
  }

  ghost function Do(s: State, m: Move): State
    requires Enabled(s, m)
  {
    match m
    case Arrive(rid, p) =>
      s.(requests := s.requests[rid := Request(KeyOf(p).value, NotificationOf(p), Arrived)])
    case ApplyCall(rid, at) =>
      var r := s.requests[rid];
      (match OpenOf(s.incidents, r.key)
       case Some(i) =>
         AtStage(s, rid, Answered(200)).(
           incidents := s.incidents[i := Absorb(s.incidents[i], r.n, at)],
           log := s.log + [Delivered(rid, r.key, r.n, at)])
       case None =>
         if r.stage == Retrying then AtStage(s, rid, Answered(500))
         else if FiringOnly(r.n.alerts) == [] then
           AtStage(s, rid, Answered(200)).(log := s.log + [Delivered(rid, r.key, r.n, at)])
         else AtStage(s, rid, Creating))
    case CreateCall(rid, at) =>
      var r := s.requests[rid];
      if OpenOf(s.incidents, r.key).Some? then AtStage(s, rid, Retrying)
      else
        AtStage(s, rid, Answered(200)).(
          incidents := s.incidents + [Fresh(r.key, r.n, at)],
          log := s.log + [Delivered(rid, r.key, r.n, at)])
    case Fails(rid) => AtStage(s, rid, Answered(500))
    case HumanResolves(i) =>
      s.(incidents := s.incidents[i := s.incidents[i].(open := false)], log := s.log + [Ended(i)])
  }

  const EMPTY := State([], map[], [])

  // Any sequence of moves is a run: one that cannot happen where it stands does not.
  ghost function After(moves: seq<Move>): State {
    if moves == [] then EMPTY
    else
      var s := After(moves[..|moves| - 1]);
      if Enabled(s, moves[|moves| - 1]) then Do(s, moves[|moves| - 1]) else s
  }

  // ---- every run is one delivery after another ------------------------------------------

  function Deliveries(log: seq<Entry>, rid: nat): nat {
    if log == [] then 0
    else
      var k := |log| - 1;
      Deliveries(log[..k], rid) + if log[k].Delivered? && log[k].rid == rid then 1 else 0
  }

  // What is true of an incident at every moment: it holds what its own history
  // says, and while it is open something in it fires.
  ghost predicate Sound(c: Incident) {
    && c.taken != [] && AllUnmarked(c.taken) && c.alerts == Held(c.taken)
    && (c.open ==> !NothingFires(c.alerts))
  }

  ghost predicate OnePerKey(incidents: seq<Incident>) {
    forall i, j :: 0 <= i < j < |incidents| && incidents[i].open && incidents[j].open ==>
                     incidents[i].key != incidents[j].key
  }

  ghost predicate Inv(s: State) {
    && s.incidents == InOrder(s.log)
    && OnePerKey(s.incidents)
    && (forall i :: 0 <= i < |s.incidents| ==> Sound(s.incidents[i]))
    && (forall rid :: rid in s.requests ==> Unmarked(s.requests[rid].n.alerts)
                                            && (s.requests[rid].stage == Creating || s.requests[rid].stage == Retrying
                                                ==> FiringOnly(s.requests[rid].n.alerts) != []))
    && Answers(s.requests, s.log) && Owned(s.requests, s.log)
  }

  // Exactly the requests answered 200 were delivered, once each.
  ghost predicate Answers(requests: map<nat, Request>, log: seq<Entry>) {
    forall rid :: Deliveries(log, rid) == if rid in requests && requests[rid].stage == Answered(200) then 1 else 0
  }

  // Every delivery is of its request's payload, to its request's key.
  ghost predicate Owned(requests: map<nat, Request>, log: seq<Entry>) {
    forall k :: 0 <= k < |log| && log[k].Delivered? ==>
      && log[k].rid in requests && requests[log[k].rid].key == log[k].key && requests[log[k].rid].n == log[k].n
  }

  lemma {:induction false} OpenIsUnique(incidents: seq<Incident>, key: string, i: nat)
    requires OnePerKey(incidents) && OpenAt(incidents, key, i)
    ensures OpenOf(incidents, key) == Some(i)
  {
  }

  lemma {:induction false} AbsorbStaysSound(c: Incident, n: Notification, at: Instant)
    requires Sound(c) && Unmarked(n.alerts)
    ensures Sound(Absorb(c, n, at))
  {
    var t := c.taken + [Taken(n, at)];
    assert t[..|t| - 1] == c.taken;
    assert Held(t) == Effect(Held(c.taken), n, at).alerts;
  }

  lemma {:induction false} FreshIsSound(key: string, n: Notification, at: Instant)
    requires Unmarked(n.alerts) && FiringOnly(n.alerts) != []
    ensures Sound(Fresh(key, n, at))
  {
    MergeableIsPart(n.alerts, map[]);
    assert FiringOnly(n.alerts)[0] in FiringOnly(n.alerts);
  }

  lemma {:induction false} LogExtends(log: seq<Entry>, e: Entry)
    ensures InOrder(log + [e]) ==
            (match e
             case Delivered(_, key, n, at) => Deliver(InOrder(log), key, n, at)
             case Ended(i) =>
               if i < |InOrder(log)| then InOrder(log)[i := InOrder(log)[i].(open := false)] else InOrder(log))
    ensures forall rid :: Deliveries(log + [e], rid) ==
                          Deliveries(log, rid) + if e.Delivered? && e.rid == rid then 1 else 0
  {
    assert (log + [e])[..|log + [e]| - 1] == log;
  }

  // A delivery is a step of the specification that keeps what is true of incidents.
  lemma {:induction false} DeliverStaysSound(incidents: seq<Incident>, key: string, n: Notification, at: Instant)
    requires OnePerKey(incidents) && (forall i :: 0 <= i < |incidents| ==> Sound(incidents[i])) && Unmarked(n.alerts)
    ensures var after := Deliver(incidents, key, n, at);
            OnePerKey(after) && forall i :: 0 <= i < |after| ==> Sound(after[i])
  {
    match OpenOf(incidents, key)
    case Some(i) => AbsorbStaysSound(incidents[i], n, at);
    case None =>
      if FiringOnly(n.alerts) != [] {
        FreshIsSound(key, n, at);
        forall i | 0 <= i < |incidents| && incidents[i].open ensures incidents[i].key != key {
          assert !OpenAt(incidents, key, i);
        }
      }
  }

  lemma {:induction false} DeliveryKeepsInv(s: State, rid: nat, at: Instant, after: State)
    requires Inv(s) && rid in s.requests && !s.requests[rid].stage.Answered?
    requires var r := s.requests[rid];
             after == State(Deliver(s.incidents, r.key, r.n, at),
                            s.requests[rid := r.(stage := Answered(200))],
                            s.log + [Delivered(rid, r.key, r.n, at)])
    ensures Inv(after)
  {
    var r := s.requests[rid];
    LogExtends(s.log, Delivered(rid, r.key, r.n, at));
    DeliverStaysSound(s.incidents, r.key, r.n, at);
    DeliveryIsLogged(s.requests, s.log, rid, at);
  }

  lemma {:induction false} DeliveryIsLogged(requests: map<nat, Request>, log: seq<Entry>, rid: nat, at: Instant)
    requires Answers(requests, log) && Owned(requests, log) && rid in requests && !requests[rid].stage.Answered?
    ensures var r := requests[rid];
            var (after, more) := (requests[rid := r.(stage := Answered(200))], log + [Delivered(rid, r.key, r.n, at)]);
            Answers(after, more) && Owned(after, more)
  {
    var r := requests[rid];
    LogExtends(log, Delivered(rid, r.key, r.n, at));
  }

  lemma {:induction false} WaitingKeepsInv(s: State, rid: nat, stage: Stage)
    requires Inv(s) && rid in s.requests && !s.requests[rid].stage.Answered? && stage != Answered(200)
    requires stage == Creating || stage == Retrying ==> FiringOnly(s.requests[rid].n.alerts) != []
    ensures Inv(AtStage(s, rid, stage))
  {
  }

  lemma {:induction false} ArrivalKeepsInv(s: State, rid: nat, r: Request)
    requires Inv(s) && rid !in s.requests && r.stage == Arrived && Unmarked(r.n.alerts)
    ensures Inv(s.(requests := s.requests[rid := r]))
  {
    var after := s.(requests := s.requests[rid := r]);
    forall k | 0 <= k < |s.log| && s.log[k].Delivered?
      ensures s.log[k].rid in after.requests
      ensures after.requests[s.log[k].rid] == s.requests[s.log[k].rid]
    {}
  }

  lemma {:induction false} ResolveKeepsInv(s: State, i: nat)
    requires Inv(s) && i < |s.incidents| && s.incidents[i].open
    ensures Inv(Do(s, HumanResolves(i)))
  {
    LogExtends(s.log, Ended(i));
  }

  lemma {:induction false} MoveKeepsInv(s: State, m: Move)
    requires Inv(s) && Enabled(s, m)
    ensures Inv(Do(s, m))
  {
    match m
    case Arrive(rid, p) => ArrivalKeepsInv(s, rid, Request(KeyOf(p).value, NotificationOf(p), Arrived));
    case ApplyCall(rid, at) =>
      var r := s.requests[rid];
      if OpenOf(s.incidents, r.key).Some? || (r.stage == Arrived && FiringOnly(r.n.alerts) == []) {
        DeliveryKeepsInv(s, rid, at, Do(s, m));
      } else {
        WaitingKeepsInv(s, rid, if r.stage == Retrying then Answered(500) else Creating);
      }
    case CreateCall(rid, at) =>
      if OpenOf(s.incidents, s.requests[rid].key).None? {
        DeliveryKeepsInv(s, rid, at, Do(s, m));
      } else {
        WaitingKeepsInv(s, rid, Retrying);
      }
    case Fails(rid) => WaitingKeepsInv(s, rid, Answered(500));
    case HumanResolves(i) => ResolveKeepsInv(s, i);
  }

  // Every interleaving of requests and people is explained by the log alone: one
  // delivery at a time, each request that answered 200 exactly once and no other
  // request at all, with one open incident to a key at every moment.
  lemma {:induction false} EveryRunLinearises(moves: seq<Move>)
    ensures Inv(After(moves))
  {
    if moves != [] {
      EveryRunLinearises(moves[..|moves| - 1]);
      var s := After(moves[..|moves| - 1]);
      if Enabled(s, moves[|moves| - 1]) { MoveKeepsInv(s, moves[|moves| - 1]); }
    }
  }

  // A request changes the incidents in one move only, the one that answers it 200.
  // So a request answered 500 changed none.
  lemma {:induction false} OnlyA200Changes(s: State, m: Move)
    requires Enabled(s, m) && !m.HumanResolves?
    requires m.Arrive? || Do(s, m).requests[m.rid].stage != Answered(200)
    ensures Do(s, m).incidents == s.incidents && Do(s, m).log == s.log
  {
  }

  // The point a 200 stands for, wherever it fell: the state before it and the
  // state after it differ by one delivery of that request's payload.
  lemma {:induction false} A200HasItsPoint(moves: seq<Move>, s: State, rid: nat) returns (k: nat)
    requires s == After(moves) && rid in s.requests && s.requests[rid].stage == Answered(200)
    ensures k < |s.log| && s.log[k].Delivered? && s.log[k].rid == rid
    ensures forall j :: 0 <= j < |s.log| && j != k && s.log[j].Delivered? ==> s.log[j].rid != rid
    ensures var r := s.requests[rid];
            InOrder(s.log[..k + 1]) == Deliver(InOrder(s.log[..k]), r.key, r.n, s.log[k].at)
  {
    EveryRunLinearises(moves);
    k := PointOf(s.log, rid);
    assert s.log[..k + 1] == s.log[..k] + [s.log[k]];
    LogExtends(s.log[..k], s.log[k]);
  }

  lemma {:induction false} PointOf(log: seq<Entry>, rid: nat) returns (k: nat)
    requires Deliveries(log, rid) == 1
    ensures k < |log| && log[k].Delivered? && log[k].rid == rid
    ensures forall j :: 0 <= j < |log| && j != k && log[j].Delivered? ==> log[j].rid != rid
  {
    var n := |log| - 1;
    if log[n].Delivered? && log[n].rid == rid {
      NoPointOf(log[..n], rid);
      k := n;
      assert forall j :: 0 <= j < n ==> log[j] == log[..n][j];
    } else {
      k := PointOf(log[..n], rid);
      assert forall j :: 0 <= j < n ==> log[j] == log[..n][j];
    }
  }

  lemma {:induction false} NoPointOf(log: seq<Entry>, rid: nat)
    requires Deliveries(log, rid) == 0
    ensures forall j :: 0 <= j < |log| && log[j].Delivered? ==> log[j].rid != rid
  {
    if log != [] {
      var n := |log| - 1;
      NoPointOf(log[..n], rid);
      assert forall j :: 0 <= j < n ==> log[j] == log[..n][j];
    }
  }

  // ---- what a delivery does ---------------------------------------------------------------

  // Opening an incident is applying the payload to an empty one: the same entry
  // of every fingerprint, and the same alerts but for their order when the
  // payload names each once.
  lemma {:induction false} OpeningIsApplyToNothing(n: Notification, at: Instant)
    requires Unmarked(n.alerts)
    ensures Latest(FiringOnly(n.alerts)) == Latest(Effect([], n, at).alerts)
    ensures Distinct(n.alerts) ==> multiset(FiringOnly(n.alerts)) == multiset(Effect([], n, at).alerts)
    ensures FiringOnly(n.alerts) == [] <==> Effect([], n, at).alerts == []
  {
    EffectMeaning([], n, at);
    assert Latest(FiringOnly(n.alerts)) == Latest(Effect([], n, at).alerts);
    SameNamesEmpty(FiringOnly(n.alerts), Effect([], n, at).alerts);
    if Distinct(n.alerts) {
      MergeableIsDistinct(n.alerts, map[]);
      SameLatestSameAlerts(FiringOnly(n.alerts), Effect([], n, at).alerts);
    }
  }

  lemma {:induction false} SameNamesEmpty(a: seq<Alert>, b: seq<Alert>)
    requires Latest(a) == Latest(b)
    ensures a == [] <==> b == []
  {
    LatestIsByName(a);
    LatestIsByName(b);
    if a != [] { assert a[0].fingerprint in Names(a); }
    if b != [] { assert b[0].fingerprint in Names(b); }
  }

  lemma {:induction false} SameLatestSameAlerts(a: seq<Alert>, b: seq<Alert>)
    requires Distinct(a) && Distinct(b) && Latest(a) == Latest(b)
    ensures multiset(a) == multiset(b)
  {
    LatestOfDistinct(a);
    LatestOfDistinct(b);
    DistinctIsTieFree(a);
    DistinctIsTieFree(b);
    NoDupSameElements(a, b);
  }

  lemma {:induction false} AbsorbRecords(c: Incident, n: Notification, at: Instant, f: string)
    requires f in Latest(n.alerts) && f in Latest(FiringOnly(n.alerts)) && Latest(n.alerts)[f].status == Firing
    requires Latest(FiringOnly(n.alerts))[f] == Latest(n.alerts)[f]
    ensures var after := Absorb(c, n, at);
            after.open && f in Latest(after.alerts) && Latest(after.alerts)[f] == Latest(n.alerts)[f]
  {
    EffectMeaning(c.alerts, n, at);
    NothingFiresByName(Effect(c.alerts, n, at).alerts);
  }

  // After its delivery, everything a payload last reported as firing is recorded
  // firing in the incident that is open for its key - and that incident is open.
  lemma {:induction false} FiringIsRecorded(incidents: seq<Incident>, key: string, n: Notification, at: Instant,
                                            f: string)
    requires OnePerKey(incidents) && Unmarked(n.alerts)
    requires f in Latest(n.alerts) && Latest(n.alerts)[f].status == Firing
    ensures var after := Deliver(incidents, key, n, at);
            var i := OpenOf(after, key);
            i.Some? && f in Latest(after[i.value].alerts) && Latest(after[i.value].alerts)[f] == Latest(n.alerts)[f]
  {
    LastFiringIsLast(n.alerts, f);
    var after := Deliver(incidents, key, n, at);
    match OpenOf(incidents, key)
    case Some(i) =>
      AbsorbRecords(incidents[i], n, at, f);
      assert after == incidents[i := Absorb(incidents[i], n, at)];
      OpenIsUnique(after, key, i);
    case None =>
      LatestIsByName(FiringOnly(n.alerts));
      var i := |incidents|;
      assert OpenAt(after, key, i);
      assert OpenOf(after, key) == Some(i);
  }

  // An open incident absorbs every payload for its key, whatever that says: it is the
  // next of the incident's history, the alerts are that history's, and the incident
  // stays open exactly while something that ever fired was last reported firing. No
  // other incident is touched.
  lemma {:induction false} AnOpenIncidentAbsorbs(incidents: seq<Incident>, key: string, n: Notification, at: Instant,
                                                 i: nat)
    requires OnePerKey(incidents) && OpenAt(incidents, key, i) && Sound(incidents[i]) && Unmarked(n.alerts)
    ensures var after := Deliver(incidents, key, n, at);
            var h := incidents[i].taken + [Taken(n, at)];
            && |after| == |incidents| && (forall j :: 0 <= j < |incidents| && j != i ==> after[j] == incidents[j])
            && after[i].key == key && after[i].taken == h && after[i].alerts == Held(h)
            && (after[i].open <==>
                  exists f, k :: 0 <= k < |h| && LastReport(h, k, f) && ReportIn(h, k, f).value.status == Firing)
  {
    var h := incidents[i].taken + [Taken(n, at)];
    assert h[..|h| - 1] == incidents[i].taken;
    OpenIsUnique(incidents, key, i);
    AbsorbStaysSound(incidents[i], n, at);
    ResolvesExactly(h);
    forall f, k | 0 <= k < |h| && LastReport(h, k, f) ensures EverFired(h, f) { HistoryDecides(h, f, k); }
  }

  // With none open, a payload in which something fires opens one, with what fires in
  // it and nothing else; any other leaves everything as it was.
  lemma {:induction false} NothingOpenOpensOne(incidents: seq<Incident>, key: string, n: Notification, at: Instant)
    requires forall i: nat :: !OpenAt(incidents, key, i)
    ensures var after := Deliver(incidents, key, n, at);
            if exists a :: a in n.alerts && a.status == Firing then
              && |after| == |incidents| + 1 && after[..|incidents|] == incidents
              && var c := after[|incidents|];
                 && c.key == key && c.open && c.taken == [Taken(n, at)]
                 && (forall a :: a in c.alerts <==> a in n.alerts && a.status == Firing)
            else after == incidents
  {
    MergeableIsPart(n.alerts, map[]);
    if a :| a in n.alerts && a.status == Firing { assert a in FiringOnly(n.alerts); }
    if FiringOnly(n.alerts) != [] { assert FiringOnly(n.alerts)[0] in n.alerts; }
    assert OpenOf(incidents, key).None?;
  }

  // What any incident of any run holds is the declarative reading of what was
  // delivered to it, whichever requests raced to deliver it.
  lemma {:induction false} IncidentIsItsHistory(moves: seq<Move>, s: State, i: nat, f: string, k: nat)
    requires s == After(moves) && i < |s.incidents|
    requires var h := s.incidents[i].taken; k < |h| && LastReport(h, k, f)
    ensures var c := s.incidents[i];
            f in Latest(c.alerts) && Latest(c.alerts)[f] == AsLeft(c.taken, k, ReportIn(c.taken, k, f).value)
  {
    EveryRunLinearises(moves);
    assert Sound(s.incidents[i]);
    HistoryDecides(s.incidents[i].taken, f, k);
  }
}
