// One webhook request as it is written: apply, create, apply again
// (internal/ingester/http.go, handleWebhook), with whatever else happens to the
// store between its calls.

module Webhook {
  import opened Order
  import opened Merge
  import opened Apply
  import opened History
  import opened Intake

  // What others do between two calls of a request, in order.
  ghost function Replayed(incidents: seq<Incident>, others: seq<Entry>): seq<Incident> {
    if others == [] then incidents
    else
      var before := Replayed(incidents, others[..|others| - 1]);
      match others[|others| - 1]
      case Delivered(_, key, n, at) => Deliver(before, key, n, at)
      case Ended(i) => if i < |before| then before[i := before[i].(open := false)] else before
  }

  // It is more of the same: deliveries and endings, one after another.
  lemma {:induction false} ReplayedIsInOrder(before: seq<Entry>, others: seq<Entry>)
    ensures Replayed(InOrder(before), others) == InOrder(before + others)
  {
    if others == [] {
      assert before + others == before;
    } else {
      assert (before + others)[..|before + others| - 1] == before + others[..|others| - 1];
      ReplayedIsInOrder(before, others[..|others| - 1]);
    }
  }

  // The store, one atomic operation at a time.
  class Store {
    var incidents: seq<Incident>

    constructor ()
      ensures incidents == []
    {
      incidents := [];
    }

    method FindOpen(key: string) returns (found: Option<nat>)
      ensures found == OpenOf(incidents, key)
    {
      var k := |incidents|;
      assert incidents[..k] == incidents;
      while k > 0
        invariant 0 <= k <= |incidents| && OpenOf(incidents, key) == OpenOf(incidents[..k], key)
      {
        k := k - 1;
        assert incidents[..k + 1][..k] == incidents[..k] && incidents[..k + 1][k] == incidents[k];
        if incidents[k].open && incidents[k].key == key {
          return Some(k);
        }
      }
      return None;
    }

    // Applies to the open incident, and closes it when nothing in it fires any more.
    method ApplyUpdate(key: string, n: Notification, at: Instant) returns (applied: bool)
      modifies this
      ensures applied == OpenOf(old(incidents), key).Some?
      ensures applied ==> incidents == Deliver(old(incidents), key, n, at)
      ensures !applied ==> incidents == old(incidents)
    {
      var found := FindOpen(key);
      if found.None? {
        return false;
      }
      var c := incidents[found.value];
      var e := Apply.Apply(c.alerts, n, at);
      incidents :=
        incidents[found.value := c.(alerts := e.alerts, open := !e.resolving, taken := c.taken + [Taken(n, at)])];
      return true;
    }

    // Insert if no incident of the key is open: the partial unique index.
    method Create(incident: Incident) returns (created: bool)
      modifies this
      ensures created == OpenOf(old(incidents), incident.key).None?
      ensures incidents == if created then old(incidents) + [incident] else old(incidents)
    {
      var found := FindOpen(incident.key);
      if found.Some? {
        return false;
      }
      incidents := incidents + [incident];
      return true;
    }

    // Everybody else.
    method Others(others: seq<Entry>)
      modifies this
      ensures incidents == Replayed(old(incidents), others)
    {
      ghost var before := incidents;
      for i := 0 to |others|
        invariant incidents == Replayed(before, others[..i])
      {
        assert others[..i + 1][..i] == others[..i];
        match others[i] {
          case Delivered(_, key, n, at) =>
            var applied := ApplyUpdate(key, n, at);
            if !applied {
              var firing := FiringAlerts(n.alerts);
              if |firing| > 0 {
                incidents := incidents + [Incident(key, true, firing, [Taken(n, at)])];
              }
            }
          case Ended(k) =>
            if k < |incidents| {
              incidents := incidents[k := incidents[k].(open := false)];
            }
        }
      }
      assert others[..|others|] == others;
    }
  }

  // The loop that keeps the firing alerts of a payload.
  method FiringAlerts(alerts: seq<Alert>) returns (firing: seq<Alert>)
    ensures firing == FiringOnly(alerts)
  {
    firing := [];
    for i := 0 to |alerts|
      invariant firing == FiringOnly(alerts[..i])
    {
      assert alerts[..i + 1][..i] == alerts[..i];
      if alerts[i].status == Firing {
        firing := firing + [alerts[i]];
      }
    }
    assert alerts[..|alerts|] == alerts;
  }

  // teamRead is whether the team's row could be read. The instants are those of the
  // three calls. The request is one of the protocol's, with the others' work between
  // its moves.
  method HandleWebhook(store: Store, p: AMPayload, first: seq<Entry>, second: seq<Entry>, teamRead: bool, at: Instant,
                       at2: Instant, at3: Instant)
    returns (code: nat)
    modifies store
    ensures code == 400 <==> p.groupKey == "" && (p.alerts == [] || p.alerts[0].fingerprint == "")
    ensures code == 400 ==> store.incidents == old(store.incidents)
    ensures code != 400 ==>
              KeyOf(p).Some?
              && Ran(old(store.incidents), p, first, second, teamRead, at, at2, at3) ==
                 (store.incidents, Answered(code))
  {
    var key := p.groupKey;
    if key == "" {
      if |p.alerts| == 0 {
        return 400;
      }
      key := p.alerts[0].fingerprint;
    }
    if key == "" {
      return 400;
    }
    var alerts := PayloadAlerts(p);
    var n := Notification(alerts, p.groupKey != "" && p.truncated == 0 && |p.alerts| > 0);
    var applied := store.ApplyUpdate(key, n, at);
    if applied {
      return 200;
    }
    var firing := FiringAlerts(alerts);
    if |firing| == 0 {
      return 200;
    }
    store.Others(first);
    if !teamRead {
      return 500;
    }
    var created := store.Create(Incident(key, true, firing, [Taken(n, at2)]));
    if created {
      return 200;
    }
    store.Others(second);
    applied := store.ApplyUpdate(key, n, at3);
    return if applied then 200 else 500;
  }

  // ---- the request as a run of the protocol ------------------------------------------------

  // Others change the incidents while request 0 waits.
  ghost function Meanwhile(s: Intake.State, others: seq<Entry>): Intake.State {
    s.(incidents := Replayed(s.incidents, others))
  }

  ghost function StageOf(s: Intake.State): Stage
    requires 0 in s.requests
  {
    s.requests[0].stage
  }

  // The moves of one request from its arrival to its answer.
  ghost function Ran(incidents: seq<Incident>, p: AMPayload, first: seq<Entry>, second: seq<Entry>, teamRead: bool,
                     at: Instant, at2: Instant, at3: Instant): (seq<Incident>, Stage)
    requires KeyOf(p).Some?
  {
    var asked := Do(Do(Intake.State(incidents, map[], []), Arrive(0, p)), ApplyCall(0, at));
    if StageOf(asked) != Creating then (asked.incidents, StageOf(asked))
    else
      var waited := Meanwhile(asked, first);
      if !teamRead then (Do(waited, Fails(0)).incidents, StageOf(Do(waited, Fails(0))))
      else
        var created := Do(waited, CreateCall(0, at2));
        if StageOf(created) != Retrying then (created.incidents, StageOf(created))
        else
          var again := Do(Meanwhile(created, second), ApplyCall(0, at3));
          (again.incidents, StageOf(again))
  }

  // Somebody has an incident of the key open.
  ghost predicate IsOpen(incidents: seq<Incident>, key: string) {
    exists i: nat :: OpenAt(incidents, key, i)
  }

  predicate SomethingFires(p: AMPayload) {
    exists i :: 0 <= i < |p.alerts| && p.alerts[i].status == Firing
  }

  // A request takes effect at one point, where the incidents change by its delivery and
  // by nothing else: at its first call if an incident is open there or nothing in the
  // payload fires; else where it creates; else where it finds whoever created first.
  // It is answered 500 exactly when something fires, none was open, and the team could
  // not be read, or whoever had opened one has ended it before the last call.
  lemma {:induction false} WhereItIsTaken(incidents: seq<Incident>, p: AMPayload, first: seq<Entry>, second: seq<Entry>,
                                          teamRead: bool, at: Instant, at2: Instant, at3: Instant)
    requires KeyOf(p).Some?
    ensures var key := if p.groupKey != "" then p.groupKey else p.alerts[0].fingerprint;
            var n := NotificationOf(p);
            var (after, stage) := Ran(incidents, p, first, second, teamRead, at, at2, at3);
            var then1 := Replayed(incidents, first);
            var then2 := Replayed(then1, second);
            if IsOpen(incidents, key) || !SomethingFires(p)
              then after == Deliver(incidents, key, n, at) && stage == Answered(200)
            else if !teamRead then after == then1 && stage == Answered(500)
            else if !IsOpen(then1, key) then after == Deliver(then1, key, n, at2) && stage == Answered(200)
            else if IsOpen(then2, key) then after == Deliver(then2, key, n, at3) && stage == Answered(200)
            else after == then2 && stage == Answered(500)
  {
    var key := KeyOf(p).value;
    FiringIsSent(p);
    OpenOrNot(incidents, key);
    OpenOrNot(Replayed(incidents, first), key);
    OpenOrNot(Replayed(Replayed(incidents, first), second), key);
  }

  lemma OpenOrNot(incidents: seq<Incident>, key: string)
    ensures IsOpen(incidents, key) <==> OpenOf(incidents, key).Some?
  {
  }

  lemma FiringIsSent(p: AMPayload)
    ensures SomethingFires(p) <==> FiringOnly(NotificationOf(p).alerts) != []
  {
    var alerts := NotificationOf(p).alerts;
    MergeableIsPart(alerts, map[]);
    if i :| 0 <= i < |p.alerts| && p.alerts[i].status == Firing { assert alerts[i] in FiringOnly(alerts); }
    if FiringOnly(alerts) != [] {
      assert FiringOnly(alerts)[0] in alerts;
      var i :| 0 <= i < |alerts| && alerts[i] == FiringOnly(alerts)[0];
      assert p.alerts[i].status == Firing;
    }
  }

  // ---- what an answer is worth ------------------------------------------------------------

  ghost predicate AllSound(incidents: seq<Incident>) {
    OnePerKey(incidents) && forall i :: 0 <= i < |incidents| ==> Sound(incidents[i])
  }

  ghost predicate FromAlertmanager(others: seq<Entry>) {
    forall k :: 0 <= k < |others| && others[k].Delivered? ==> Unmarked(others[k].n.alerts)
  }

  lemma {:induction false} OthersKeepSound(incidents: seq<Incident>, others: seq<Entry>)
    requires AllSound(incidents) && FromAlertmanager(others)
    ensures AllSound(Replayed(incidents, others))
  {
    if others != [] {
      var n := |others| - 1;
      OthersKeepSound(incidents, others[..n]);
      if others[n].Delivered? {
        DeliverStaysSound(Replayed(incidents, others[..n]), others[n].key, others[n].n, others[n].at);
      }
    }
  }

  // Whatever happened between its calls, a request that is answered 200 leaves every
  // alert its payload last reported as firing recorded so in the open incident of its
  // key, and the incidents as sound as it found them.
  lemma {:induction false} A200IsRecorded(incidents: seq<Incident>, p: AMPayload, first: seq<Entry>, second: seq<Entry>,
                                          teamRead: bool, at: Instant, at2: Instant, at3: Instant, f: string)
    requires AllSound(incidents) && FromAlertmanager(first) && FromAlertmanager(second) && KeyOf(p).Some?
    ensures var n := NotificationOf(p);
            var (after, stage) := Ran(incidents, p, first, second, teamRead, at, at2, at3);
            && AllSound(after)
            && (stage == Answered(200) && f in Latest(n.alerts) && Latest(n.alerts)[f].status == Firing ==>
                  Recorded(after, KeyOf(p).value, f, Latest(n.alerts)[f]))
  {
    var key, n := KeyOf(p).value, NotificationOf(p);
    var s1 := Replayed(incidents, first);
    var s2 := Replayed(s1, second);
    OthersKeepSound(incidents, first);
    OthersKeepSound(s1, second);
    WhereItIsTaken(incidents, p, first, second, teamRead, at, at2, at3);
    DeliveryRecords(incidents, key, n, at, f);
    DeliveryRecords(s1, key, n, at2, f);
    DeliveryRecords(s2, key, n, at3, f);
    NothingFiringNothingLast(p, f);
  }

  // The open incident of the key holds a for f.
  ghost predicate Recorded(incidents: seq<Incident>, key: string, f: string, a: Alert) {
    exists i: nat ::
      && OpenAt(incidents, key, i)
      && f in Latest(incidents[i].alerts) && Latest(incidents[i].alerts)[f] == a
  }

  lemma {:induction false} DeliveryRecords(incidents: seq<Incident>, key: string, n: Notification, at: Instant,
                                           f: string)
    requires AllSound(incidents) && Unmarked(n.alerts)
    ensures AllSound(Deliver(incidents, key, n, at))
    ensures f in Latest(n.alerts) && Latest(n.alerts)[f].status == Firing ==>
              Recorded(Deliver(incidents, key, n, at), key, f, Latest(n.alerts)[f])
  {
    DeliverStaysSound(incidents, key, n, at);
    if f in Latest(n.alerts) && Latest(n.alerts)[f].status == Firing { FiringIsRecorded(incidents, key, n, at, f); }
  }

  lemma NothingFiringNothingLast(p: AMPayload, f: string)
    ensures f in Latest(NotificationOf(p).alerts) && Latest(NotificationOf(p).alerts)[f].status == Firing ==>
              SomethingFires(p)
  {
    LatestIsByName(NotificationOf(p).alerts);
    FiringIsSent(p);
    MergeableIsPart(NotificationOf(p).alerts, map[]);
  }
}
