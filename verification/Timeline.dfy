// What an incident's history gains from a payload, and that the history can be
// read back (internal/alertgroup/merge.go, internal/ingester/http.go).

module Timeline {
  import opened Order
  import opened Merge
  import opened Apply
  import opened History
  import opened MergeLaws

  datatype Change = AlertAdded | AlertResolved

  datatype Event = Event(change: Change, fingerprint: string, at: Instant)

  // What one alert adds to the history, against what the incident held BEFORE
  // the payload.
  function ChangeOf(a: Alert, existing: map<string, Status>): Option<Change> {
    if a.fingerprint !in existing then
      if a.status == Firing then Some(AlertAdded) else None
    else if existing[a.fingerprint] == Firing && a.status == Resolved then Some(AlertResolved)
    else if existing[a.fingerprint] == Resolved && a.status == Firing then Some(AlertAdded)
    else None
  }

  function Events(incoming: seq<Alert>, existing: map<string, Status>, base: Instant): seq<Event> {
    if incoming == [] then []
    else
      var k := |incoming| - 1;
      var before := Events(incoming[..k], existing, base);
      match ChangeOf(incoming[k], existing)
      case None => before
      case Some(c) => before + [Event(c, incoming[k].fingerprint, base + |before| + 1)]
  }

  method MergeTimelineEvents(incoming: seq<Alert>, existing: map<string, Status>, base: Instant)
    returns (events: seq<Event>)
    ensures events == Events(incoming, existing, base)
  {
    events := [];
    for i := 0 to |incoming|
      invariant events == Events(incoming[..i], existing, base)
    {
      assert incoming[..i + 1][..i] == incoming[..i];
      var a := incoming[i];
      var known := a.fingerprint in existing;
      var change;
      if !known && a.status == Firing {
        change := AlertAdded;
      } else if known && existing[a.fingerprint] == Firing && a.status == Resolved {
        change := AlertResolved;
      } else if known && existing[a.fingerprint] == Resolved && a.status == Firing {
        change := AlertAdded;
      } else {
        continue;
      }
      events := events + [Event(change, a.fingerprint, base + (|events| + 1))];
    }
    assert incoming[..|incoming|] == incoming;
  }

  // One line for each entry that opens an alert, turns one the incident held resolved to
  // firing, or one it held firing to resolved; none for any other, whatever its word. Its
  // instant is the next one.
  lemma {:induction false} OneLineEach(incoming: seq<Alert>, a: Alert, existing: map<string, Status>, base: Instant)
    ensures var (before, after) := (Events(incoming, existing, base), Events(incoming + [a], existing, base));
            var held := if a.fingerprint in existing then Some(existing[a.fingerprint]) else None;
            var next := base + |before| + 1;
            if a.status == Firing && (held == None || held == Some(Resolved)) then
              after == before + [Event(AlertAdded, a.fingerprint, next)]
            else if a.status == Resolved && held == Some(Firing) then
              after == before + [Event(AlertResolved, a.fingerprint, next)]
            else after == before
  {
    assert (incoming + [a])[..|incoming|] == incoming;
  }

  lemma {:induction false} EventsAreNumbered(incoming: seq<Alert>, existing: map<string, Status>, base: Instant)
    ensures forall i :: 0 <= i < |Events(incoming, existing, base)| ==>
                          Events(incoming, existing, base)[i].at == base + i + 1
  {
    if incoming != [] {
      var k := |incoming| - 1;
      EventsAreNumbered(incoming[..k], existing, base);
      var before := Events(incoming[..k], existing, base);
      var e := Events(incoming, existing, base);
      if ChangeOf(incoming[k], existing).Some? {
        assert |e| == |before| + 1 && e[..|before|] == before && e[|before|].at == base + |before| + 1;
      }
      forall i | 0 <= i < |e| ensures e[i].at == base + i + 1 {
        if i < |before| { assert e[i] == before[i]; }
      }
    }
  }

  // An order that is not total is not an order: no two lines share an instant.
  lemma {:induction false} EventsAreInOrder(incoming: seq<Alert>, existing: map<string, Status>, base: Instant)
    ensures forall i, j :: 0 <= i < j < |Events(incoming, existing, base)| ==>
                             base < Events(incoming, existing, base)[i].at < Events(incoming, existing, base)[j].at
  {
    EventsAreNumbered(incoming, existing, base);
  }

  // ---- reading the history back ------------------------------------------------------

  function Says(c: Change): Status {
    match c
    case AlertAdded => Firing
    case AlertResolved => Resolved
  }

  function Replay(statuses: map<string, Status>, events: seq<Event>): map<string, Status> {
    if events == [] then statuses
    else
      var e := events[|events| - 1];
      Replay(statuses, events[..|events| - 1])[e.fingerprint := Says(e.change)]
  }

  predicate Declared(s: Status) {
    s == Firing || s == Resolved
  }

  // Some entry of p gives f another status than s.
  predicate Leaves(p: seq<Alert>, f: string, s: Status) {
    exists a :: a in p && a.fingerprint == f && a.status != s
  }

  lemma {:induction false} LeavesExtends(p: seq<Alert>, f: string, s: Status)
    requires p != []
    ensures Leaves(p, f, s) <==>
            Leaves(p[..|p| - 1], f, s) || (p[|p| - 1].fingerprint == f && p[|p| - 1].status != s)
  {
    var k := |p| - 1;
    assert p == p[..k] + [p[k]];
    if Leaves(p[..k], f, s) {
      var a :| a in p[..k] && a.fingerprint == f && a.status != s;
      assert a in p;
    }
    if p[k].fingerprint == f && p[k].status != s { assert p[k] in p; }
  }

  function Turned(s: Status, leaves: bool): Status {
    if !leaves then s else if s == Firing then Resolved else Firing
  }

  // Where reading the lines of p over `existing` leaves f.
  lemma {:induction false} ReplayByName(p: seq<Alert>, existing: map<string, Status>, base: Instant, f: string)
    requires forall a :: a in p ==> Declared(a.status) && Belongs(a, existing)
    requires forall g :: g in existing ==> Declared(existing[g])
    ensures var r := Replay(existing, Events(p, existing, base));
            && (f in existing ==> f in r && r[f] == Turned(existing[f], Leaves(p, f, existing[f])))
            && (f !in existing ==> (f in r <==> f in Latest(p)) && (f in r ==> r[f] == Firing))
  {
    if p != [] {
      var k := |p| - 1;
      assert p[k] in p && forall a :: a in p[..k] ==> a in p;
      ReplayByName(p[..k], existing, base, f);
      if f in existing { LeavesExtends(p, f, existing[f]); }
      var before := Events(p[..k], existing, base);
      if ChangeOf(p[k], existing).Some? {
        assert Events(p, existing, base)[..|before|] == before;
      }
    }
  }

  // No alert the incident holds is reported as something else and then, later in
  // the same payload, as what it was.
  ghost predicate NoneComesBack(existing: map<string, Status>, p: seq<Alert>) {
    forall f :: f in existing && Leaves(p, f, existing[f]) ==>
                  f in Latest(p) && Latest(p)[f].status != existing[f]
  }

  ghost function StatusesOf(m: map<string, Alert>): map<string, Status> {
    map f | f in m :: m[f].status
  }

  lemma {:induction false} StepAt(before: map<string, Alert>, said: map<string, Alert>,
                                  fired: map<string, Alert>, snapshot: bool, at: Instant, f: string)
    ensures f in Step(before, said, fired, snapshot, at) <==> f in before || f in fired
    ensures f in before || f in fired ==>
              Step(before, said, fired, snapshot, at)[f].status ==
              if f !in before then fired[f].status else if f in said then said[f].status else before[f].status
  {
  }

  lemma {:induction false} TakeAt(before: map<string, Alert>, said: map<string, Alert>, fired: map<string, Alert>,
                                  f: string)
    ensures f in Take(before, said, fired) <==> if f in before then f in said else f in fired
    ensures f in Take(before, said, fired) ==> Take(before, said, fired)[f] == if f in before then said[f] else fired[f]
  {
  }

  lemma {:induction false} TakeStatuses(before: map<string, Alert>, said: map<string, Alert>,
                                        fired: map<string, Alert>, snapshot: bool, at: Instant)
    ensures StatusesOf(Step(before, said, fired, snapshot, at)) ==
            StatusesOf(before) + StatusesOf(Take(before, said, fired))
  {
    forall f ensures f in Step(before, said, fired, snapshot, at) <==> f in before || f in Take(before, said, fired) {
      StepAt(before, said, fired, snapshot, at, f);
      TakeAt(before, said, fired, f);
    }
    var after, taken := Step(before, said, fired, snapshot, at), Take(before, said, fired);
    forall f | f in after ensures after[f].status == if f in taken then taken[f].status else before[f].status {
      StepAt(before, said, fired, snapshot, at, f);
      TakeAt(before, said, fired, f);
    }
    OverlaidStatuses(before, taken, after);
  }

  lemma OverlaidStatuses(before: map<string, Alert>, taken: map<string, Alert>, after: map<string, Alert>)
    requires forall f :: f in after <==> f in before || f in taken
    requires forall f :: f in after ==> after[f].status == if f in taken then taken[f].status else before[f].status
    ensures StatusesOf(after) == StatusesOf(before) + StatusesOf(taken)
  {
  }

  // What a merge leaves of the statuses is the earlier ones under the later ones.
  lemma {:induction false} StatusesAfter(held: seq<Alert>, n: Notification, at: Instant)
    ensures Statuses(Effect(held, n, at).alerts) ==
            Statuses(held) + Statuses(Mergeable(n.alerts, Statuses(held)))
  {
    EffectMeaning(held, n, at);
    AcceptedByName(held, n.alerts);
    TakeStatuses(Latest(held), Latest(n.alerts), Latest(FiringOnly(n.alerts)), n.snapshot, at);
    StatusesAreThose(Effect(held, n, at).alerts);
    StatusesAreThose(held);
    StatusesAreThose(Mergeable(n.alerts, Statuses(held)));
  }

  lemma {:induction false} StatusesAreThose(s: seq<Alert>)
    ensures Statuses(s) == StatusesOf(Latest(s))
  {
  }

  lemma {:induction false} RelevantReports(p: seq<Alert>, existing: map<string, Status>)
    ensures var relevant := Mergeable(p, existing);
            && (forall f :: f in existing ==> (Leaves(relevant, f, existing[f]) <==> Leaves(p, f, existing[f])))
            && (forall f :: f in existing ==> (f in Latest(relevant) <==> f in Latest(p)))
            && (forall f :: f in existing && f in Latest(p) ==> Latest(relevant)[f] == Latest(p)[f])
  {
    MergeableIsPart(p, existing);
    forall f | f in existing
      ensures f in Latest(Mergeable(p, existing)) <==> f in Latest(p)
      ensures f in Latest(p) ==> Latest(Mergeable(p, existing))[f] == Latest(p)[f]
    {
      MergeableLatest(p, existing, f);
    }
  }

  // Reading the lines of a payload over the statuses before it gives the statuses
  // after it, exactly when nothing it names comes back to where it was.
  lemma {:induction false} TimelineReadsBack(held: seq<Alert>, n: Notification, at: Instant, base: Instant)
    requires forall a :: a in n.alerts ==> Declared(a.status)
    requires forall f :: f in Statuses(held) ==> Declared(Statuses(held)[f])
    ensures Replay(Statuses(held), Events(Effect(held, n, at).relevant, Statuses(held), base))
            == Statuses(Effect(held, n, at).alerts)
            <==> NoneComesBack(Statuses(held), n.alerts)
  {
    var existing := Statuses(held);
    var relevant := Mergeable(n.alerts, existing);
    StatusesAfter(held, n, at);
    MergeableIsPart(n.alerts, existing);
    ReplayMatches(relevant, existing, base);
    RelevantComesBack(n.alerts, existing);
  }

  lemma {:induction false} RelevantComesBack(p: seq<Alert>, existing: map<string, Status>)
    ensures NoneComesBack(existing, p) <==> NoneComesBack(existing, Mergeable(p, existing))
  {
    RelevantReports(p, existing);
  }

  lemma {:induction false} ReplayMatches(p: seq<Alert>, existing: map<string, Status>, base: Instant)
    requires forall a :: a in p ==> Declared(a.status) && Belongs(a, existing)
    requires forall g :: g in existing ==> Declared(existing[g])
    ensures Replay(existing, Events(p, existing, base)) == existing + Statuses(p) <==> NoneComesBack(existing, p)
  {
    var r := Replay(existing, Events(p, existing, base));
    var wanted := existing + Statuses(p);
    LatestIsByName(p);
    forall f ensures f in r <==> f in wanted
             ensures f in wanted ==> (r[f] == wanted[f] <==>
                       !(f in existing && Leaves(p, f, existing[f]) && f in Latest(p)
                         && Latest(p)[f].status == existing[f]))
    {
      ReplayByName(p, existing, base, f);
      if f in Latest(p) { assert Latest(p)[f] in p; }
    }
    forall f | f in existing && Leaves(p, f, existing[f]) ensures f in Latest(p) {
      var a :| a in p && a.fingerprint == f;
      assert f in Names(p);
    }
    if r == wanted {
      assert NoneComesBack(existing, p);
    }
  }

  // ---- a whole run ----------------------------------------------------------------------

  // A payload taken at an instant read under the lock, and the instant its lines are
  // stamped from: the start of the transaction that took it, which may have waited
  // for the lock, or the process clock of the request that opened the incident. The
  // three have nothing to do with one another.
  datatype Delivery = Delivery(taken: Taken, base: Instant)

  function Takings(ds: seq<Delivery>): seq<Taken> {
    seq(|ds|, i requires 0 <= i < |ds| => ds[i].taken)
  }

  // The lines an opened incident starts with: one for each alert it opened with.
  function OpeningEvents(alerts: seq<Alert>, base: Instant): seq<Event> {
    seq(|alerts|, i requires 0 <= i < |alerts| => Event(AlertAdded, alerts[i].fingerprint, base + i + 1))
  }

  // The lines one more payload writes. The store writes none for a payload that
  // neither ends the incident nor changes what it holds.
  ghost function NewLines(held: seq<Alert>, d: Delivery): seq<Event> {
    var e := Effect(held, d.taken.n, d.taken.at);
    if !e.resolving && e.alerts == held then [] else Events(e.relevant, Statuses(held), d.base)
  }

  // Every line of an incident, in the order they were written.
  ghost function Lines(ds: seq<Delivery>): seq<Event>
    requires ds != []
  {
    var k := |ds| - 1;
    if k == 0 then OpeningEvents(FiringOnly(ds[0].taken.n.alerts), ds[0].base)
    else Lines(ds[..k]) + NewLines(Held(Takings(ds[..k])), ds[k])
  }

  lemma {:induction false} ReplayConcat(m: map<string, Status>, x: seq<Event>, y: seq<Event>)
    ensures Replay(m, x + y) == Replay(Replay(m, x), y)
  {
    if y == [] {
      assert x + y == x;
    } else {
      assert (x + y)[..|x + y| - 1] == x + y[..|y| - 1];
      ReplayConcat(m, x, y[..|y| - 1]);
    }
  }

  lemma {:induction false} OpeningReadsBack(alerts: seq<Alert>, base: Instant)
    requires forall a :: a in alerts ==> a.status == Firing
    ensures Replay(map[], OpeningEvents(alerts, base)) == Statuses(alerts)
  {
    if alerts != [] {
      var k := |alerts| - 1;
      OpeningReadsBack(alerts[..k], base);
      assert OpeningEvents(alerts, base)[..k] == OpeningEvents(alerts[..k], base);
    }
  }

  lemma {:induction false} DistinctComesBackNowhere(existing: map<string, Status>, p: seq<Alert>)
    requires Distinct(p)
    ensures NoneComesBack(existing, p)
  {
    LatestOfDistinct(p);
  }

  lemma {:induction false} HeldIsDeclared(h: seq<Taken>)
    requires h != [] && forall i :: 0 <= i < |h| ==> PlainPayload(h[i].n.alerts)
    ensures forall f :: f in Statuses(Held(h)) ==> Declared(Statuses(Held(h))[f])
  {
    var k := |h| - 1;
    var p := h[k].n.alerts;
    assert PlainPayload(p);
    if k == 0 {
      MergeableIsPart(p, map[]);
      LatestIsByName(FiringOnly(p));
    } else {
      HeldIsDeclared(h[..k]);
      var existing := Statuses(Held(h[..k]));
      StatusesAfter(Held(h[..k]), h[k].n, h[k].at);
      MergeableIsPart(p, existing);
      LatestIsByName(Mergeable(p, existing));
    }
  }

  ghost predicate PlainPayload(p: seq<Alert>) {
    Distinct(p) && forall a :: a in p ==> Declared(a.status)
  }

  ghost predicate AllPlain(ds: seq<Delivery>) {
    forall i :: 0 <= i < |ds| ==> PlainPayload(ds[i].taken.n.alerts)
  }

  // Replayed in the order they were written, the lines of an incident say what state
  // each of its alerts is in.
  lemma {:induction false} WrittenOrderTells(ds: seq<Delivery>)
    requires ds != [] && AllPlain(ds)
    ensures Replay(map[], Lines(ds)) == Statuses(Held(Takings(ds)))
  {
    var k := |ds| - 1;
    assert PlainPayload(ds[k].taken.n.alerts);
    if k == 0 {
      MergeableIsPart(ds[0].taken.n.alerts, map[]);
      OpeningReadsBack(FiringOnly(ds[0].taken.n.alerts), ds[0].base);
    } else {
      WrittenOrderTells(ds[..k]);
      HeldIsDeclared(Takings(ds[..k]));
      HeldNext(ds, k);
      LinesOfOnePayload(Held(Takings(ds[..k])), ds[k], Lines(ds[..k]));
    }
  }

  lemma HeldNext(ds: seq<Delivery>, k: nat)
    requires 0 < k < |ds|
    ensures Held(Takings(ds[..k + 1])) == Effect(Held(Takings(ds[..k])), ds[k].taken.n, ds[k].taken.at).alerts
    ensures ds[..|ds|] == ds
  {
    var (all, before) := (Takings(ds[..k + 1]), Takings(ds[..k]));
    assert all[..k] == before && |all| == k + 1 && all[k] == ds[k].taken;
  }

  lemma {:induction false} LinesOfOnePayload(held: seq<Alert>, d: Delivery, lines: seq<Event>)
    requires PlainPayload(d.taken.n.alerts)
    requires forall f :: f in Statuses(held) ==> Declared(Statuses(held)[f])
    requires Replay(map[], lines) == Statuses(held)
    ensures Replay(map[], lines + NewLines(held, d)) == Statuses(Effect(held, d.taken.n, d.taken.at).alerts)
  {
    var n, at := d.taken.n, d.taken.at;
    if NewLines(held, d) == [] {
      assert lines + NewLines(held, d) == lines;
    }
    DistinctComesBackNowhere(Statuses(held), n.alerts);
    TimelineReadsBack(held, n, at, d.base);
    ReplayConcat(map[], lines, NewLines(held, d));
  }
}
