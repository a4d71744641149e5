// What one notification does to the alerts an incident holds: the filter, the
// merge, and who is still reported (internal/alertgroup/merge.go).

module Apply {
  import opened Order
  import opened Merge

  // ---- who is still reported --------------------------------------------------

  // The mark a snapshot leaves on an alert: only on a firing one it does not
  // carry, and never over a mark already standing.
  function MarkOne(a: Alert, reported: set<string>, at: Instant): Alert {
    if a.status == Firing && a.fingerprint !in reported && a.staleSince.None?
    then a.(staleSince := Some(at)) else a
  }

  function MarkedAbsent(alerts: seq<Alert>, reported: set<string>, at: Instant): seq<Alert> {
    seq(|alerts|, i requires 0 <= i < |alerts| => MarkOne(alerts[i], reported, at))
  }

  // How many alerts MarkOne changes.
  function CountMarked(alerts: seq<Alert>, reported: set<string>): nat {
    if alerts == [] then 0
    else
      var a := alerts[|alerts| - 1];
      CountMarked(alerts[..|alerts| - 1], reported)
      + if a.status == Firing && a.fingerprint !in reported && a.staleSince.None? then 1 else 0
  }

  // The instants of the silences an incident holds, by fingerprint.
  function Silences(held: seq<Alert>): map<string, Instant> {
    if held == [] then map[]
    else
      var a := held[|held| - 1];
      var m := Silences(held[..|held| - 1]);
      if a.staleSince.Some? then m[a.fingerprint := a.staleSince.value] else m
  }

  // What a payload says about the silent ones, alert by alert of the payload.
  function Returned(silent: map<string, Instant>, payload: seq<Alert>, at: Instant): seq<Reported> {
    if payload == [] then []
    else
      var a := payload[|payload| - 1];
      Returned(silent, payload[..|payload| - 1], at)
      + if a.fingerprint !in silent then []
        else [Reported(a.status, if at < silent[a.fingerprint] then 0 else at - silent[a.fingerprint])]
  }

  ghost predicate OnlyStaleHolds(alerts: seq<Alert>) {
    (forall a :: a in alerts ==> a.State() != StateFiring) && (exists a :: a in alerts && a.State() == StateStale)
  }

  ghost predicate NothingFires(alerts: seq<Alert>) {
    forall a :: a in alerts ==> a.status != Firing
  }

  // The alerts of a payload the create path keeps.
  function FiringOnly(payload: seq<Alert>): seq<Alert> {
    Mergeable(payload, map[])
  }

  // ---- the loops of the source ------------------------------------------------

  method ReportedIn(payload: seq<Alert>) returns (reported: map<string, bool>)
    ensures reported.Keys == Names(payload) && forall f :: f in reported ==> reported[f]
  {
    reported := map[];
    for i := 0 to |payload|
      invariant reported.Keys == Names(payload[..i]) && forall f :: f in reported ==> reported[f]
    {
      reported := reported[payload[i].fingerprint := true];
      assert payload[..i + 1] == payload[..i] + [payload[i]];
    }
    assert payload[..|payload|] == payload;
  }

  lemma OneMarkMore(alerts: seq<Alert>, i: nat, reported: set<string>)
    requires i < |alerts|
    ensures var a := alerts[i];
            CountMarked(alerts[..i + 1], reported) == CountMarked(alerts[..i], reported)
              + if a.status == Firing && a.fingerprint !in reported && a.staleSince.None? then 1 else 0
  {
    assert alerts[..i + 1][..i] == alerts[..i];
  }

  // The marks go into a copy: the slice handed in stays as it was.
  method MarkStale(alerts: seq<Alert>, reported: map<string, bool>, at: Instant)
    returns (out: array<Alert>, marked: nat)
    requires forall f :: f in reported ==> reported[f]
    ensures fresh(out) && out[..] == MarkedAbsent(alerts, reported.Keys, at)
    ensures marked == CountMarked(alerts, reported.Keys)
  {
    out := new Alert[|alerts|](i requires 0 <= i < |alerts| => alerts[i]);
    marked := 0;
    for i := 0 to out.Length
      invariant marked == CountMarked(alerts[..i], reported.Keys)
      invariant forall k :: 0 <= k < i ==> out[k] == MarkOne(alerts[k], reported.Keys, at)
      invariant forall k :: i <= k < out.Length ==> out[k] == alerts[k]
    {
      OneMarkMore(alerts, i, reported.Keys);
      if out[i].status != Firing || out[i].fingerprint in reported {
        continue;
      }
      if out[i].staleSince != None {
        continue;
      }
      out[i] := out[i].(staleSince := Some(at));
      marked := marked + 1;
    }
    assert alerts[..|alerts|] == alerts;
  }

  method ReportedAgain(held: seq<Alert>, payload: seq<Alert>, at: Instant) returns (back: seq<Reported>)
    ensures back == Returned(Silences(held), payload, at)
  {
    var silent: map<string, Instant> := map[];
    for i := 0 to |held|
      invariant silent == Silences(held[..i])
    {
      assert held[..i + 1][..i] == held[..i];
      if held[i].staleSince.Some? {
        silent := silent[held[i].fingerprint := held[i].staleSince.value];
      }
    }
    assert held[..|held|] == held;
    back := [];
    for i := 0 to |payload|
      invariant back == Returned(silent, payload[..i], at)
    {
      assert payload[..i + 1][..i] == payload[..i];
      if payload[i].fingerprint !in silent {
        continue;
      }
      var gap := at - silent[payload[i].fingerprint];
      if gap < 0 {
        gap := 0;
      }
      back := back + [Reported(payload[i].status, gap)];
    }
    assert payload[..|payload|] == payload;
  }

  method HeldOnlyByStale(alerts: seq<Alert>) returns (only: bool)
    ensures only <==> OnlyStaleHolds(alerts)
  {
    var stale := false;
    for i := 0 to |alerts|
      invariant forall k :: 0 <= k < i ==> alerts[k].State() != StateFiring
      invariant stale <==> exists k :: 0 <= k < i && alerts[k].State() == StateStale
    {
      match alerts[i].State()
      case StateFiring => return false;
      case StateStale => stale := true;
      case StateResolved =>
    }
    return stale;
  }

  method AllResolved(alerts: seq<Alert>) returns (over: bool)
    ensures over <==> NothingFires(alerts)
  {
    for i := 0 to |alerts|
      invariant forall k :: 0 <= k < i ==> alerts[k].status != Firing
    {
      if alerts[i].status == Firing {
        return false;
      }
    }
    return true;
  }

  // Labels are compared one way and by length, which is enough.
  method SameStrings(x: map<string, string>, y: map<string, string>) returns (same: bool)
    ensures same <==> x == y
  {
    if |x| != |y| {
      return false;
    }
    var rest := x.Keys;
    while rest != {}
      invariant rest <= x.Keys
      invariant forall k :: k in x.Keys - rest ==> k in y && y[k] == x[k]
      decreases |rest|
    {
      var k :| k in rest;
      if k !in y || y[k] != x[k] {
        return false;
      }
      rest := rest - {k};
    }
    SubsetOfSameSize(x.Keys, y.Keys);
    return true;
  }

  method SameAlerts(a: seq<Alert>, b: seq<Alert>) returns (same: bool)
    ensures same <==> a == b
  {
    if |a| != |b| {
      return false;
    }
    for i := 0 to |a|
      invariant a[..i] == b[..i]
    {
      var one := SameAlert(a[i], b[i]);
      if !one {
        return false;
      }
    }
    assert a[..|a|] == a && b[..|b|] == b;
    return true;
  }

  method SameAlert(x: Alert, y: Alert) returns (same: bool)
    ensures same <==> x == y
  {
    var labels := SameStrings(x.labels, y.labels);
    var annotations := SameStrings(x.annotations, y.annotations);
    same := x.fingerprint == y.fingerprint && x.status == y.status && x.staleSince == y.staleSince
            && x.generatorURL == y.generatorURL && x.startsAt == y.startsAt && x.endsAt == y.endsAt
            && labels && annotations;
  }

  lemma SubsetOfSameSize(s: set<string>, t: set<string>)
    requires s <= t && |s| == |t|
    ensures s == t
  {
    assert |t - s| == |t| - |s|;
  }

  // ---- the whole effect of a notification --------------------------------------

  ghost function Effect(held: seq<Alert>, n: Notification, at: Instant): Applied {
    var relevant := Mergeable(n.alerts, Statuses(held));
    var merged := Merged(held, relevant);
    var alerts := if n.snapshot then MarkedAbsent(merged, Names(n.alerts), at) else merged;
    Applied(
      alerts, relevant, NothingFires(alerts),
      if n.snapshot then CountMarked(merged, Names(n.alerts)) else 0,
      Returned(Silences(held), n.alerts, at),
      !OnlyStaleHolds(held) && OnlyStaleHolds(alerts))
  }

  method Apply(held: seq<Alert>, n: Notification, at: Instant) returns (applied: Applied)
    ensures applied == Effect(held, n, at)
  {
    var existing := FingerprintsOf(held);
    var relevant := FilterMergeable(n.alerts, existing);
    var alerts := MergeAlerts(held, relevant);
    var back := ReportedAgain(held, n.alerts, at);
    var heldBefore := HeldOnlyByStale(held);
    var marked := 0;
    if n.snapshot {
      var reported := ReportedIn(n.alerts);
      var copy;
      copy, marked := MarkStale(alerts, reported, at);
      alerts := copy[..];
    }
    var resolving := AllResolved(alerts);
    var heldAfter := HeldOnlyByStale(alerts);
    applied := Applied(alerts, relevant, resolving, marked, back, !heldBefore && heldAfter);
  }

  // ---- the effect, fingerprint by fingerprint -----------------------------------

  // What one incident takes from a payload, by fingerprint.
  ghost function Accepted(held: seq<Alert>, payload: seq<Alert>): map<string, Alert> {
    Latest(Mergeable(payload, Statuses(held)))
  }

  // An incident that knows a fingerprint takes the payload's last entry for it;
  // one that does not takes the last FIRING entry, if there is one.
  lemma {:induction false} AcceptedMeaning(held: seq<Alert>, payload: seq<Alert>, f: string)
    ensures f in Latest(held) ==>
              (f in Accepted(held, payload) <==> f in Latest(payload))
              && (f in Latest(payload) ==> Accepted(held, payload)[f] == Latest(payload)[f])
    ensures f !in Latest(held) ==>
              (f in Accepted(held, payload) <==> f in Latest(FiringOnly(payload)))
              && (f in Latest(FiringOnly(payload)) ==>
                    Accepted(held, payload)[f] == Latest(FiringOnly(payload))[f])
  {
    MergeableLatest(payload, Statuses(held), f);
    MergeableLatest(payload, map[], f);
  }

  lemma {:induction false} MergeableLatest(payload: seq<Alert>, existing: map<string, Status>, f: string)
    ensures f in existing ==> (f in Latest(Mergeable(payload, existing)) <==> f in Latest(payload))
    ensures f in existing && f in Latest(payload) ==> Latest(Mergeable(payload, existing))[f] == Latest(payload)[f]
    ensures f !in existing ==>
              (f in Latest(Mergeable(payload, existing)) <==> f in Latest(FiringOnly(payload)))
              && (f in Latest(FiringOnly(payload)) ==>
                    Latest(Mergeable(payload, existing))[f] == Latest(FiringOnly(payload))[f])
  {
    if payload != [] {
      var n := |payload| - 1;
      MergeableLatest(payload[..n], existing, f);
      OneEntryMore(payload, existing);
      OneEntryMore(payload, map[]);
    }
  }

  lemma OneEntryMore(payload: seq<Alert>, existing: map<string, Status>)
    requires payload != []
    ensures var a, before := payload[|payload| - 1], Latest(Mergeable(payload[..|payload| - 1], existing));
            Latest(Mergeable(payload, existing)) == if Belongs(a, existing) then before[a.fingerprint := a] else before
  {
    var a, front := payload[|payload| - 1], Mergeable(payload[..|payload| - 1], existing);
    assert front + [] == front && (front + [a])[..|front|] == front;
  }

  lemma {:induction false} MergeableIsPart(payload: seq<Alert>, existing: map<string, Status>)
    ensures forall a :: a in Mergeable(payload, existing) <==> a in payload && Belongs(a, existing)
    ensures |Mergeable(payload, existing)| <= |payload|
  {
    if payload != [] {
      var n := |payload| - 1;
      MergeableIsPart(payload[..n], existing);
      assert payload == payload[..n] + [payload[n]];
    }
  }

  lemma {:induction false} MergeableInOrder(p: seq<Alert>, q: seq<Alert>, existing: map<string, Status>)
    ensures Mergeable(p + q, existing) == Mergeable(p, existing) + Mergeable(q, existing)
  {
    if q == [] {
      assert p + q == p;
    } else {
      assert (p + q)[..|p + q| - 1] == p + q[..|q| - 1];
      MergeableInOrder(p, q[..|q| - 1], existing);
    }
  }

  // What merges is every entry of the payload about an alert the incident holds, and
  // every firing one...
  lemma {:induction false} RelevantBelongs(held: seq<Alert>, n: Notification, at: Instant, a: Alert)
    ensures a in Effect(held, n, at).relevant <==>
              a in n.alerts && (a.status == Firing || exists b :: b in held && b.fingerprint == a.fingerprint)
    ensures |Effect(held, n, at).relevant| <= |n.alerts|
  {
    MergeableIsPart(n.alerts, Statuses(held));
    LatestIsByName(held);
    if b :| b in held && b.fingerprint == a.fingerprint { assert a.fingerprint in Names(held); }
  }

  // ...one payload after another, in the order they came and as often.
  lemma {:induction false} RelevantInOrder(held: seq<Alert>, n: Notification, more: seq<Alert>, at: Instant)
    ensures Effect(held, n.(alerts := n.alerts + more), at).relevant ==
            Effect(held, n, at).relevant + Effect(held, n.(alerts := more), at).relevant
  {
    MergeableInOrder(n.alerts, more, Statuses(held));
  }

  // A merge is canonical and says, of each fingerprint, what was said last.
  lemma MergedMeaning(existing: seq<Alert>, incoming: seq<Alert>)
    ensures Canonical(Merged(existing, incoming))
    ensures Latest(Merged(existing, incoming)) == Latest(existing) + Latest(incoming)
  {
    LastOnlyIsDistinct(existing + incoming);
    LastOnlyKeepsLatest(existing + incoming);
    SortKeepsDistinct(LastOnly(existing + incoming));
    LatestOfConcat(existing, incoming);
  }

  lemma {:induction false} MarkingByName(s: seq<Alert>, reported: set<string>, at: Instant)
    ensures Latest(MarkedAbsent(s, reported, at)).Keys == Latest(s).Keys
    ensures forall f :: f in Latest(s) ==>
              Latest(MarkedAbsent(s, reported, at))[f] == MarkOne(Latest(s)[f], reported, at)
  {
    if s != [] {
      var n := |s| - 1;
      MarkingByName(s[..n], reported, at);
      assert MarkedAbsent(s, reported, at)[..n] == MarkedAbsent(s[..n], reported, at);
    }
  }

  lemma MarkingKeepsOrder(s: seq<Alert>, reported: set<string>, at: Instant)
    requires Canonical(s)
    ensures Canonical(MarkedAbsent(s, reported, at))
  {
    var t := MarkedAbsent(s, reported, at);
    forall i, j | 0 <= i < j < |t| ensures BY_START(t[i], t[j]) {
      assert BY_START(s[i], s[j]);
    }
  }

  // A firing alert a snapshot does not carry has been silent since the snapshot.
  function Silenced(a: Alert, snapshot: bool, at: Instant): Alert {
    if snapshot && a.status == Firing && a.staleSince.None? then a.(staleSince := Some(at)) else a
  }

  // A notification, read fingerprint by fingerprint: what it said of those the
  // incident holds, and the firing ones it opens.
  function Step(before: map<string, Alert>, said: map<string, Alert>, fired: map<string, Alert>,
                snapshot: bool, at: Instant): map<string, Alert>
  {
    map f | f in before.Keys + fired.Keys ::
      if f !in before then fired[f]
      else if f in said then said[f]
      else Silenced(before[f], snapshot, at)
  }

  // What an incident takes from a payload, as one map.
  function Take(before: map<string, Alert>, said: map<string, Alert>, fired: map<string, Alert>): map<string, Alert> {
    map f | f in said.Keys + fired.Keys && f in (if f in before then said else fired) ::
      if f in before then said[f] else fired[f]
  }

  lemma {:induction false} AcceptedByName(held: seq<Alert>, p: seq<Alert>)
    ensures Accepted(held, p) == Take(Latest(held), Latest(p), Latest(FiringOnly(p)))
  {
    var taken := Take(Latest(held), Latest(p), Latest(FiringOnly(p)));
    forall f ensures f in Accepted(held, p) <==> f in taken
             ensures f in taken ==> Accepted(held, p)[f] == taken[f]
    {
      AcceptedMeaning(held, p, f);
    }
  }

  lemma {:induction false} TakeIsStep(before: map<string, Alert>, said: map<string, Alert>, fired: map<string, Alert>)
    ensures before + Take(before, said, fired) == Step(before, said, fired, false, 0)
  {
  }

  lemma {:induction false} MergedByName(held: seq<Alert>, p: seq<Alert>)
    ensures Canonical(Merged(held, Mergeable(p, Statuses(held))))
    ensures Latest(Merged(held, Mergeable(p, Statuses(held)))) ==
            Step(Latest(held), Latest(p), Latest(FiringOnly(p)), false, 0)
  {
    MergedMeaning(held, Mergeable(p, Statuses(held)));
    AcceptedByName(held, p);
    TakeIsStep(Latest(held), Latest(p), Latest(FiringOnly(p)));
  }

  lemma {:induction false} MarkingIsStep(before: map<string, Alert>, said: map<string, Alert>,
                                         fired: map<string, Alert>, at: Instant, marked: map<string, Alert>)
    requires fired.Keys <= said.Keys
    requires forall f :: f in before ==> before[f].fingerprint == f
    requires forall f :: f in said ==> said[f].fingerprint == f
    requires forall f :: f in fired ==> fired[f].fingerprint == f
    requires var merged := Step(before, said, fired, false, 0);
             && marked.Keys == merged.Keys
             && forall f :: f in merged ==> marked[f] == MarkOne(merged[f], said.Keys, at)
    ensures marked == Step(before, said, fired, true, at)
  {
  }

  lemma {:induction false} StepNeedsNoInstant(before: map<string, Alert>, said: map<string, Alert>,
                                              fired: map<string, Alert>, at: Instant)
    ensures Step(before, said, fired, false, at) == Step(before, said, fired, false, 0)
  {
  }

  // The one-step meaning everything about runs is built on.
  lemma {:induction false} EffectMeaning(held: seq<Alert>, n: Notification, at: Instant)
    ensures Canonical(Effect(held, n, at).alerts)
    ensures Latest(Effect(held, n, at).alerts) ==
            Step(Latest(held), Latest(n.alerts), Latest(FiringOnly(n.alerts)), n.snapshot, at)
  {
    var merged := Merged(held, Mergeable(n.alerts, Statuses(held)));
    MergedByName(held, n.alerts);
    if n.snapshot {
      MarkedMeaning(held, n.alerts, merged, at);
    } else {
      StepNeedsNoInstant(Latest(held), Latest(n.alerts), Latest(FiringOnly(n.alerts)), at);
    }
  }

  lemma {:induction false} MarkedMeaning(held: seq<Alert>, p: seq<Alert>, merged: seq<Alert>, at: Instant)
    requires Canonical(merged)
    requires Latest(merged) == Step(Latest(held), Latest(p), Latest(FiringOnly(p)), false, 0)
    ensures Canonical(MarkedAbsent(merged, Names(p), at))
    ensures Latest(MarkedAbsent(merged, Names(p), at)) ==
            Step(Latest(held), Latest(p), Latest(FiringOnly(p)), true, at)
  {
    MarkingKeepsOrder(merged, Names(p), at);
    MarkingByName(merged, Names(p), at);
    LatestIsByName(p);
    LatestIsByName(held);
    LatestIsByName(FiringOnly(p));
    assert Latest(FiringOnly(p)).Keys <= Latest(p).Keys by {
      MergeableIsPart(p, map[]);
    }
    MarkingIsStep(Latest(held), Latest(p), Latest(FiringOnly(p)), at, Latest(MarkedAbsent(merged, Names(p), at)));
  }

  // An incident is over when its entries, read by fingerprint, are.
  lemma NothingFiresByName(s: seq<Alert>)
    requires Distinct(s)
    ensures NothingFires(s) <==> forall f :: f in Latest(s) ==> Latest(s)[f].status != Firing
  {
    LatestOfDistinct(s);
    LatestIsByName(s);
  }
}
