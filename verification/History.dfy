// What an incident holds is a statement about the whole history of payloads it
// was sent, although each payload is applied to nothing but the alerts held at
// that moment (internal/alertgroup/merge.go).

module History {
  import opened Order
  import opened Merge
  import opened Apply

  // A payload, and the instant it was taken at under the lock on the incident.
  datatype Taken = Taken(n: Notification, at: Instant)

  // The alerts an incident holds after a history: the first payload opened it,
  // with its firing alerts alone, and each later one was applied in turn.
  ghost function Held(h: seq<Taken>): seq<Alert>
    requires h != []
  {
    var last := h[|h| - 1];
    if |h| == 1 then FiringOnly(last.n.alerts) else Effect(Held(h[..|h| - 1]), last.n, last.at).alerts
  }

  ghost predicate AllUnmarked(h: seq<Taken>) {
    forall i :: 0 <= i < |h| ==> Unmarked(h[i].n.alerts)
  }

  // ---- the declarative reading of a history ------------------------------------

  predicate Named(p: seq<Alert>, f: string) {
    exists a :: a in p && a.fingerprint == f
  }

  predicate FiresIn(p: seq<Alert>, f: string) {
    exists a :: a in p && a.fingerprint == f && a.status == Firing
  }

  ghost predicate EverFired(h: seq<Taken>, f: string) {
    exists i :: 0 <= i < |h| && FiresIn(h[i].n.alerts, f)
  }

  // What payload i reports of f. Before f has fired at all, only a firing entry
  // is a report: whatever else a payload says about f is about an earlier incident.
  ghost function ReportIn(h: seq<Taken>, i: nat, f: string): Option<Alert>
    requires i < |h|
  {
    var p := h[i].n.alerts;
    var said := if EverFired(h[..i], f) then Latest(p) else Latest(FiringOnly(p));
    if f in said then Some(said[f]) else None
  }

  ghost predicate LastReport(h: seq<Taken>, i: nat, f: string)
    requires i < |h|
  {
    ReportIn(h, i, f).Some? && forall j :: i < j < |h| ==> ReportIn(h, j, f).None?
  }

  // The instant of the first snapshot from position i on.
  function FirstSnapshot(h: seq<Taken>, i: nat): Option<Instant>
    decreases |h| - i
  {
    if i >= |h| then None
    else if h[i].n.snapshot then Some(h[i].at)
    else FirstSnapshot(h, i + 1)
  }

  // An entry as the history leaves it: the mark is when the silence began.
  ghost function AsLeft(h: seq<Taken>, i: nat, a: Alert): Alert {
    a.(staleSince := if a.status == Firing then FirstSnapshot(h, i + 1) else None)
  }

  // ---- the refinement ------------------------------------------------------------

  lemma {:induction false} FirstSnapshotExtends(h: seq<Taken>, i: nat)
    requires h != [] && i < |h|
    ensures FirstSnapshot(h, i) ==
            var before := FirstSnapshot(h[..|h| - 1], i);
            var last := h[|h| - 1];
            if before.Some? then before else if last.n.snapshot then Some(last.at) else None
    decreases |h| - i
  {
    if i < |h| - 1 && !h[i].n.snapshot { FirstSnapshotExtends(h, i + 1); }
  }

  lemma FiringEntries(p: seq<Alert>, f: string)
    ensures f in Latest(FiringOnly(p)) <==> FiresIn(p, f)
    ensures f in Latest(p) <==> Named(p, f)
    ensures f in Latest(FiringOnly(p)) ==> Latest(FiringOnly(p))[f] in p && Latest(FiringOnly(p))[f].status == Firing
    ensures f in Latest(p) ==> Latest(p)[f] in p
  {
    LatestIsByName(p);
    LatestIsByName(FiringOnly(p));
    MergeableIsPart(p, map[]);
  }

  // The last payload of a history either reports f, and then decides it, or
  // leaves f as it was except for the mark a snapshot puts on its silence.
  lemma {:induction false} LastStep(h: seq<Taken>, f: string)
    requires |h| > 1
    requires f in Latest(Held(h[..|h| - 1])) <==> EverFired(h[..|h| - 1], f)
    ensures var k := |h| - 1;
            var before := Latest(Held(h[..k]));
            var after := Latest(Held(h));
            var said := ReportIn(h, k, f);
            && (said.Some? ==> f in after && after[f] == said.value && said.value in h[k].n.alerts)
            && (said.None? ==> (f in after <==> f in before) && !(f in before && Named(h[k].n.alerts, f)))
            && (said.None? && f in before ==>
                  after[f] == if h[k].n.snapshot && before[f].status == Firing && before[f].staleSince.None?
                              then before[f].(staleSince := Some(h[k].at)) else before[f])
  {
    var k := |h| - 1;
    var p := h[k].n.alerts;
    var g := h[..k];
    FiringEntries(p, f);
    EffectMeaning(Held(g), h[k].n, h[k].at);
    AcceptedMeaning(Held(g), p, f);
    LatestIsByName(Held(g));
    LatestIsByName(p);
    assert Held(h) == Effect(Held(g), h[k].n, h[k].at).alerts;
  }

  lemma {:induction false} EverFiredExtends(h: seq<Taken>, f: string)
    requires h != []
    ensures EverFired(h, f) <==> EverFired(h[..|h| - 1], f) || FiresIn(h[|h| - 1].n.alerts, f)
  {
    var g := h[..|h| - 1];
    if i :| 0 <= i < |h| && FiresIn(h[i].n.alerts, f) {
      if i < |g| { assert FiresIn(g[i].n.alerts, f); }
    }
    if i :| 0 <= i < |g| && FiresIn(g[i].n.alerts, f) { assert FiresIn(h[i].n.alerts, f); }
  }

  lemma ReportInPrefix(h: seq<Taken>, k: nat, i: nat, f: string)
    requires i < k <= |h|
    ensures ReportIn(h[..k], i, f) == ReportIn(h, i, f)
  {
    assert h[..k][..i] == h[..i];
  }

  // A payload that reports nothing of f leaves its last report where it was.
  lemma {:induction false} LastReportExtends(h: seq<Taken>, f: string, i: nat)
    requires i < |h| - 1 && ReportIn(h, |h| - 1, f).None?
    ensures LastReport(h, i, f) <==> LastReport(h[..|h| - 1], i, f)
    ensures ReportIn(h, i, f) == ReportIn(h[..|h| - 1], i, f)
  {
    var k := |h| - 1;
    forall j | i <= j < k ensures ReportIn(h[..k], j, f) == ReportIn(h, j, f) { ReportInPrefix(h, k, j, f); }
    if LastReport(h[..k], i, f) {
      forall j | i < j < |h| ensures ReportIn(h, j, f).None? {}
    }
  }

  // Whether a fingerprint is held, and then what decides it.
  lemma {:induction false} HeldIffEverFired(h: seq<Taken>, f: string)
    requires h != []
    ensures f in Latest(Held(h)) <==> EverFired(h, f)
    ensures EverFired(h, f) ==> exists i :: 0 <= i < |h| && LastReport(h, i, f)
  {
    var k := |h| - 1;
    FiringEntries(h[k].n.alerts, f);
    EverFiredExtends(h, f);
    if k == 0 {
      assert ReportIn(h, 0, f).Some? ==> LastReport(h, 0, f);
    } else {
      HeldIffEverFired(h[..k], f);
      LastStep(h, f);
      if ReportIn(h, k, f).Some? {
        assert LastReport(h, k, f);
      } else if EverFired(h, f) {
        var i :| 0 <= i < k && LastReport(h[..k], i, f);
        LastReportExtends(h, f, i);
      }
    }
  }

  // What a fingerprint has come to, after any history whatever: held if and only
  // if it ever fired, as last reported, marked from the first snapshot that went
  // out without it.
  lemma {:induction false} HistoryDecides(h: seq<Taken>, f: string, i: nat)
    requires AllUnmarked(h) && i < |h| && LastReport(h, i, f)
    ensures EverFired(h, f) && f in Latest(Held(h))
    ensures Latest(Held(h))[f] == AsLeft(h, i, ReportIn(h, i, f).value)
  {
    var k := |h| - 1;
    HeldIffEverFired(h, f);
    FiringEntries(h[k].n.alerts, f);
    if k > 0 {
      HeldIffEverFired(h[..k], f);
      LastStep(h, f);
    }
    if i == k {
      DecidedNow(h, f);
    } else {
      LastReportExtends(h, f, i);
      HistoryDecides(h[..k], f, i);
      DecidedBefore(h, f, i, ReportIn(h, i, f).value);
    }
  }

  // The last payload reports f, so it decides.
  lemma {:induction false} DecidedNow(h: seq<Taken>, f: string)
    requires AllUnmarked(h) && h != [] && ReportIn(h, |h| - 1, f).Some? && f in Latest(Held(h))
    requires |h| > 1 ==> (f in Latest(Held(h[..|h| - 1])) <==> EverFired(h[..|h| - 1], f))
    ensures Latest(Held(h))[f] == AsLeft(h, |h| - 1, ReportIn(h, |h| - 1, f).value)
  {
    var k := |h| - 1;
    assert Unmarked(h[k].n.alerts);
    FiringEntries(h[k].n.alerts, f);
    if k > 0 { LastStep(h, f); }
  }

  // The last payload does not, so what was said before stands, but for a mark.
  lemma {:induction false} DecidedBefore(h: seq<Taken>, f: string, i: nat, a: Alert)
    requires |h| > 1 && i < |h| - 1 && ReportIn(h, |h| - 1, f).None?
    requires f in Latest(Held(h)) && f in Latest(Held(h[..|h| - 1]))
    requires f in Latest(Held(h[..|h| - 1])) <==> EverFired(h[..|h| - 1], f)
    requires Latest(Held(h[..|h| - 1]))[f] == AsLeft(h[..|h| - 1], i, a)
    ensures Latest(Held(h))[f] == AsLeft(h, i, a)
  {
    LastStep(h, f);
    FirstSnapshotExtends(h, i + 1);
  }

  // A payload that names each fingerprint once says one thing about it, and the
  // last payload to name f at all decides: absence is never a report.
  lemma {:induction false} LastNamingDecides(h: seq<Taken>, i: nat, a: Alert)
    requires h != [] && AllUnmarked(h) && i < |h|
    requires forall j :: 0 <= j < |h| ==> Distinct(h[j].n.alerts)
    requires a in h[i].n.alerts && EverFired(h, a.fingerprint)
    requires forall j :: i < j < |h| ==> !Named(h[j].n.alerts, a.fingerprint)
    ensures a.fingerprint in Latest(Held(h)) && Latest(Held(h))[a.fingerprint] == AsLeft(h, i, a)
  {
    var f := a.fingerprint;
    LatestOfDistinct(h[i].n.alerts);
    FiringEntries(h[i].n.alerts, f);
    if !EverFired(h[..i], f) {
      forall j | 0 <= j < i ensures !FiresIn(h[j].n.alerts, f) { assert h[..i][j] == h[j]; }
      var b := Latest(FiringOnly(h[i].n.alerts))[f];
      assert b in h[i].n.alerts && b.fingerprint == f by { LatestIsByName(FiringOnly(h[i].n.alerts)); }
    }
    forall j | i < j < |h| ensures ReportIn(h, j, f).None? {
      FiringEntries(h[j].n.alerts, f);
      MergeableIsPart(h[j].n.alerts, map[]);
    }
    assert LastReport(h, i, f);
    HistoryDecides(h, f, i);
  }

  // An incident ends exactly when everything that ever fired in it was last
  // reported as something other than firing.
  lemma {:induction false} ResolvesExactly(h: seq<Taken>)
    requires |h| > 1 && AllUnmarked(h)
    ensures var last := h[|h| - 1];
            Effect(Held(h[..|h| - 1]), last.n, last.at).resolving <==>
            forall f, i :: 0 <= i < |h| && EverFired(h, f) && LastReport(h, i, f) ==>
                             ReportIn(h, i, f).value.status != Firing
  {
    var last := h[|h| - 1];
    EffectMeaning(Held(h[..|h| - 1]), last.n, last.at);
    NothingFiresByName(Held(h));
    forall f ensures f in Latest(Held(h)) <==> EverFired(h, f) { HeldIffEverFired(h, f); }
    if NothingFires(Held(h)) {
      forall f, i | 0 <= i < |h| && EverFired(h, f) && LastReport(h, i, f)
        ensures ReportIn(h, i, f).value.status != Firing
      {
        HistoryDecides(h, f, i);
      }
    } else {
      var f :| f in Latest(Held(h)) && Latest(Held(h))[f].status == Firing;
      HeldIffEverFired(h, f);
      var i :| 0 <= i < |h| && LastReport(h, i, f);
      HistoryDecides(h, f, i);
      assert ReportIn(h, i, f).value.status == Firing;
    }
  }

  // ---- why each fingerprint must be named once ------------------------------------

  function Plain(f: string, status: Status): Alert {
    Alert(f, status, map[], map[], 0, 0, "", None)
  }

  // Two entries for one unknown alert: the first time the resolved one is not the
  // incident's, the second time it is. The last entry of the payload does not
  // decide, and the repeat of a payload is news.
  lemma NamedTwiceIsNotARepeat(f: string, at: Instant)
    ensures var n := Notification([Plain(f, Firing), Plain(f, Resolved)], true);
            var once := Effect([], n, at).alerts;
            && once == [Plain(f, Firing)]
            && Effect(once, n, at).alerts == [Plain(f, Resolved)]
  {
    FirstTimeFires(Plain(f, Firing), Plain(f, Resolved), at);
    SecondTimeClears(Plain(f, Firing), Plain(f, Resolved), at);
  }

  lemma FirstTimeFires(a: Alert, b: Alert, at: Instant)
    requires a.status == Firing && b.status != Firing
    ensures Effect([], Notification([a, b], true), at).alerts == [a]
  {
    assert [a, b][0] in [a, b] && a.fingerprint in Names([a, b]);
    PairEntries(a, b, Statuses([]));
    assert Mergeable([a, b], Statuses([])) == [a];
    SingleEntry(a);
    assert [] + [a] == [a];
    ReportedIsNotMarked([a], Names([a, b]), at);
  }

  lemma SecondTimeClears(a: Alert, b: Alert, at: Instant)
    requires a.fingerprint == b.fingerprint
    ensures Effect([a], Notification([a, b], true), at).alerts == [b]
  {
    assert [a, b][0] in [a, b] && b.fingerprint in Names([a, b]);
    SingleEntry(a);
    SingleEntry(b);
    PairEntries(a, b, Statuses([a]));
    assert Mergeable([a, b], Statuses([a])) == [a, b];
    var s := [a] + [a, b];
    assert s[1..] == [a, b] && [a, b][1..] == [b] && [b][0] in [b];
    assert LastOnly(s) == LastOnly([a, b]) == LastOnly([b]);
    ReportedIsNotMarked([b], Names([a, b]), at);
  }

  lemma ReportedIsNotMarked(s: seq<Alert>, reported: set<string>, at: Instant)
    requires forall a :: a in s ==> a.fingerprint in reported
    ensures MarkedAbsent(s, reported, at) == s
  {
  }

  lemma PairEntries(a: Alert, b: Alert, existing: map<string, Status>)
    ensures Mergeable([a, b], existing) ==
            (if Belongs(a, existing) then [a] else []) + (if Belongs(b, existing) then [b] else [])
  {
    assert [a, b][..1] == [a] && [a][..0] == [];
    assert Mergeable([a], existing) == [] + if Belongs(a, existing) then [a] else [];
  }

  lemma SingleEntry(a: Alert)
    ensures Latest([a]) == map[a.fingerprint := a]
    ensures LastOnly([a]) == [a] && Sort(BY_START, [a]) == [a]
  {
    assert [a][..0] == [] && [a][1..] == [];
    assert Sort(BY_START, [a][1..]) == [];
  }
}
