// Marks are conserved: what is stale now is what was marked less what came back
// (internal/alertgroup/merge.go).

module Staleness {
  import opened Order
  import opened Merge
  import opened Apply
  import opened History
  import opened MergeLaws

  ghost function StaleNames(m: map<string, Alert>): set<string> {
    set f | f in m && m[f].State() == StateStale
  }

  ghost function MarkNames(m: map<string, Alert>, reported: set<string>): set<string> {
    set f | f in m && Markable(m[f], reported)
  }

  // A mark stands only on a firing alert; and a set that lists a fingerprint
  // twice - one an incident was opened with - carries no mark yet.
  ghost predicate Orderly(held: seq<Alert>) {
    && (forall a :: a in held && a.staleSince.Some? ==> a.status == Firing)
    && (Distinct(held) || Unmarked(held))
  }

  // No silent alert is named twice in the payload.
  ghost predicate NamedOnce(silent: set<string>, p: seq<Alert>) {
    forall i, j :: 0 <= i < j < |p| && p[i].fingerprint == p[j].fingerprint ==> p[i].fingerprint !in silent
  }

  lemma MarkOneMore(m: map<string, Alert>, a: Alert, reported: set<string>)
    requires a.fingerprint !in m
    ensures MarkNames(m[a.fingerprint := a], reported) ==
            MarkNames(m, reported) + if Markable(a, reported) then {a.fingerprint} else {}
    ensures a.fingerprint !in MarkNames(m, reported)
  {
  }

  lemma {:induction false} CountMarkedIsSet(s: seq<Alert>, reported: set<string>)
    requires Distinct(s)
    ensures CountMarked(s, reported) == |MarkNames(Latest(s), reported)|
  {
    if s != [] {
      var k := |s| - 1;
      CountMarkedIsSet(s[..k], reported);
      LatestIsByName(s[..k]);
      assert s[k].fingerprint !in Names(s[..k]);
      MarkOneMore(Latest(s[..k]), s[k], reported);
    }
  }

  // The same, entry by entry.
  predicate NoReturnTwice(silent: set<string>, p: seq<Alert>) {
    p == [] ||
    (var k := |p| - 1;
     NoReturnTwice(silent, p[..k]) && !(p[k].fingerprint in silent && p[k].fingerprint in Names(p[..k])))
  }

  lemma {:induction false} NamedOnceByEntry(silent: set<string>, p: seq<Alert>)
    ensures NoReturnTwice(silent, p) <==> NamedOnce(silent, p)
  {
    if p != [] {
      NamedOnceByEntry(silent, p[..|p| - 1]);
      OneEntryMore(silent, p[..|p| - 1], p[|p| - 1]);
      assert p == p[..|p| - 1] + [p[|p| - 1]];
    }
  }

  lemma {:induction false} OneEntryMore(silent: set<string>, p: seq<Alert>, a: Alert)
    ensures NamedOnce(silent, p + [a]) <==>
              NamedOnce(silent, p) && !(a.fingerprint in silent && a.fingerprint in Names(p))
  {
    var q := p + [a];
    forall i | 0 <= i < |p| ensures q[i] == p[i] {}
    assert q[|p|] == a;
    if NamedOnce(silent, q) {
      forall i | 0 <= i < |p| && p[i].fingerprint == a.fingerprint ensures a.fingerprint !in silent {
        assert q[i].fingerprint == q[|p|].fingerprint;
      }
      assert NamedOnce(silent, p) by {
        forall i, j | 0 <= i < j < |p| && p[i].fingerprint == p[j].fingerprint ensures p[i].fingerprint !in silent {
          assert q[i].fingerprint == q[j].fingerprint;
        }
      }
    }
    if NamedOnce(silent, p) && !(a.fingerprint in silent && a.fingerprint in Names(p)) {
      forall i, j | 0 <= i < j < |q| && q[i].fingerprint == q[j].fingerprint ensures q[i].fingerprint !in silent {
        assert p[i] in p;
        if j < |p| { assert p[i].fingerprint == p[j].fingerprint; }
      }
    }
  }

  lemma {:induction false} ReturnedCount(silent: map<string, Instant>, p: seq<Alert>, at: Instant)
    ensures |Returned(silent, p, at)| >= |silent.Keys * Names(p)|
    ensures |Returned(silent, p, at)| == |silent.Keys * Names(p)| <==> NoReturnTwice(silent.Keys, p)
  {
    if p != [] {
      var k := |p| - 1;
      ReturnedCount(silent, p[..k], at);
      NamesExtend(p);
      NamesOneMore(silent.Keys, Names(p[..k]), p[k].fingerprint);
      ReturnedOneMore(silent, p, at);
    }
  }

  lemma {:induction false} ReturnedOneMore(silent: map<string, Instant>, p: seq<Alert>, at: Instant)
    requires p != []
    ensures |Returned(silent, p, at)| ==
            |Returned(silent, p[..|p| - 1], at)| + if p[|p| - 1].fingerprint in silent then 1 else 0
  {
  }

  lemma {:induction false} NamesExtend(p: seq<Alert>)
    requires p != []
    ensures Names(p) == Names(p[..|p| - 1]) + {p[|p| - 1].fingerprint}
  {
    assert p == p[..|p| - 1] + [p[|p| - 1]];
  }

  lemma {:induction false} NamesOneMore(silent: set<string>, names: set<string>, f: string)
    ensures |silent * (names + {f})| == |silent * names| + if f in silent && f !in names then 1 else 0
  {
    if f in silent && f !in names {
      assert silent * (names + {f}) == silent * names + {f};
    } else {
      assert silent * (names + {f}) == silent * names;
    }
  }

  lemma {:induction false} SilencesAreStale(held: seq<Alert>)
    requires Orderly(held)
    ensures Silences(held).Keys == StaleNames(Latest(held))
  {
    LatestIsByName(held);
    if Distinct(held) { SilencesByName(held); } else { NoSilences(held); }
  }

  // The names that are stale after a step, from those before it.
  lemma {:induction false} StaleAfterStep(before: map<string, Alert>, said: map<string, Alert>,
                                          fired: map<string, Alert>, snapshot: bool, at: Instant)
    requires Sayings(said, fired)
    requires forall f :: f in before ==> before[f].fingerprint == f
    requires forall f :: f in said ==> said[f].fingerprint == f
    requires forall f :: f in fired ==> fired[f].fingerprint == f
    ensures var marked := if snapshot then MarkNames(Step(before, said, fired, false, 0), said.Keys) else {};
            && StaleNames(Step(before, said, fired, snapshot, at)) == (StaleNames(before) - said.Keys) + marked
            && marked !! StaleNames(before)
  {
  }

  lemma {:induction false} StepMarksFiring(before: map<string, Alert>, said: map<string, Alert>,
                                           fired: map<string, Alert>, snapshot: bool, at: Instant)
    requires Sayings(said, fired)
    requires forall f :: f in before && before[f].staleSince.Some? ==> before[f].status == Firing
    ensures var after := Step(before, said, fired, snapshot, at);
            forall f :: f in after && after[f].staleSince.Some? ==>
                          && after[f].status == Firing
                          && (after[f].staleSince.value == at
                             || (f in before && before[f].staleSince == after[f].staleSince))
  {
  }

  lemma {:induction false} StepStaysOrderly(held: seq<Alert>, n: Notification, at: Instant)
    requires Orderly(held) && Unmarked(n.alerts)
    ensures Orderly(Effect(held, n, at).alerts)
  {
    var after := Effect(held, n, at).alerts;
    EffectMeaning(held, n, at);
    PayloadSayings(n.alerts);
    LatestIsByName(held);
    StepMarksFiring(Latest(held), Latest(n.alerts), Latest(FiringOnly(n.alerts)), n.snapshot, at);
    LatestOfDistinct(after);
  }

  lemma {:induction false} StaleMoves(held: seq<Alert>, n: Notification, at: Instant)
    requires Orderly(held) && Unmarked(n.alerts)
    ensures |StaleNames(Latest(Effect(held, n, at).alerts))| ==
            |StaleNames(Latest(held))| + Effect(held, n, at).marked - |StaleNames(Latest(held)) * Names(n.alerts)|
  {
    var merged := Merged(held, Mergeable(n.alerts, Statuses(held)));
    EffectMeaning(held, n, at);
    PayloadSayings(n.alerts);
    LatestIsByName(held);
    LatestIsByName(n.alerts);
    LatestIsByName(FiringOnly(n.alerts));
    MergedByName(held, n.alerts);
    CountMarkedIsSet(merged, Names(n.alerts));
    StaleAfterStep(Latest(held), Latest(n.alerts), Latest(FiringOnly(n.alerts)), n.snapshot, at);
    CountMoves(StaleNames(Latest(held)), Names(n.alerts),
      if n.snapshot then MarkNames(Latest(merged), Names(n.alerts)) else {});
  }

  lemma CountMoves(stale: set<string>, named: set<string>, marked: set<string>)
    requires marked !! stale
    ensures |(stale - named) + marked| == |stale| + |marked| - |stale * named|
  {
    assert |stale - named| == |stale| - |stale * named|;
    assert |(stale - named) + marked| == |stale - named| + |marked|;
  }

  // One notification: the stale alerts gain what it marked and lose what it
  // named. What it reports as back is never less than that, and the same exactly
  // when it names no silent alert twice.
  lemma {:induction false} MarksAreConserved(held: seq<Alert>, n: Notification, at: Instant)
    requires Orderly(held) && Unmarked(n.alerts)
    ensures var e := Effect(held, n, at);
            var stale := StaleNames(Latest(held));
            var returned := stale * Names(n.alerts);
            && |StaleNames(Latest(e.alerts))| == |stale| + e.marked - |returned|
            && |e.back| >= |returned|
            && (|e.back| == |returned| <==> NamedOnce(stale, n.alerts))
  {
    StaleMoves(held, n, at);
    SilencesAreStale(held);
    ReturnedCount(Silences(held), n.alerts, at);
    NamedOnceByEntry(StaleNames(Latest(held)), n.alerts);
  }

  // ---- over a whole history ---------------------------------------------------------

  ghost function Marks(h: seq<Taken>): nat {
    if |h| <= 1 then 0
    else Marks(h[..|h| - 1]) + Effect(Held(h[..|h| - 1]), h[|h| - 1].n, h[|h| - 1].at).marked
  }

  ghost function Returns(h: seq<Taken>): nat {
    if |h| <= 1 then 0
    else Returns(h[..|h| - 1]) + |Effect(Held(h[..|h| - 1]), h[|h| - 1].n, h[|h| - 1].at).back|
  }

  // In every reachable state a mark stands on a firing alert.
  lemma {:induction false} HeldIsOrderly(h: seq<Taken>)
    requires h != [] && AllUnmarked(h)
    ensures Orderly(Held(h))
  {
    var k := |h| - 1;
    assert Unmarked(h[k].n.alerts);
    if k == 0 {
      MergeableIsPart(h[0].n.alerts, map[]);
    } else {
      HeldIsOrderly(h[..k]);
      StepStaysOrderly(Held(h[..k]), h[k].n, h[k].at);
    }
  }

  lemma {:induction false} StaleIsMarksLessReturns(h: seq<Taken>)
    requires h != [] && AllUnmarked(h)
    requires forall i :: 0 <= i < |h| ==> Distinct(h[i].n.alerts)
    ensures |StaleNames(Latest(Held(h)))| == Marks(h) - Returns(h)
  {
    var k := |h| - 1;
    assert Unmarked(h[k].n.alerts);
    if k == 0 {
      MergeableIsPart(h[0].n.alerts, map[]);
      LatestIsByName(Held(h));
      assert StaleNames(Latest(Held(h))) == {};
    } else {
      StaleIsMarksLessReturns(h[..k]);
      HeldIsOrderly(h[..k]);
      MarksAreConserved(Held(h[..k]), h[k].n, h[k].at);
      assert NamedOnce(StaleNames(Latest(Held(h[..k]))), h[k].n.alerts);
    }
  }

  lemma {:induction false} MarksAreNewOrOld(held: seq<Alert>, n: Notification, at: Instant, f: string)
    requires Orderly(held) && Unmarked(n.alerts)
    requires f in Latest(Effect(held, n, at).alerts) && Latest(Effect(held, n, at).alerts)[f].staleSince.Some?
    ensures var since := Latest(Effect(held, n, at).alerts)[f].staleSince;
            since.value == at || (f in Latest(held) && Latest(held)[f].staleSince == since)
  {
    EffectMeaning(held, n, at);
    PayloadSayings(n.alerts);
    LatestIsByName(held);
    StepMarksFiring(Latest(held), Latest(n.alerts), Latest(FiringOnly(n.alerts)), n.snapshot, at);
  }

  // With a clock that does not step back, every mark is in the past...
  lemma {:induction false} MarksAreInThePast(h: seq<Taken>)
    requires h != [] && AllUnmarked(h)
    requires forall i, j :: 0 <= i < j < |h| ==> h[i].at <= h[j].at
    ensures forall f :: f in Latest(Held(h)) && Latest(Held(h))[f].staleSince.Some? ==>
                          Latest(Held(h))[f].staleSince.value <= h[|h| - 1].at
  {
    var k := |h| - 1;
    assert Unmarked(h[k].n.alerts);
    if k == 0 {
      PayloadSayings(h[0].n.alerts);
    } else {
      MarksAreInThePast(h[..k]);
      HeldIsOrderly(h[..k]);
      forall f | f in Latest(Held(h)) && Latest(Held(h))[f].staleSince.Some?
        ensures Latest(Held(h))[f].staleSince.value <= h[k].at
      {
        MarksAreNewOrOld(Held(h[..k]), h[k].n, h[k].at, f);
      }
    }
  }

  // ---- what came back, entry by entry ---------------------------------------------------

  // How many entries of p are about an alert that stands marked.
  function Heard(before: map<string, Alert>, p: seq<Alert>): nat {
    if p == [] then 0
    else
      var f := p[|p| - 1].fingerprint;
      Heard(before, p[..|p| - 1]) + if f in before && before[f].staleSince.Some? then 1 else 0
  }

  function Gap(at: Instant, since: Instant): Instant {
    if at < since then 0 else at - since
  }

  lemma {:induction false} ReturnedEach(silent: map<string, Instant>, before: map<string, Alert>, p: seq<Alert>,
                                        at: Instant, k: nat)
    requires forall f :: f in silent <==> f in before && before[f].staleSince.Some?
    requires forall f :: f in silent ==> before[f].staleSince == Some(silent[f])
    ensures |Returned(silent, p, at)| == Heard(before, p)
    ensures k < |p| && p[k].fingerprint in silent ==>
              && Heard(before, p[..k]) < Heard(before, p)
              && Returned(silent, p, at)[Heard(before, p[..k])] ==
                 Reported(p[k].status, Gap(at, silent[p[k].fingerprint]))
  {
    if p != [] {
      var n := |p| - 1;
      ReturnedEach(silent, before, p[..n], at, k);
      if k < n { assert p[..n][..k] == p[..k] && p[..n][k] == p[k]; }
    }
  }

  lemma {:induction false} SilencesAreMarks(held: seq<Alert>)
    requires Orderly(held)
    ensures forall f :: f in Silences(held) <==> f in Latest(held) && Latest(held)[f].staleSince.Some?
    ensures forall f :: f in Silences(held) ==> Latest(held)[f].staleSince == Some(Silences(held)[f])
  {
    LatestIsByName(held);
    if Distinct(held) { SilencesByName(held); } else { NoSilences(held); }
  }

  // What a payload brings back is one line for each of its entries about an alert the
  // incident held with a mark, in order: what it came back as, and how long after the
  // mark - never less than nothing, whatever the clock does.
  lemma {:induction false} SilenceIsMeasured(held: seq<Alert>, n: Notification, at: Instant, k: nat)
    requires Orderly(held)
    ensures |Effect(held, n, at).back| == Heard(Latest(held), n.alerts)
    ensures k < |n.alerts| && n.alerts[k].fingerprint in Latest(held)
            && Latest(held)[n.alerts[k].fingerprint].staleSince.Some? ==>
              var a, line := n.alerts[k], Heard(Latest(held), n.alerts[..k]);
              && line < |Effect(held, n, at).back|
              && Effect(held, n, at).back[line] ==
                 Reported(a.status, Gap(at, Latest(held)[a.fingerprint].staleSince.value))
  {
    SilencesAreMarks(held);
    ReturnedEach(Silences(held), Latest(held), n.alerts, at, k);
  }

  // In the words of the history: the silence reported of an alert last reported firing
  // began with the first snapshot that went out without it.
  lemma {:induction false} SilenceBeganWithASnapshot(h: seq<Taken>, n: Notification, at: Instant, i: nat, k: nat)
    requires h != [] && AllUnmarked(h) && i < |h| && k < |n.alerts|
    requires LastReport(h, i, n.alerts[k].fingerprint)
    requires ReportIn(h, i, n.alerts[k].fingerprint).value.status == Firing && FirstSnapshot(h, i + 1).Some?
    ensures var line := Heard(Latest(Held(h)), n.alerts[..k]);
            && line < |Effect(Held(h), n, at).back|
            && Effect(Held(h), n, at).back[line] ==
               Reported(n.alerts[k].status, Gap(at, FirstSnapshot(h, i + 1).value))
  {
    HeldIsOrderly(h);
    HistoryDecides(h, n.alerts[k].fingerprint, i);
    SilenceIsMeasured(Held(h), n, at, k);
  }

  // ---- held by silence alone ---------------------------------------------------------------

  // Something fires, and nothing that fires is still reported.
  ghost predicate OnlySilentFire(m: map<string, Alert>) {
    && (exists f :: f in m && m[f].status == Firing)
    && (forall f :: f in m && m[f].status == Firing ==> m[f].staleSince.Some?)
  }

  lemma {:induction false} OnlyStaleByName(held: seq<Alert>)
    requires Orderly(held)
    ensures OnlyStaleHolds(held) <==> OnlySilentFire(Latest(held))
  {
    LatestIsByName(held);
    if Distinct(held) {
      LatestOfDistinct(held);
    } else {
      forall f | f in Latest(held) ensures Latest(held)[f].staleSince.None? {}
    }
  }

  // The incident is said to have come to be held by silence alone exactly when that is
  // so after the payload, of what is held by fingerprint, and was not so before it.
  lemma {:induction false} HeldOnlyByStaleIsNew(held: seq<Alert>, n: Notification, at: Instant)
    requires Orderly(held) && Unmarked(n.alerts)
    ensures Effect(held, n, at).heldOnlyByStale <==>
              OnlySilentFire(Latest(Effect(held, n, at).alerts)) && !OnlySilentFire(Latest(held))
  {
    StepStaysOrderly(held, n, at);
    OnlyStaleByName(held);
    OnlyStaleByName(Effect(held, n, at).alerts);
  }

  // By the history: something was last reported firing, and everything that was has
  // been left out of a snapshot since.
  ghost predicate OnlySilentSince(h: seq<Taken>) {
    && (exists f, i :: 0 <= i < |h| && LastReport(h, i, f) && ReportIn(h, i, f).value.status == Firing)
    && (forall f, i :: 0 <= i < |h| && LastReport(h, i, f) && ReportIn(h, i, f).value.status == Firing ==>
          FirstSnapshot(h, i + 1).Some?)
  }

  lemma {:induction false} OnlySilentByHistory(h: seq<Taken>)
    requires h != [] && AllUnmarked(h)
    ensures OnlySilentFire(Latest(Held(h))) <==> OnlySilentSince(h)
  {
    forall f, i | 0 <= i < |h| && LastReport(h, i, f)
      ensures f in Latest(Held(h)) && Latest(Held(h))[f] == AsLeft(h, i, ReportIn(h, i, f).value)
    {
      HistoryDecides(h, f, i);
    }
    forall f | f in Latest(Held(h)) ensures exists i :: 0 <= i < |h| && LastReport(h, i, f) { HeldIffEverFired(h, f); }
  }

  lemma {:induction false} HeldOnlyByStaleOverHistory(h: seq<Taken>)
    requires |h| > 1 && AllUnmarked(h)
    ensures var k := |h| - 1;
            Effect(Held(h[..k]), h[k].n, h[k].at).heldOnlyByStale <==>
              OnlySilentSince(h) && !OnlySilentSince(h[..k])
  {
    var k := |h| - 1;
    HeldIsOrderly(h[..k]);
    HeldOnlyByStaleIsNew(Held(h[..k]), h[k].n, h[k].at);
    OnlySilentByHistory(h);
    OnlySilentByHistory(h[..k]);
  }
}
