// The laws of the merge: one result whatever the order, one application however
// often it is repeated, and marks that are conserved
// (internal/alertgroup/merge.go).

module MergeLaws {
  import opened Order
  import opened Merge
  import opened Apply
  import opened History

  // ---- a merge is canonical -----------------------------------------------------

  lemma {:induction false} CanonicalUnique(s: seq<Alert>, t: seq<Alert>)
    requires Canonical(s) && Canonical(t) && Latest(s) == Latest(t)
    ensures s == t
  {
    LatestOfDistinct(s);
    LatestOfDistinct(t);
    DistinctIsTieFree(s);
    DistinctIsTieFree(t);
    NoDupSameElements(s, t);
    ByStartIsTotal();
    SortedUnique(BY_START, s, t);
  }

  // Strict listing order: no two alerts of a merge share a place in it.
  lemma {:induction false} MergedIsStrictlyOrdered(existing: seq<Alert>, incoming: seq<Alert>, i: nat, j: nat)
    requires i < j < |Merged(existing, incoming)|
    ensures var m := Merged(existing, incoming);
            m[i].startsAt < m[j].startsAt
            || (m[i].startsAt == m[j].startsAt && m[i].fingerprint != m[j].fingerprint
                && StrLe(m[i].fingerprint, m[j].fingerprint))
  {
    MergedMeaning(existing, incoming);
    assert BY_START(Merged(existing, incoming)[i], Merged(existing, incoming)[j]);
  }

  lemma {:induction false} MergeInTwoSteps(held: seq<Alert>, b: seq<Alert>, c: seq<Alert>)
    ensures Merged(Merged(held, b), c) == Merged(held, b + c)
  {
    var first := Merged(held, b);
    MergedMeaning(held, b);
    MergedMeaning(first, c);
    MergedMeaning(held, b + c);
    LatestOfConcat(b, c);
    MapsAssociate(Latest(held), Latest(b), Latest(c));
    CanonicalUnique(Merged(first, c), Merged(held, b + c));
  }

  lemma MapsAssociate<K, V>(x: map<K, V>, y: map<K, V>, z: map<K, V>)
    ensures (x + y) + z == x + (y + z)
  {
  }

  lemma {:induction false} PermutationSaysTheSame(b: seq<Alert>, c: seq<Alert>)
    requires Distinct(b) && multiset(b) == multiset(c)
    ensures Distinct(c) && Latest(b) == Latest(c)
  {
    DistinctIsTieFree(b);
    PermutationNoDup(b, c);
    forall i, j | 0 <= i < j < |c| ensures c[i].fingerprint != c[j].fingerprint {
      assert c[i] in b && c[j] in b;
    }
    LatestOfDistinct(b);
    LatestOfDistinct(c);
    LatestIsByName(b);
    LatestIsByName(c);
  }

  lemma {:induction false} MergeIgnoresPayloadOrder(held: seq<Alert>, b: seq<Alert>, c: seq<Alert>)
    requires Distinct(b) && multiset(b) == multiset(c)
    ensures Merged(held, b) == Merged(held, c)
  {
    PermutationSaysTheSame(b, c);
    MergedMeaning(held, b);
    MergedMeaning(held, c);
    CanonicalUnique(Merged(held, b), Merged(held, c));
  }

  // ---- a repeat is a repeat -------------------------------------------------------

  // No alert unknown to the incident is reported firing and then, later in the
  // same payload, not firing.
  ghost predicate SaysOneThing(held: seq<Alert>, payload: seq<Alert>) {
    forall f :: f !in Latest(held) && FiresIn(payload, f) ==>
                  f in Latest(payload) && Latest(payload)[f].status == Firing
  }

  lemma {:induction false} LastFiringIsLast(p: seq<Alert>, f: string)
    requires f in Latest(p) && Latest(p)[f].status == Firing
    ensures f in Latest(FiringOnly(p)) && Latest(FiringOnly(p))[f] == Latest(p)[f]
  {
    var k := |p| - 1;
    LatestOfConcat(FiringOnly(p[..k]), [p[k]]);
    if p[k].fingerprint != f {
      LastFiringIsLast(p[..k], f);
      assert FiringOnly(p[..k]) + [] == FiringOnly(p[..k]);
    }
  }

  // What a payload says, read by fingerprint, is in order: a firing report is a
  // report, it fires, and no report carries a mark.
  ghost predicate Sayings(said: map<string, Alert>, fired: map<string, Alert>) {
    && fired.Keys <= said.Keys
    && (forall f :: f in fired ==> fired[f].status == Firing && fired[f].staleSince.None?)
    && (forall f :: f in said ==> said[f].staleSince.None?)
    && (forall f :: f in said && said[f].status == Firing ==> f in fired && fired[f] == said[f])
  }

  lemma {:induction false} PayloadSayings(p: seq<Alert>)
    requires Unmarked(p)
    ensures Sayings(Latest(p), Latest(FiringOnly(p)))
  {
    LatestIsByName(p);
    forall f | f in Latest(FiringOnly(p))
      ensures f in Latest(p) && Latest(FiringOnly(p))[f].status == Firing && Latest(FiringOnly(p))[f].staleSince.None?
    {
      FiringEntries(p, f);
      LatestIsByName(FiringOnly(p));
    }
    forall f | f in Latest(p) && Latest(p)[f].status == Firing
      ensures f in Latest(FiringOnly(p)) && Latest(FiringOnly(p))[f] == Latest(p)[f]
    {
      LastFiringIsLast(p, f);
    }
  }

  lemma {:induction false} StepTwice(before: map<string, Alert>, said: map<string, Alert>, fired: map<string, Alert>,
                                     snapshot: bool, t1: Instant, t2: Instant)
    requires Sayings(said, fired)
    ensures var once := Step(before, said, fired, snapshot, t1);
            Step(once, said, fired, snapshot, t2) == once
            <==> forall f :: f !in before && f in fired ==> said[f].status == Firing
  {
    var once := Step(before, said, fired, snapshot, t1);
    var twice := Step(once, said, fired, snapshot, t2);
    assert twice.Keys == once.Keys;
    if f :| f !in before && f in fired && said[f].status != Firing {
      assert once[f] != twice[f];
    }
  }

  // Applying a payload again, at any later instant, leaves the alerts exactly as
  // they were if and only if the payload said one thing of each alert it opened.
  lemma {:induction false} RepeatChangesNothing(held: seq<Alert>, n: Notification, t1: Instant, t2: Instant)
    requires Unmarked(n.alerts)
    ensures var once := Effect(held, n, t1).alerts;
            Effect(once, n, t2).alerts == once <==> SaysOneThing(held, n.alerts)
  {
    var once := Effect(held, n, t1).alerts;
    EffectMeaning(held, n, t1);
    EffectMeaning(once, n, t2);
    RepeatByName(held, n, t1, once, t2, Effect(once, n, t2).alerts);
  }

  lemma {:induction false} RepeatByName(held: seq<Alert>, n: Notification, t1: Instant, once: seq<Alert>,
                                        t2: Instant, twice: seq<Alert>)
    requires Unmarked(n.alerts) && Canonical(once) && Canonical(twice)
    requires Latest(once) == Step(Latest(held), Latest(n.alerts), Latest(FiringOnly(n.alerts)), n.snapshot, t1)
    requires Latest(twice) == Step(Latest(once), Latest(n.alerts), Latest(FiringOnly(n.alerts)), n.snapshot, t2)
    ensures twice == once <==> SaysOneThing(held, n.alerts)
  {
    PayloadSayings(n.alerts);
    StepTwice(Latest(held), Latest(n.alerts), Latest(FiringOnly(n.alerts)), n.snapshot, t1, t2);
    forall f ensures f in Latest(FiringOnly(n.alerts)) <==> FiresIn(n.alerts, f) { FiringEntries(n.alerts, f); }
    if Latest(once) == Latest(twice) { CanonicalUnique(once, twice); }
  }

  lemma {:induction false} StepLeavesNothingToMark(before: map<string, Alert>, said: map<string, Alert>,
                                                   fired: map<string, Alert>, at: Instant, f: string)
    requires Sayings(said, fired)
    ensures var once := Step(before, said, fired, true, at);
            f in once && f !in said ==> !(once[f].status == Firing && once[f].staleSince.None?)
  {
  }

  lemma {:induction false} RepeatMarksNothing(held: seq<Alert>, n: Notification, t1: Instant)
    requires Unmarked(n.alerts) && n.snapshot
    ensures var once := Effect(held, n, t1).alerts;
            CountMarked(Merged(once, Mergeable(n.alerts, Statuses(once))), Names(n.alerts)) == 0
  {
    var once := Effect(held, n, t1).alerts;
    var relevant := Mergeable(n.alerts, Statuses(once));
    var merged := Merged(once, relevant);
    EffectMeaning(held, n, t1);
    PayloadSayings(n.alerts);
    MergedMeaning(once, relevant);
    LatestOfDistinct(merged);
    LatestIsByName(n.alerts);
    forall a | a in merged ensures !Markable(a, Names(n.alerts)) {
      var f := a.fingerprint;
      AcceptedMeaning(once, n.alerts, f);
      StepLeavesNothingToMark(Latest(held), Latest(n.alerts), Latest(FiringOnly(n.alerts)), t1, f);
    }
    NothingToMark(merged, Names(n.alerts));
  }

  lemma {:induction false} RepeatReturnsNothing(held: seq<Alert>, n: Notification, t1: Instant, t2: Instant)
    requires Unmarked(n.alerts)
    ensures Returned(Silences(Effect(held, n, t1).alerts), n.alerts, t2) == []
  {
    var once := Effect(held, n, t1).alerts;
    EffectMeaning(held, n, t1);
    PayloadSayings(n.alerts);
    SilencesByName(once);
    LatestIsByName(n.alerts);
    forall a | a in n.alerts ensures a.fingerprint !in Silences(once) {
      assert a.fingerprint in Names(n.alerts);
    }
    NothingReturns(Silences(once), n.alerts, t2);
  }

  // A repeat adds no mark and brings nothing back, whatever it says; and an
  // incident a repeat does not change has not just come to be held by silence.
  lemma {:induction false} RepeatIsNotNews(held: seq<Alert>, n: Notification, t1: Instant, t2: Instant)
    requires Unmarked(n.alerts)
    ensures var again := Effect(Effect(held, n, t1).alerts, n, t2);
            && again.marked == 0 && again.back == []
            && (SaysOneThing(held, n.alerts) ==> !again.heldOnlyByStale)
  {
    RepeatChangesNothing(held, n, t1, t2);
    if n.snapshot { RepeatMarksNothing(held, n, t1); }
    RepeatReturnsNothing(held, n, t1, t2);
  }

  // The incident a payload opens keeps the firing alerts in the order they came.
  // Its first repeat is recognised exactly when that was the listing order.
  lemma {:induction false} OpeningRepeatIsRecognised(n: Notification, at: Instant)
    requires Distinct(n.alerts) && Unmarked(n.alerts)
    ensures Effect(FiringOnly(n.alerts), n, at).alerts == FiringOnly(n.alerts)
            <==> Sorted(BY_START, FiringOnly(n.alerts))
  {
    var first := FiringOnly(n.alerts);
    var after := Effect(first, n, at).alerts;
    EffectMeaning(first, n, at);
    MergeableIsDistinct(n.alerts, map[]);
    DistinctSaysOneThing(n.alerts);
    assert Latest(after) == Latest(first);
    if Sorted(BY_START, first) { CanonicalUnique(after, first); }
  }

  // Of a payload that names each fingerprint once, what fires is what it says.
  lemma {:induction false} DistinctSaysOneThing(p: seq<Alert>)
    requires Distinct(p)
    ensures forall f :: f in Latest(FiringOnly(p)) ==> f in Latest(p) && Latest(FiringOnly(p))[f] == Latest(p)[f]
  {
    LatestOfDistinct(p);
    forall f | f in Latest(FiringOnly(p)) ensures f in Latest(p) && Latest(FiringOnly(p))[f] == Latest(p)[f] {
      FiringEntries(p, f);
      LatestIsByName(FiringOnly(p));
    }
  }

  lemma {:induction false} MergeableIsDistinct(p: seq<Alert>, existing: map<string, Status>)
    requires Distinct(p)
    ensures Distinct(Mergeable(p, existing))
  {
    if p != [] {
      var k := |p| - 1;
      MergeableIsDistinct(p[..k], existing);
      MergeableIsPart(p[..k], existing);
      forall a | a in p[..k] ensures a.fingerprint != p[k].fingerprint {}
    }
  }

  // ---- marks, counted --------------------------------------------------------------

  predicate Markable(a: Alert, reported: set<string>) {
    a.status == Firing && a.fingerprint !in reported && a.staleSince.None?
  }

  lemma {:induction false} NothingToMark(s: seq<Alert>, reported: set<string>)
    requires forall a :: a in s ==> !Markable(a, reported)
    ensures CountMarked(s, reported) == 0
  {
    if s != [] {
      assert s[|s| - 1] in s;
      NothingToMark(s[..|s| - 1], reported);
    }
  }

  lemma {:induction false} NothingReturns(silent: map<string, Instant>, p: seq<Alert>, at: Instant)
    requires forall a :: a in p ==> a.fingerprint !in silent
    ensures Returned(silent, p, at) == []
  {
    if p != [] {
      assert p[|p| - 1] in p;
      NothingReturns(silent, p[..|p| - 1], at);
    }
  }

  lemma {:induction false} SilencesByName(s: seq<Alert>)
    requires Distinct(s)
    ensures forall f :: f in Silences(s) <==> f in Latest(s) && Latest(s)[f].staleSince.Some?
    ensures forall f :: f in Silences(s) ==> Latest(s)[f].staleSince == Some(Silences(s)[f])
  {
    if s != [] {
      var k := |s| - 1;
      SilencesByName(s[..k]);
      LatestIsByName(s[..k]);
      assert s[k].fingerprint !in Names(s[..k]);
    }
  }

  lemma {:induction false} NoSilences(s: seq<Alert>)
    requires Unmarked(s)
    ensures Silences(s) == map[]
  {
    if s != [] { NoSilences(s[..|s| - 1]); }
  }
}
