// Merging what Alertmanager sends into the incident that is open
// (internal/alertgroup/merge.go), and how the store applies it
// (internal/store/alert_merge.go).
//
// Each loop of the source is a method proved equal to a specification function;
// MergeLaws and History prove what those functions mean.

module Merge {
  import opened Order

  // Instants are integers: a unit is one microsecond, the resolution the
  // timeline orders its lines by.
  type Instant = int

  // A status is a word of the payload. Two of them are known to this build.
  datatype Status = Firing | Resolved | Other(word: string)

  datatype State = StateFiring | StateStale | StateResolved

  datatype Alert = Alert(
    fingerprint: string,
    status: Status,
    labels: map<string, string>,
    annotations: map<string, string>,
    startsAt: Instant,
    endsAt: Instant,
    generatorURL: string,
    staleSince: Option<Instant>)
  {
    function State(): State {
      if status != Firing then StateResolved
      else if staleSince.Some? then StateStale
      else StateFiring
    }
  }

  datatype Notification = Notification(alerts: seq<Alert>, snapshot: bool)

  datatype Reported = Reported(status: Status, silent: Instant)

  datatype Applied = Applied(
    alerts: seq<Alert>,
    relevant: seq<Alert>,
    resolving: bool,
    marked: nat,
    back: seq<Reported>,
    heldOnlyByStale: bool)

  // ---- what a set of alerts says about each fingerprint ---------------------

  // The latest entry of each fingerprint: a later one replaces an earlier one.
  function Latest(s: seq<Alert>): map<string, Alert> {
    if s == [] then map[] else Latest(s[..|s| - 1])[s[|s| - 1].fingerprint := s[|s| - 1]]
  }

  function Statuses(s: seq<Alert>): map<string, Status> {
    var m := Latest(s);
    map f | f in m :: m[f].status
  }

  function Names(s: seq<Alert>): set<string> {
    set a | a in s :: a.fingerprint
  }

  ghost predicate Distinct(s: seq<Alert>) {
    forall i, j :: 0 <= i < j < |s| ==> s[i].fingerprint != s[j].fingerprint
  }

  // Payload alerts carry no mark of this system's: they are read into a type
  // that has no field for one.
  ghost predicate Unmarked(s: seq<Alert>) {
    forall a :: a in s ==> a.staleSince.None?
  }

  method FingerprintsOf(alerts: seq<Alert>) returns (out: map<string, Status>)
    ensures out == Statuses(alerts)
  {
    out := map[];
    for i := 0 to |alerts|
      invariant out == Statuses(alerts[..i])
    {
      out := out[alerts[i].fingerprint := alerts[i].status];
      assert alerts[..i + 1][..i] == alerts[..i];
    }
    assert alerts[..|alerts|] == alerts;
  }

  // ---- what belongs to the incident -----------------------------------------

  predicate Belongs(a: Alert, existing: map<string, Status>) {
    a.fingerprint in existing || a.status == Firing
  }

  function Mergeable(incoming: seq<Alert>, existing: map<string, Status>): seq<Alert> {
    if incoming == [] then []
    else
      var a := incoming[|incoming| - 1];
      Mergeable(incoming[..|incoming| - 1], existing) + if Belongs(a, existing) then [a] else []
  }

  method FilterMergeable(incoming: seq<Alert>, existing: map<string, Status>) returns (relevant: seq<Alert>)
    ensures relevant == Mergeable(incoming, existing)
  {
    relevant := [];
    for i := 0 to |incoming|
      invariant relevant == Mergeable(incoming[..i], existing)
    {
      assert incoming[..i + 1][..i] == incoming[..i];
      var a := incoming[i];
      if a.fingerprint !in existing && a.status != Firing {
        continue;
      }
      relevant := relevant + [a];
    }
    assert incoming[..|incoming|] == incoming;
  }

  // ---- the merge ------------------------------------------------------------

  // The order a message lists alerts in: by when they started, then by name.
  const BY_START: (Alert, Alert) -> bool := (a: Alert, b: Alert) =>
    a.startsAt < b.startsAt || (a.startsAt == b.startsAt && StrLe(a.fingerprint, b.fingerprint))

  // The entries no later entry of the same fingerprint replaces.
  function LastOnly(s: seq<Alert>): seq<Alert> {
    if s == [] then []
    else if s[0].fingerprint in Names(s[1..]) then LastOnly(s[1..])
    else [s[0]] + LastOnly(s[1..])
  }

  function Merged(existing: seq<Alert>, incoming: seq<Alert>): seq<Alert> {
    Sort(BY_START, LastOnly(existing + incoming))
  }

  // One entry per fingerprint, in listing order. Two alerts never tie in it.
  ghost predicate Canonical(s: seq<Alert>) {
    Distinct(s) && Sorted(BY_START, s)
  }

  method MergeAlerts(existing: seq<Alert>, incoming: seq<Alert>) returns (out: seq<Alert>)
    ensures out == Merged(existing, incoming)
  {
    var state: map<string, Alert> := map[];
    for i := 0 to |existing|
      invariant state == Latest(existing[..i])
    {
      state := state[existing[i].fingerprint := existing[i]];
      assert existing[..i + 1][..i] == existing[..i];
    }
    assert existing + incoming[..0] == existing[..|existing|];
    for i := 0 to |incoming|
      invariant state == Latest(existing + incoming[..i])
    {
      state := state[incoming[i].fingerprint := incoming[i]];
      assert (existing + incoming[..i + 1])[..|existing| + i] == existing + incoming[..i];
    }
    assert existing + incoming[..|incoming|] == existing + incoming;
    LatestIsByName(existing + incoming);
    out := Walked(state);
    SameEntriesSortAlike(out, existing + incoming);
    out := Sort(BY_START, out);
  }

  // A Go map is walked in any order: so is this one.
  method Walked(state: map<string, Alert>) returns (out: seq<Alert>)
    requires forall f :: f in state ==> state[f].fingerprint == f
    ensures Distinct(out)
    ensures forall a :: a in out <==> a.fingerprint in state && state[a.fingerprint] == a
  {
    out := [];
    var rest := state.Keys;
    while rest != {}
      invariant rest <= state.Keys && Distinct(out)
      invariant forall a :: a in out <==> a.fingerprint in state.Keys - rest && state[a.fingerprint] == a
      decreases |rest|
    {
      var f :| f in rest;
      out := out + [state[f]];
      rest := rest - {f};
    }
  }

  // ---- lemmas the methods above need ----------------------------------------

  lemma ByStartIsTotal()
    ensures TotalPreorder(BY_START)
  {
    forall a: Alert, b: Alert ensures BY_START(a, b) || BY_START(b, a) {
      StrLeTotal(a.fingerprint, b.fingerprint);
    }
    forall a: Alert, b: Alert, c: Alert | BY_START(a, b) && BY_START(b, c) ensures BY_START(a, c) {
      if a.startsAt == b.startsAt == c.startsAt {
        StrLeTransitive(a.fingerprint, b.fingerprint, c.fingerprint);
      }
    }
  }

  lemma DistinctIsTieFree(s: seq<Alert>)
    requires Distinct(s)
    ensures TieFree(BY_START, s) && NoDup(s)
  {
    forall x, y | x in s && y in s && BY_START(x, y) && BY_START(y, x) ensures x == y {
      StrLeAntisymmetric(x.fingerprint, y.fingerprint);
    }
  }

  // Every entry of Latest is the entry of the sequence it is filed under.
  lemma {:induction false} LatestIsByName(s: seq<Alert>)
    ensures Latest(s).Keys == Names(s)
    ensures forall f :: f in Latest(s) ==> Latest(s)[f].fingerprint == f && Latest(s)[f] in s
  {
    if s != [] {
      var n := |s| - 1;
      LatestIsByName(s[..n]);
      assert s == s[..n] + [s[n]];
    }
  }

  // And it is the last one.
  lemma {:induction false} LatestIsLast(s: seq<Alert>, k: nat)
    requires k < |s| && forall j :: k < j < |s| ==> s[j].fingerprint != s[k].fingerprint
    ensures s[k].fingerprint in Latest(s) && Latest(s)[s[k].fingerprint] == s[k]
  {
    if k < |s| - 1 {
      var front := s[..|s| - 1];
      assert front[k] == s[k] && s[|s| - 1].fingerprint != s[k].fingerprint;
      LatestIsLast(front, k);
    }
  }

  lemma {:induction false} LatestOfDistinct(s: seq<Alert>)
    requires Distinct(s)
    ensures forall a :: a in s <==> a.fingerprint in Latest(s) && Latest(s)[a.fingerprint] == a
  {
    if s != [] {
      var n := |s| - 1;
      LatestOfDistinct(s[..n]);
      LatestIsByName(s[..n]);
      assert s == s[..n] + [s[n]];
      assert s[n].fingerprint !in Names(s[..n]);
    }
  }

  lemma {:induction false} LatestOfConcat(s: seq<Alert>, t: seq<Alert>)
    ensures Latest(s + t) == Latest(s) + Latest(t)
  {
    if t == [] {
      assert s + t == s;
    } else {
      var n := |t| - 1;
      LatestOfConcat(s, t[..n]);
      assert (s + t)[..|s + t| - 1] == s + t[..n];
    }
  }

  lemma {:induction false} LastOnlyIsDistinct(s: seq<Alert>)
    ensures Distinct(LastOnly(s)) && Names(LastOnly(s)) == Names(s)
  {
    if s != [] {
      LastOnlyIsDistinct(s[1..]);
      assert s == [s[0]] + s[1..];
      assert Names(s) == Names(s[1..]) + {s[0].fingerprint};
      forall a | a in LastOnly(s[1..]) ensures a.fingerprint in Names(s[1..]) {
        assert a.fingerprint in Names(LastOnly(s[1..]));
      }
      assert Names([s[0]] + LastOnly(s[1..])) == Names(LastOnly(s[1..])) + {s[0].fingerprint};
    }
  }

  lemma {:induction false} LastOnlyKeepsLatest(s: seq<Alert>)
    ensures Latest(LastOnly(s)) == Latest(s)
  {
    if s != [] {
      LastOnlyKeepsLatest(s[1..]);
      LatestIsByName(s[1..]);
      assert s == [s[0]] + s[1..];
      LatestOfConcat([s[0]], s[1..]);
      LatestOfConcat([s[0]], LastOnly(s[1..]));
    }
  }

  // Two sets of distinct entries that agree entry by entry sort to one list.
  lemma SameEntriesSortAlike(s: seq<Alert>, t: seq<Alert>)
    requires Distinct(s)
    requires forall a :: a in s <==> a.fingerprint in Latest(t) && Latest(t)[a.fingerprint] == a
    ensures Sort(BY_START, s) == Sort(BY_START, LastOnly(t))
  {
    LastOnlyKeepsLatest(t);
    LastOnlyIsDistinct(t);
    LatestOfDistinct(LastOnly(t));
    DistinctIsTieFree(s);
    DistinctIsTieFree(LastOnly(t));
    NoDupSameElements(s, LastOnly(t));
    ByStartIsTotal();
    SortIsSortedPermutation(BY_START, s);
    SortIsSortedPermutation(BY_START, LastOnly(t));
    SortKeepsDistinct(s);
    DistinctIsTieFree(Sort(BY_START, s));
    SortedUnique(BY_START, Sort(BY_START, s), Sort(BY_START, LastOnly(t)));
  }

  lemma SortKeepsDistinct(s: seq<Alert>)
    requires Distinct(s)
    ensures Canonical(Sort(BY_START, s)) && Latest(Sort(BY_START, s)) == Latest(s)
    ensures forall a :: a in Sort(BY_START, s) <==> a in s
  {
    ByStartIsTotal();
    SortIsSortedPermutation(BY_START, s);
    DistinctIsTieFree(s);
    PermutationNoDup(s, Sort(BY_START, s));
    PartIsDistinct(s, Sort(BY_START, s));
    SameEntriesSameLatest(s, Sort(BY_START, s));
  }

  lemma PartIsDistinct(s: seq<Alert>, t: seq<Alert>)
    requires Distinct(s) && NoDup(t) && forall a :: a in t ==> a in s
    ensures Distinct(t)
  {
    forall i, j | 0 <= i < j < |t| ensures t[i].fingerprint != t[j].fingerprint {
      assert t[i] in s && t[j] in s;
    }
  }

  lemma SameEntriesSameLatest(s: seq<Alert>, t: seq<Alert>)
    requires Distinct(s) && Distinct(t) && forall a :: a in t <==> a in s
    ensures Latest(s) == Latest(t)
  {
    LatestOfDistinct(s);
    LatestOfDistinct(t);
    LatestIsByName(s);
    LatestIsByName(t);
  }
}
