// The shift-change detector (internal/handoff/notifier.go): what one tick may
// change, and who is announced over whole runs of ticks.

module Detector {
  import opened Order
  import opened Composition
  import opened Announcing

  // What the admission door says about one announcement; NoAnswer is a failed call.
  datatype Answer = Created | Existing | Conflict | RecipientErased | NotAboutThis | NoAnswer

  // Everything one schedule's check needs from outside: the identities, the zone's
  // own check, and the answer the door would give.
  datatype Outside = Outside(book: Option<Book>, validZone: bool, answer: Answer)

  // The cache has three states for a schedule: absent (never observed here),
  // observed with nobody on duty, observed with somebody.
  datatype Memory = Memory(cache: map<string, Duty>, warmedUp: bool)

  // An announcement that was offered, and what became of it.
  datatype Offer = Offer(scheduleID: string, kind: Kind, notify: seq<string>, announcement: Announcement,
                         left: seq<Skipped>, answer: Answer)

  predicate Settles(a: Answer) { a.Created? || a.Existing? || a.Conflict? }

  function Cached(m: Memory, id: string): Option<Duty> {
    if id in m.cache then Some(m.cache[id]) else None
  }

  function Remember(m: Memory, id: string, d: Duty): Memory {
    m.(cache := m.cache[id := d])
  }

  type TeamNames = map<string, string>

  function TeamName(teams: TeamNames, teamID: string): string {
    if teamID in teams && teams[teamID] != "" then teams[teamID] else teamID
  }

  // One schedule of one tick.
  function Checked(m: Memory, catalog: Catalog, p: Projected, teams: TeamNames, o: Outside): (Memory, Option<Offer>) {
    var next := Observed(p);
    var change := Classified(Cached(m, p.scheduleID), next.duty);
    if !m.warmedUp || change.None? || change.value.1 == [] then (Remember(m, p.scheduleID, next.duty), None)
    else
      var (kind, notify) := change.value;
      match BuiltOf(catalog, kind, p, notify, next, TeamName(teams, p.teamID), o.book, o.validZone)
      case NotBuilt => (m, None)
      case Built(announcement, left) =>
        if o.answer.NoAnswer? then (m, None)
        else (if Settles(o.answer) then Remember(m, p.scheduleID, next.duty) else m,
              Some(Offer(p.scheduleID, kind, notify, announcement, left, o.answer)))
  }

  // The schedules of one tick, in order; outside(i) is the world at schedule i.
  function CheckedAll(m: Memory, catalog: Catalog, ps: seq<Projected>, teams: TeamNames,
                      outside: nat -> Outside): (Memory, seq<Offer>) {
    if ps == [] then (m, [])
    else
      var n := |ps| - 1;
      var (before, offers) := CheckedAll(m, catalog, ps[..n], teams, outside);
      var (after, offer) := Checked(before, catalog, ps[n], teams, outside(n));
      (after, if offer.Some? then offers + [offer.value] else offers)
  }

  // What one projection of all schedules returned. damaged names the schedules that
  // could not be projected: they are not among the projected ones.
  datatype Bulk = Bulk(projected: seq<Projected>, damaged: seq<string>)

  datatype Reading = Reading(bulk: Option<Bulk>, teams: Option<TeamNames>, outside: nat -> Outside)

  predicate Complete(r: Reading) {
    r.bulk.Some? && (r.bulk.value.projected == [] || r.teams.Some?)
  }

  function Ticked(m: Memory, catalog: Catalog, r: Reading): (Memory, seq<Offer>) {
    if !Complete(r) then (m, [])
    else if r.bulk.value.projected == [] then (m.(warmedUp := true), [])
    else
      var (after, offers) := CheckedAll(m, catalog, r.bulk.value.projected, r.teams.value, r.outside);
      (after.(warmedUp := true), offers)
  }

  // ---- the notifier -----------------------------------------------------------------

  class Notifier {
    const catalog: Catalog
    var cache: map<string, Duty>
    var warmedUp: bool
    // The people the Created announcements left out, as the skip counter has them.
    var missed: seq<Skipped>

    constructor (catalog: Catalog)
      ensures this.catalog == catalog && State() == Memory(map[], false) && missed == []
    {
      this.catalog := catalog;
      cache, warmedUp, missed := map[], false, [];
    }

    function State(): Memory
      reads this
    {
      Memory(cache, warmedUp)
    }

    method SetCache(id: string, d: Duty)
      modifies this
      ensures State() == Remember(old(State()), id, d) && missed == old(missed)
    {
      cache := cache[id := d];
    }

    // A bad read leaves everything as it was and reports an incomplete tick.
    method Tick(r: Reading) returns (complete: bool, offers: seq<Offer>)
      modifies this
      ensures complete == Complete(r)
      ensures (State(), offers) == Ticked(old(State()), catalog, r)
      ensures missed == old(missed) + Missed(offers)
    {
      offers := [];
      if r.bulk.None? {
        return false, [];
      }
      var projected := r.bulk.value.projected;
      if |projected| == 0 {
        warmedUp := true;
        return true, [];
      }
      if r.teams.None? {
        return false, [];
      }
      offers := CheckSchedules(projected, r.teams.value, r.outside);
      warmedUp := true;
      complete := true;
    }

    method CheckSchedules(ps: seq<Projected>, teams: TeamNames, outside: nat -> Outside) returns (offers: seq<Offer>)
      modifies this
      ensures (State(), offers) == CheckedAll(old(State()), catalog, ps, teams, outside)
      ensures missed == old(missed) + Missed(offers)
    {
      offers := [];
      ghost var start, now := State(), State();
      ghost var counted := missed;
      for i := 0 to |ps|
        invariant now == State()
        invariant CheckedAll(start, catalog, ps[..i], teams, outside) == (now, offers)
        invariant missed == counted + Missed(offers)
      {
        var offer := CheckSchedule(ps[i], teams, outside(i));
        CheckedStep(start, catalog, ps, teams, outside, i, now, offers);
        now := State();
        MissedGrows(counted, offers, offer);
        if offer.Some? {
          offers := offers + [offer.value];
        }
      }
      assert ps[..|ps|] == ps;
    }

    method CheckSchedule(p: Projected, teams: TeamNames, o: Outside) returns (offer: Option<Offer>)
      modifies this
      ensures (State(), offer) == Checked(old(State()), catalog, p, teams, o)
      ensures missed == old(missed) + MissedBy(offer)
    {
      var next := Observe(p);
      OneDescription(next, p);
      var change := Classify(if p.scheduleID in cache then Some(cache[p.scheduleID]) else None, next.duty);
      if !warmedUp || change.None? {
        SetCache(p.scheduleID, next.duty);
        return None;
      }
      if |change.value.1| == 0 {
        SetCache(p.scheduleID, next.duty);
        return None;
      }
      offer := HandleHandoff(p, change.value.0, change.value.1, next, TeamName(teams, p.teamID), o);
    }

    // Moving the cache is what makes a transition dealt with: after an announcement
    // that exists, ours or somebody else's, and after nothing else.
    method HandleHandoff(p: Projected, kind: Kind, notify: seq<string>, next: Observation, teamName: string, o: Outside)
      returns (offer: Option<Offer>)
      modifies this
      ensures match BuiltOf(catalog, kind, p, notify, next, teamName, o.book, o.validZone)
              case NotBuilt => offer == None && State() == old(State())
              case Built(announcement, left) =>
                if o.answer.NoAnswer? then offer == None && State() == old(State())
                else
                  && offer == Some(Offer(p.scheduleID, kind, notify, announcement, left, o.answer))
                  && State() ==
                     if Settles(o.answer) then Remember(old(State()), p.scheduleID, next.duty) else old(State())
      ensures missed == old(missed) + MissedBy(offer)
    {
      var built := Build(catalog, kind, p, notify, next, teamName, o.book, o.validZone);
      if built.NotBuilt? || o.answer.NoAnswer? {
        return None;
      }
      offer := Some(Offer(p.scheduleID, kind, notify, built.announcement, built.left, o.answer));
      match o.answer {
        case Created => missed := missed + built.left;
        case Existing =>
        case Conflict =>
        case _ => return;
      }
      SetCache(p.scheduleID, next.duty);
    }
  }

  function MissedBy(offer: Option<Offer>): seq<Skipped> {
    if offer.Some? && offer.value.answer.Created? then offer.value.left else []
  }

  // Only the instance that made the promise counts the people it left out.
  function Missed(offers: seq<Offer>): seq<Skipped> {
    if offers == [] then [] else Missed(offers[..|offers| - 1]) + MissedBy(Some(offers[|offers| - 1]))
  }

  function AndThen(offers: seq<Offer>, offer: Option<Offer>): seq<Offer> {
    if offer.Some? then offers + [offer.value] else offers
  }

  lemma MissedGrows(counted: seq<Skipped>, offers: seq<Offer>, offer: Option<Offer>)
    ensures counted + Missed(AndThen(offers, offer)) == counted + Missed(offers) + MissedBy(offer)
  {
    if offer.Some? { assert (offers + [offer.value])[..|offers|] == offers; }
  }

  lemma CheckedStep(m: Memory, catalog: Catalog, ps: seq<Projected>, teams: TeamNames, outside: nat -> Outside, i: nat,
                    before: Memory, offers: seq<Offer>)
    requires i < |ps| && CheckedAll(m, catalog, ps[..i], teams, outside) == (before, offers)
    ensures var (after, offer) := Checked(before, catalog, ps[i], teams, outside(i));
            CheckedAll(m, catalog, ps[..i + 1], teams, outside) == (after, AndThen(offers, offer))
  {
    assert ps[..i + 1][..i] == ps[..i];
  }

  // ---- one check ----------------------------------------------------------------------

  function OnDuty(m: Memory, id: string): seq<string> {
    if id in m.cache then m.cache[id].users else []
  }

  // u comes on duty in what is cached for a schedule that was cached before.
  predicate Enters(before: Memory, after: Memory, id: string, u: string) {
    id in before.cache && u !in OnDuty(before, id) && u in OnDuty(after, id)
  }

  predicate Names(offer: Option<Offer>, id: string, u: string) {
    offer.Some? && offer.value.scheduleID == id && Settles(offer.value.answer) && u in offer.value.notify
  }

  // Once warm, a settled announcement names exactly the people who thereby entered
  // what is cached.
  lemma {:induction false} NamedIffEntered(m: Memory, catalog: Catalog, p: Projected, teams: TeamNames, o: Outside,
                                           id: string, u: string)
    requires m.warmedUp
    ensures var (after, offer) := Checked(m, catalog, p, teams, o);
            Names(offer, id, u) <==> Enters(m, after, id, u)
  {
    var next := Observed(p).duty;
    ToldAreTheNewcomers(Cached(m, p.scheduleID), next, u);
    var change := Classified(Cached(m, p.scheduleID), next);
    if change.Some? && change.value.1 == [] { assert u !in change.value.1; }
  }

  // Somebody on duty in this projection was not in what is cached.
  ghost predicate SomebodyIsNew(m: Memory, p: Projected) {
    p.scheduleID in m.cache && p.l1.Some? && exists u :: u in p.l1.value.users && u !in m.cache[p.scheduleID].users
  }

  lemma {:induction false} SomebodyIsToBeTold(m: Memory, p: Projected)
    ensures var change := Classified(Cached(m, p.scheduleID), Observed(p).duty);
            change.Some? && change.value.1 != [] <==> SomebodyIsNew(m, p)
  {
    var next := Observed(p).duty;
    var change := Classified(Cached(m, p.scheduleID), next);
    forall u ensures p.l1.Some? ==> (u in next.users <==> u in p.l1.value.users) {
      if p.l1.Some? { SortedHolds(p.l1.value.users, u); }
    }
    forall u ensures (change.Some? && u in change.value.1) <==>
                       p.scheduleID in m.cache && u in next.users && u !in m.cache[p.scheduleID].users
    {
      ToldAreTheNewcomers(Cached(m, p.scheduleID), next, u);
    }
    if change.Some? && change.value.1 != [] { assert change.value.1[0] in change.value.1; }
  }

  // One check, whatever it finds. While the detector warms up, or when nobody is new, it
  // takes up what it sees and offers nothing. When somebody is, it offers the
  // announcement of that transition, if one can be built, with the team's name or, for
  // want of one, its id; and takes up what it saw if the answer settles it, and only
  // then. With no announcement or no answer everything is left for the next check.
  lemma {:induction false} WhatACheckDoes(m: Memory, catalog: Catalog, p: Projected, teams: TeamNames, o: Outside)
    ensures var (after, offer) := Checked(m, catalog, p, teams, o);
            var next := Observed(p);
            var seen := Memory(m.cache[p.scheduleID := next.duty], m.warmedUp);
            if !m.warmedUp || !SomebodyIsNew(m, p) then after == seen && offer.None?
            else
              var change := Classified(Some(m.cache[p.scheduleID]), next.duty);
              var name := if p.teamID in teams && teams[p.teamID] != "" then teams[p.teamID] else p.teamID;
              && change.Some?
              && var built := BuiltOf(catalog, change.value.0, p, change.value.1, next, name, o.book, o.validZone);
                 if built.NotBuilt? || o.answer.NoAnswer? then after == m && offer.None?
                 else
                   && offer == Some(Offer(p.scheduleID, change.value.0, change.value.1, built.announcement, built.left,
                                          o.answer))
                   && after == if o.answer in {Created, Existing, Conflict} then seen else m
  {
    SomebodyIsToBeTold(m, p);
  }

  // Nobody who was on duty in what is cached is told they came on duty.
  lemma {:induction false} NobodyOnDutyIsTold(m: Memory, catalog: Catalog, p: Projected, teams: TeamNames, o: Outside,
                                              u: string)
    requires u in OnDuty(m, p.scheduleID)
    ensures Checked(m, catalog, p, teams, o).1.Some? ==> u !in Checked(m, catalog, p, teams, o).1.value.notify
  {
    ToldAreTheNewcomers(Cached(m, p.scheduleID), Observed(p).duty, u);
  }

  // A check touches no schedule but its own, and keeps the warm-up flag.
  lemma ChecksOnlyItsOwn(m: Memory, catalog: Catalog, p: Projected, teams: TeamNames, o: Outside, id: string)
    requires id != p.scheduleID
    ensures Cached(Checked(m, catalog, p, teams, o).0, id) == Cached(m, id)
    ensures Checked(m, catalog, p, teams, o).0.warmedUp == m.warmedUp
  {
  }

  // A transition that was not settled is seen again by the next check of the same
  // observation: same kind, same people.
  lemma {:induction false} UnsettledIsSeenAgain(m: Memory, catalog: Catalog, p: Projected, teams: TeamNames,
                                                o: Outside, q: Projected)
    requires m.warmedUp && q.scheduleID == p.scheduleID && Observed(q).duty == Observed(p).duty
    ensures var (after, offer) := Checked(m, catalog, p, teams, o);
            var change := Classified(Cached(m, p.scheduleID), Observed(p).duty);
            change.Some? && change.value.1 != [] ==>
              && (after == m <==> !(offer.Some? && Settles(offer.value.answer)))
              && (after == m ==> Classified(Cached(after, q.scheduleID), Observed(q).duty) == change)
              && (after != m ==> Classified(Cached(after, q.scheduleID), Observed(q).duty) == None)
  {
    var change := Classified(Cached(m, p.scheduleID), Observed(p).duty);
    assert change.Some? ==> Cached(m, p.scheduleID).Some? && Cached(m, p.scheduleID).value != Observed(p).duty;
  }

  // ---- one tick -------------------------------------------------------------------------

  lemma {:induction false} CheckedAllKeeps(m: Memory, catalog: Catalog, ps: seq<Projected>, teams: TeamNames,
                                           outside: nat -> Outside)
    ensures CheckedAll(m, catalog, ps, teams, outside).0.warmedUp == m.warmedUp
    ensures !m.warmedUp ==> CheckedAll(m, catalog, ps, teams, outside).1 == []
    ensures forall id :: (forall k :: 0 <= k < |ps| ==> ps[k].scheduleID != id) ==>
                           Cached(CheckedAll(m, catalog, ps, teams, outside).0, id) == Cached(m, id)
  {
    if ps != [] {
      var n := |ps| - 1;
      CheckedAllKeeps(m, catalog, ps[..n], teams, outside);
      forall id | forall k :: 0 <= k < |ps| ==> ps[k].scheduleID != id
        ensures Cached(CheckedAll(m, catalog, ps, teams, outside).0, id) == Cached(m, id)
      {
        assert forall k :: 0 <= k < n ==> ps[..n][k] == ps[k];
        ChecksOnlyItsOwn(CheckedAll(m, catalog, ps[..n], teams, outside).0, catalog, ps[n], teams, outside(n), id);
      }
    }
  }

  // A tick that could not read changes nothing at all. A tick that could read warms
  // the detector up, leaves every schedule it did not project as it was - a damaged
  // one among them - and, the first time, announces nothing.
  lemma {:induction false} WhatATickMayChange(m: Memory, catalog: Catalog, r: Reading, id: string)
    ensures r.bulk.None? || (r.bulk.value.projected != [] && r.teams.None?) ==> Ticked(m, catalog, r) == (m, [])
    ensures r.bulk.Some? && (r.bulk.value.projected == [] || r.teams.Some?) ==>
              && Ticked(m, catalog, r).0.warmedUp
              && ((forall k :: 0 <= k < |r.bulk.value.projected| ==> r.bulk.value.projected[k].scheduleID != id) ==>
                    Cached(Ticked(m, catalog, r).0, id) == Cached(m, id))
    ensures !m.warmedUp ==> Ticked(m, catalog, r).1 == []
    ensures r.bulk.Some? && r.bulk.value.projected != [] && r.teams.Some? ==>
              var (after, offers) := CheckedAll(m, catalog, r.bulk.value.projected, r.teams.value, r.outside);
              Ticked(m, catalog, r) == (after.(warmedUp := true), offers)
  {
    if Complete(r) && r.bulk.value.projected != [] {
      CheckedAllKeeps(m, catalog, r.bulk.value.projected, r.teams.value, r.outside);
    }
  }

  // The offers about one schedule.
  function About(offers: seq<Offer>, id: string): seq<Offer> {
    if offers == [] then []
    else
      var last := offers[|offers| - 1];
      About(offers[..|offers| - 1], id) + if last.scheduleID == id then [last] else []
  }

  lemma {:induction false} LastCheck(m: Memory, catalog: Catalog, ps: seq<Projected>, teams: TeamNames,
                                     outside: nat -> Outside, id: string)
    requires ps != []
    ensures var n := |ps| - 1;
            var (before, offers) := CheckedAll(m, catalog, ps[..n], teams, outside);
            var (after, all) := CheckedAll(m, catalog, ps, teams, outside);
            var (alone, offer) := Checked(before, catalog, ps[n], teams, outside(n));
            && Cached(after, id) == (if ps[n].scheduleID == id then Cached(alone, id) else Cached(before, id))
            && About(all, id) ==
               About(offers, id) + if ps[n].scheduleID == id && offer.Some? then [offer.value] else []
  {
    var n := |ps| - 1;
    var (before, offers) := CheckedAll(m, catalog, ps[..n], teams, outside);
    var offer := Checked(before, catalog, ps[n], teams, outside(n)).1;
    if ps[n].scheduleID != id { ChecksOnlyItsOwn(before, catalog, ps[n], teams, outside(n), id); }
    if offer.Some? { assert (offers + [offer.value])[..|offers|] == offers; }
  }

  lemma {:induction false} ChecksLeave(m: Memory, catalog: Catalog, ps: seq<Projected>, teams: TeamNames,
                                       outside: nat -> Outside, id: string)
    requires forall k :: 0 <= k < |ps| ==> ps[k].scheduleID != id
    ensures Cached(CheckedAll(m, catalog, ps, teams, outside).0, id) == Cached(m, id)
    ensures About(CheckedAll(m, catalog, ps, teams, outside).1, id) == []
  {
    if ps != [] {
      var n := |ps| - 1;
      assert forall k :: 0 <= k < n ==> ps[..n][k] == ps[k];
      ChecksLeave(m, catalog, ps[..n], teams, outside, id);
      LastCheck(m, catalog, ps, teams, outside, id);
    }
  }

  // In a tick each schedule is checked for itself, against what was cached of it when
  // the tick began: what the others look like and how their announcements fared is
  // nowhere in it.
  lemma {:induction false} EachScheduleForItself(m: Memory, catalog: Catalog, ps: seq<Projected>, teams: TeamNames,
                                                 outside: nat -> Outside, k: nat)
    requires ListedOnce(ps) && k < |ps|
    ensures var (after, offers) := CheckedAll(m, catalog, ps, teams, outside);
            var (alone, offer) := Checked(m, catalog, ps[k], teams, outside(k));
            && Cached(after, ps[k].scheduleID) == Cached(alone, ps[k].scheduleID)
            && About(offers, ps[k].scheduleID) == if offer.Some? then [offer.value] else []
  {
    var n, id := |ps| - 1, ps[k].scheduleID;
    assert forall j :: 0 <= j < n ==> ps[..n][j] == ps[j];
    LastCheck(m, catalog, ps, teams, outside, id);
    if k == n {
      LastForItself(m, catalog, ps, teams, outside);
    } else {
      EachScheduleForItself(m, catalog, ps[..n], teams, outside, k);
    }
  }

  lemma {:induction false} LastForItself(m: Memory, catalog: Catalog, ps: seq<Projected>, teams: TeamNames,
                                         outside: nat -> Outside)
    requires ListedOnce(ps) && ps != []
    ensures var n := |ps| - 1;
            var (before, offers) := CheckedAll(m, catalog, ps[..n], teams, outside);
            && About(offers, ps[n].scheduleID) == []
            && Checked(before, catalog, ps[n], teams, outside(n)).1 == Checked(m, catalog, ps[n], teams, outside(n)).1
            && Cached(Checked(before, catalog, ps[n], teams, outside(n)).0, ps[n].scheduleID) ==
               Cached(Checked(m, catalog, ps[n], teams, outside(n)).0, ps[n].scheduleID)
  {
    var n := |ps| - 1;
    assert forall j :: 0 <= j < n ==> ps[..n][j] == ps[j];
    ChecksLeave(m, catalog, ps[..n], teams, outside, ps[n].scheduleID);
    CheckedAllKeeps(m, catalog, ps[..n], teams, outside);
    SameCacheSameCheck(CheckedAll(m, catalog, ps[..n], teams, outside).0, m, catalog, ps[n], teams, outside(n));
  }

  lemma SameCacheSameCheck(m: Memory, n: Memory, catalog: Catalog, p: Projected, teams: TeamNames, o: Outside)
    requires Cached(m, p.scheduleID) == Cached(n, p.scheduleID) && m.warmedUp == n.warmedUp
    ensures Cached(Checked(m, catalog, p, teams, o).0, p.scheduleID) ==
            Cached(Checked(n, catalog, p, teams, o).0, p.scheduleID)
    ensures Checked(m, catalog, p, teams, o).1 == Checked(n, catalog, p, teams, o).1
  {
  }

  // Warming up records what every projected schedule looks like.
  lemma {:induction false} WarmUpRecords(m: Memory, catalog: Catalog, ps: seq<Projected>, teams: TeamNames,
                                         outside: nat -> Outside, k: nat)
    requires !m.warmedUp && k < |ps|
    requires forall j :: k < j < |ps| ==> ps[j].scheduleID != ps[k].scheduleID
    ensures Cached(CheckedAll(m, catalog, ps, teams, outside).0, ps[k].scheduleID) == Some(Observed(ps[k]).duty)
  {
    var n := |ps| - 1;
    CheckedAllKeeps(m, catalog, ps[..n], teams, outside);
    if k < n {
      WarmUpRecords(m, catalog, ps[..n], teams, outside, k);
      ChecksOnlyItsOwn(CheckedAll(m, catalog, ps[..n], teams, outside).0, catalog, ps[n], teams, outside(n),
                       ps[k].scheduleID);
    }
  }

  // ---- whole runs --------------------------------------------------------------------------

  // Settled announcements that name u on a schedule.
  function Told(offers: seq<Offer>, id: string, u: string): nat {
    if offers == [] then 0
    else Told(offers[..|offers| - 1], id, u) + if Names(Some(offers[|offers| - 1]), id, u) then 1 else 0
  }

  lemma {:induction false} ToldOfConcat(a: seq<Offer>, b: seq<Offer>, id: string, u: string)
    ensures Told(a + b, id, u) == Told(a, id, u) + Told(b, id, u)
  {
    if b == [] {
      assert a + b == a;
    } else {
      assert (a + b)[..|a + b| - 1] == a + b[..|b| - 1];
      ToldOfConcat(a, b[..|b| - 1], id, u);
    }
  }

  // How often u entered what is cached for a schedule, over the checks of one tick.
  function EnteredIn(m: Memory, catalog: Catalog, ps: seq<Projected>, teams: TeamNames, outside: nat -> Outside,
                     id: string, u: string): nat {
    if ps == [] then 0
    else
      var n := |ps| - 1;
      var before := CheckedAll(m, catalog, ps[..n], teams, outside).0;
      var after := Checked(before, catalog, ps[n], teams, outside(n)).0;
      EnteredIn(m, catalog, ps[..n], teams, outside, id, u) + if Enters(before, after, id, u) then 1 else 0
  }

  lemma {:induction false} ToldIffEnteredInTick(m: Memory, catalog: Catalog, ps: seq<Projected>, teams: TeamNames,
                                                outside: nat -> Outside, id: string, u: string)
    requires m.warmedUp
    ensures Told(CheckedAll(m, catalog, ps, teams, outside).1, id, u) ==
            EnteredIn(m, catalog, ps, teams, outside, id, u)
  {
    if ps != [] {
      var n := |ps| - 1;
      var (before, offers) := CheckedAll(m, catalog, ps[..n], teams, outside);
      ToldIffEnteredInTick(m, catalog, ps[..n], teams, outside, id, u);
      CheckedAllKeeps(m, catalog, ps[..n], teams, outside);
      NamedIffEntered(before, catalog, ps[n], teams, outside(n), id, u);
      var offer := Checked(before, catalog, ps[n], teams, outside(n)).1;
      if offer.Some? { assert (offers + [offer.value])[..|offers|] == offers; }
    }
  }

  // A schedule is listed once: its id is a primary key.
  predicate ListedOnce(ps: seq<Projected>) {
    forall j, k :: 0 <= j < k < |ps| ==> ps[j].scheduleID != ps[k].scheduleID
  }

  // Before the first complete tick nothing is cached, and that tick only records.
  lemma {:induction false} NobodyEntersWhileWarming(m: Memory, catalog: Catalog, ps: seq<Projected>, teams: TeamNames,
                                                    outside: nat -> Outside, id: string, u: string)
    requires m == Memory(map[], false) && ListedOnce(ps)
    ensures EnteredIn(m, catalog, ps, teams, outside, id, u) == 0
  {
    if ps != [] {
      var n := |ps| - 1;
      NobodyEntersWhileWarming(m, catalog, ps[..n], teams, outside, id, u);
      CheckedAllKeeps(m, catalog, ps[..n], teams, outside);
      var before := CheckedAll(m, catalog, ps[..n], teams, outside).0;
      assert forall k :: 0 <= k < n ==> ps[..n][k] == ps[k];
      assert Cached(before, ps[n].scheduleID) == None;
      if id != ps[n].scheduleID {
        ChecksOnlyItsOwn(before, catalog, ps[n], teams, outside(n), id);
      }
    }
  }

  const COLD: Memory := Memory(map[], false)

  function Ran(m: Memory, catalog: Catalog, readings: seq<Reading>): (Memory, seq<Offer>) {
    if readings == [] then (m, [])
    else
      var n := |readings| - 1;
      var (before, offers) := Ran(m, catalog, readings[..n]);
      var (after, more) := Ticked(before, catalog, readings[n]);
      (after, offers + more)
  }

  function Entered(m: Memory, catalog: Catalog, readings: seq<Reading>, id: string, u: string): nat {
    if readings == [] then 0
    else
      var n := |readings| - 1;
      var (before, r) := (Ran(m, catalog, readings[..n]).0, readings[n]);
      Entered(m, catalog, readings[..n], id, u) +
      if Complete(r) && r.bulk.value.projected != []
      then EnteredIn(before, catalog, r.bulk.value.projected, r.teams.value, r.outside, id, u) else 0
  }

  predicate AllListedOnce(readings: seq<Reading>) {
    forall k :: 0 <= k < |readings| && readings[k].bulk.Some? ==> ListedOnce(readings[k].bulk.value.projected)
  }

  // Over every run of a process from its start: the settled announcements that name
  // u on a schedule are exactly as many as the times u entered what the detector
  // holds of that schedule after first observing it - failed reads, damage, refused
  // and repeated announcements included.
  lemma {:induction false} ToldAsOftenAsEntered(catalog: Catalog, readings: seq<Reading>, id: string, u: string)
    requires AllListedOnce(readings)
    ensures Told(Ran(COLD, catalog, readings).1, id, u) == Entered(COLD, catalog, readings, id, u)
    ensures Ran(COLD, catalog, readings).0.warmedUp || Ran(COLD, catalog, readings) == (COLD, [])
  {
    if readings != [] {
      var n := |readings| - 1;
      ToldAsOftenAsEntered(catalog, readings[..n], id, u);
      TickTellsWhoEntered(Ran(COLD, catalog, readings[..n]).0, catalog, readings[n], id, u);
      ToldOfConcat(Ran(COLD, catalog, readings[..n]).1,
                   Ticked(Ran(COLD, catalog, readings[..n]).0, catalog, readings[n]).1, id, u);
    }
  }

  lemma {:induction false} TickTellsWhoEntered(m: Memory, catalog: Catalog, r: Reading, id: string, u: string)
    requires m.warmedUp || m == COLD
    requires r.bulk.Some? ==> ListedOnce(r.bulk.value.projected)
    ensures Ticked(m, catalog, r).0.warmedUp || Ticked(m, catalog, r) == (m, [])
    ensures Told(Ticked(m, catalog, r).1, id, u) ==
            if Complete(r) && r.bulk.value.projected != []
            then EnteredIn(m, catalog, r.bulk.value.projected, r.teams.value, r.outside, id, u) else 0
  {
    if Complete(r) && r.bulk.value.projected != [] {
      if m.warmedUp {
        ToldIffEnteredInTick(m, catalog, r.bulk.value.projected, r.teams.value, r.outside, id, u);
      } else {
        NobodyEntersWhileWarming(m, catalog, r.bulk.value.projected, r.teams.value, r.outside, id, u);
        CheckedAllKeeps(m, catalog, r.bulk.value.projected, r.teams.value, r.outside);
      }
    }
  }

  // Somebody who stayed on duty through a run is never told in it.
  lemma {:induction false} NobodyWhoStaysIsTold(m: Memory, catalog: Catalog, ps: seq<Projected>, teams: TeamNames,
                                                outside: nat -> Outside, id: string, u: string)
    requires m.warmedUp
    requires forall i :: 0 <= i <= |ps| ==> u in OnDuty(CheckedAll(m, catalog, ps[..i], teams, outside).0, id)
    ensures forall k :: 0 <= k < |CheckedAll(m, catalog, ps, teams, outside).1| ==>
              var offer := CheckedAll(m, catalog, ps, teams, outside).1[k];
              offer.scheduleID == id ==> u !in offer.notify
  {
    if ps != [] {
      var n := |ps| - 1;
      forall i | 0 <= i <= n ensures u in OnDuty(CheckedAll(m, catalog, ps[..n][..i], teams, outside).0, id) {
        assert ps[..n][..i] == ps[..i];
      }
      NobodyWhoStaysIsTold(m, catalog, ps[..n], teams, outside, id, u);
      if ps[n].scheduleID == id {
        NobodyOnDutyIsTold(CheckedAll(m, catalog, ps[..n], teams, outside).0, catalog, ps[n], teams, outside(n), u);
      }
    }
  }
}
