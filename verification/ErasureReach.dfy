// The overrides at an erasure's instant (internal/erasure/service.go,
// internal/scheduleconfig/service.go and override.go): when one still reaches past it.

module ErasureReach {
  import opened Order
  import opened Erasure
  import opened ErasureRuns
  import opened ErasureInstant

  // The override was cancelled at the instant or before it, or before its own window
  // began; or something else was put in its place.
  predicate TakesBack(c: Change, id: string, was: Override, at: int) {
    match c
    case Cancelled(x, when) => x == id && (when <= at || when <= was.validFrom)
    case Placed(x) => x == id
  }

  predicate TakenBack(changes: seq<Change>, from: nat, id: string, was: Override, at: int) {
    exists k :: from <= k < |changes| && TakesBack(changes[k], id, was, at)
  }

  // The tail a history had when it was n revisions long deletes the schedule, from
  // after the instant.
  predicate DeletedAhead(h: History, n: nat, at: int) {
    0 < n <= |h| && !h[n - 1].active && h[n - 1].from > at
  }

  // What the override was, and the history of its schedule.
  predicate AheadThen(d: Data, dec: Decision, was: Override, at: int) {
    DeletedAhead(HistoryOf(d, was.scheduleID), LengthOf(dec.lengths, was.scheduleID), at)
  }

  // When the erasure was decided, the override reached past its instant on a schedule
  // whose deletion was to take effect later; and nobody has taken it back since.
  predicate LeftReaching(d: Data, user: string, at: int, dec: Decision, id: string) {
    && id in dec.overrides && Reaches(dec.overrides[id], user, at)
    && AheadThen(d, dec, dec.overrides[id], at)
    && !TakenBack(d.changes, dec.when, id, dec.overrides[id], at)
  }

  // ---- what every run keeps --------------------------------------------------------------

  predicate Narrowed(o: Override, was: Override) {
    o.scheduleID == was.scheduleID && o.validFrom == was.validFrom && o.validTo <= was.validTo
  }

  ghost predicate ReachesExactly(d: Data, user: string, at: int, dec: Decision, id: string)
    requires id in d.overrides
  {
    && (Reaches(d.overrides[id], user, at) <==> LeftReaching(d, user, at, dec, id))
    && (Reaches(d.overrides[id], user, at) ==> Narrowed(d.overrides[id], dec.overrides[id]))
  }

  // An override that reached then ends by the deletion of its schedule.
  predicate EndsAhead(d: Data, dec: Decision, was: Override, at: int) {
    && AheadThen(d, dec, was, at)
    && was.validTo <= HistoryOf(d, was.scheduleID)[LengthOf(dec.lengths, was.scheduleID) - 1].from
  }

  ghost predicate AllEndAhead(d: Data, user: string, at: int, dec: Decision) {
    forall id :: id in dec.overrides && Reaches(dec.overrides[id], user, at) ==>
      EndsAhead(d, dec, dec.overrides[id], at)
  }

  ghost predicate Exactly(d: Data, user: string, at: int, dec: Decision) {
    && dec.when <= |d.changes| && dec.overrides.Keys <= d.overrides.Keys
    && AllEndAhead(d, user, at, dec)
    && forall id :: id in d.overrides ==> ReachesExactly(d, user, at, dec, id)
  }

  ghost predicate WindowsOpen(d: Data) {
    forall id :: id in d.overrides && !d.overrides[id].gone ==> d.overrides[id].validFrom < d.overrides[id].validTo
  }

  ghost predicate ReachInv(s: State) {
    && WindowsOpen(s.d)
    && (forall u :: u in s.d.users && s.d.users[u].erasedAt.Some? ==>
          u in s.d.decided && Exactly(s.d, u, s.d.users[u].erasedAt.value, s.d.decided[u]))
    && (forall i :: i in s.procs && s.procs[i].job.Erase? && s.procs[i].job.scan.Cleared? ==>
          Exactly(s.d, s.procs[i].job.user, s.procs[i].job.scan.at, s.procs[i].job.scan.decision))
  }

  // Where the erasure is decided: a live schedule with a reaching override would have
  // blocked it.
  lemma {:induction false} DecidedHere(d: Data, seen: map<string, Snapshot>, user: string, now: int)
    requires OverridesEnd(d) && !Blocked(d, seen, user, now)
    ensures Exactly(d, user, now, DecisionOf(d))
  {
    forall id | id in d.overrides && Reaches(d.overrides[id], user, now)
      ensures EndsAhead(d, DecisionOf(d), d.overrides[id], now)
    {
      var o := d.overrides[id];
      assert EndsWithItsSchedule(d, o);
      assert !InTheWay(d, seen, user, now, o.scheduleID);
    }
  }

  // ---- changes to one override -------------------------------------------------------------

  lemma TakenBackBy(changes: seq<Change>, c: Change, from: nat, id: string, was: Override, at: int)
    requires from <= |changes|
    ensures TakenBack(changes + [c], from, id, was, at) <==>
              TakenBack(changes, from, id, was, at) || TakesBack(c, id, was, at)
  {
    var more := changes + [c];
    assert more[|changes|] == c;
    forall k | 0 <= k < |changes| ensures more[k] == changes[k] {}
  }

  // A cancel ends the reach exactly when it takes the override back.
  lemma {:induction false} CancelKeeps(d: Data, user: string, at: int, dec: Decision, id: string, when: int)
    requires id in d.overrides && Exactly(d, user, at, dec) && WindowsOpen(d)
    ensures var t := d.(overrides := d.overrides[id := Ended(d.overrides[id], when)],
                        changes := d.changes + [Cancelled(id, when)]);
            Exactly(t, user, at, dec) && WindowsOpen(t)
  {
    var t := d.(overrides := d.overrides[id := Ended(d.overrides[id], when)],
                changes := d.changes + [Cancelled(id, when)]);
    forall x | x in t.overrides ensures ReachesExactly(t, user, at, dec, x) {
      assert ReachesExactly(d, user, at, dec, x);
      if x in dec.overrides { TakenBackBy(d.changes, Cancelled(id, when), dec.when, x, dec.overrides[x], at); }
    }
    assert AllEndAhead(t, user, at, dec) by { SameHistories(d, t, user, at, dec); }
  }

  lemma {:induction false} PlacingKeeps(d: Data, user: string, at: int, dec: Decision, id: string, o: Override)
    requires Exactly(d, user, at, dec) && o.user != user
    ensures Exactly(d.(overrides := d.overrides[id := o], changes := d.changes + [Placed(id)]), user, at, dec)
  {
    var t := d.(overrides := d.overrides[id := o], changes := d.changes + [Placed(id)]);
    forall x | x in t.overrides ensures ReachesExactly(t, user, at, dec, x) {
      assert x in d.overrides ==> ReachesExactly(d, user, at, dec, x);
      if x in dec.overrides { TakenBackBy(d.changes, Placed(id), dec.when, x, dec.overrides[x], at); }
    }
    assert AllEndAhead(t, user, at, dec) by { SameHistories(d, t, user, at, dec); }
  }

  lemma SameHistories(d: Data, t: Data, user: string, at: int, dec: Decision)
    requires t.schedules == d.schedules && AllEndAhead(d, user, at, dec)
    ensures AllEndAhead(t, user, at, dec)
  {
    forall id | id in dec.overrides && Reaches(dec.overrides[id], user, at)
      ensures EndsAhead(t, dec, dec.overrides[id], at)
    {
      assert EndsAhead(d, dec, dec.overrides[id], at);
    }
  }

  // ---- saves --------------------------------------------------------------------------------

  // Histories only grow.
  ghost predicate Grown(d: Data, t: Data) {
    forall id :: HistoryOf(d, id) <= HistoryOf(t, id)
  }

  lemma SaveGrows(d: Data, id: string, content: Option<Snapshot>, from: int)
    ensures Grown(d, Saved(d, id, content, from))
  {
  }

  lemma AheadStays(d: Data, t: Data, dec: Decision, was: Override, at: int)
    requires Grown(d, t) && EndsAhead(d, dec, was, at)
    ensures EndsAhead(t, dec, was, at)
  {
    assert HistoryOf(d, was.scheduleID) <= HistoryOf(t, was.scheduleID);
  }

  // A later deletion finds nothing left to end of an override that an earlier one ended.
  lemma {:induction false} DeletionLeaves(d: Data, dec: Decision, o: Override, was: Override, at: int, from: int)
    requires HistoriesIncrease(d) && Follows(HistoryOf(d, o.scheduleID), from)
    requires EndsAhead(d, dec, was, at) && Narrowed(o, was) && o.validFrom < o.validTo
    ensures Ended(o, from) == o
  {
    var h := HistoryOf(d, was.scheduleID);
    var n := LengthOf(dec.lengths, was.scheduleID);
    assert Increasing(h);
    assert h[n - 1].from <= h[|h| - 1].from;
  }

  lemma EndedReachesNoFurther(o: Override, from: int, user: string, at: int)
    ensures Reaches(Ended(o, from), user, at) ==> Reaches(o, user, at)
    ensures !o.gone && o.validFrom < o.validTo && !Ended(o, from).gone ==>
              Ended(o, from).validFrom < Ended(o, from).validTo
  {
  }

  lemma {:induction false} SaveKeepsReach(d: Data, id: string, content: Option<Snapshot>, from: int, user: string,
                                          at: int, dec: Decision)
    requires HistoriesIncrease(d) && Follows(HistoryOf(d, id), from) && Exactly(d, user, at, dec) && WindowsOpen(d)
    ensures Exactly(Saved(d, id, content, from), user, at, dec)
  {
    var t := Saved(d, id, content, from);
    SaveGrows(d, id, content, from);
    forall x | x in dec.overrides && Reaches(dec.overrides[x], user, at)
      ensures EndsAhead(t, dec, dec.overrides[x], at)
    {
      AheadStays(d, t, dec, dec.overrides[x], at);
    }
    forall x | x in t.overrides ensures ReachesExactly(t, user, at, dec, x) {
      SaveKeepsOne(d, id, content, from, user, at, dec, x);
    }
  }

  lemma {:induction false} SaveKeepsOne(d: Data, id: string, content: Option<Snapshot>, from: int, user: string,
                                        at: int, dec: Decision, x: string)
    requires HistoriesIncrease(d) && Follows(HistoryOf(d, id), from) && Exactly(d, user, at, dec) && WindowsOpen(d)
    requires x in d.overrides
    ensures ReachesExactly(Saved(d, id, content, from), user, at, dec, x)
  {
    var t, o := Saved(d, id, content, from), d.overrides[x];
    assert ReachesExactly(d, user, at, dec, x);
    SaveGrows(d, id, content, from);
    EndedReachesNoFurther(o, from, user, at);
    if x in dec.overrides && Reaches(dec.overrides[x], user, at) {
      AheadStays(d, t, dec, dec.overrides[x], at);
      if Reaches(o, user, at) && o.scheduleID == id { DeletionLeaves(d, dec, o, dec.overrides[x], at, from); }
    }
  }

  lemma SaveKeepsWindows(d: Data, id: string, content: Option<Snapshot>, from: int)
    requires WindowsOpen(d)
    ensures WindowsOpen(Saved(d, id, content, from))
  {
    forall x | x in d.overrides ensures !d.overrides[x].gone && !Ended(d.overrides[x], from).gone ==>
                                          Ended(d.overrides[x], from).validFrom < Ended(d.overrides[x], from).validTo
    {
      EndedReachesNoFurther(d.overrides[x], from, "", 0);
    }
  }

  // ---- every move -----------------------------------------------------------------------------

  // A move that touches neither overrides nor histories.
  lemma OtherwiseKeeps(d: Data, t: Data, user: string, at: int, dec: Decision)
    requires Exactly(d, user, at, dec)
    requires t.schedules == d.schedules && t.overrides == d.overrides && t.changes == d.changes
    ensures Exactly(t, user, at, dec)
  {
    SameHistories(d, t, user, at, dec);
    forall x | x in t.overrides ensures ReachesExactly(t, user, at, dec, x) {
      assert ReachesExactly(d, user, at, dec, x);
    }
  }

  // Nobody puts the user on duty in this move.
  predicate SparesUser(s: State, m: Move, user: string) {
    m.Commit? && m.i in s.procs && s.procs[m.i].job.StandIn? ==>
      s.procs[m.i].job.assignment.user != user || !Active(s.d, user)
  }

  lemma {:induction false} MoveKeepsExactly(s: State, m: Move, user: string, at: int, dec: Decision)
    requires Inv(s) && Enabled(s, false, m) && WindowsOpen(s.d)
    requires Exactly(s.d, user, at, dec) && SparesUser(s, m, user)
    ensures Exactly(Do(s, false, m).d, user, at, dec)
  {
    if m.Cancel? {
      CancelKeeps(s.d, user, at, dec, m.overrideID, m.at);
    } else if m.Commit? && s.procs[m.i].job.Save? {
      var job := s.procs[m.i].job;
      assert Knows(s.d, s.procs[m.i]);
      SaveKeepsReach(s.d, job.scheduleID, job.content, job.effective.value, user, at, dec);
    } else if m.Commit? && s.procs[m.i].job.StandIn? {
      var job := s.procs[m.i].job;
      if Do(s, false, m).d != s.d { PlacingKeeps(s.d, user, at, dec, job.overrideID, job.assignment); }
    } else {
      OtherwiseKeeps(s.d, Do(s, false, m).d, user, at, dec);
    }
  }

  lemma {:induction false} MoveKeepsWindows(s: State, m: Move)
    requires Enabled(s, false, m) && WindowsOpen(s.d)
    ensures WindowsOpen(Do(s, false, m).d)
  {
    if m.Commit? && s.procs[m.i].job.Save? && s.procs[m.i].job.effective.Some? {
      var job := s.procs[m.i].job;
      SaveKeepsWindows(s.d, job.scheduleID, job.content, job.effective.value);
    }
  }

  lemma {:induction false} MoveKeepsErased(s: State, m: Move, u: string)
    requires Inv(s) && ReachInv(s) && Enabled(s, false, m)
    requires var t := Do(s, false, m).d; u in t.users && t.users[u].erasedAt.Some?
    ensures var t := Do(s, false, m).d;
            u in t.decided && Exactly(t, u, t.users[u].erasedAt.value, t.decided[u])
  {
    if m.Commit? && s.procs[m.i].job.Erase? && s.procs[m.i].job.user == u {
      MoveKeepsExactly(s, m, u, s.procs[m.i].job.scan.at, s.procs[m.i].job.scan.decision);
    } else {
      ErasedStays(s, m, u);
      MoveKeepsExactly(s, m, u, s.d.users[u].erasedAt.value, s.d.decided[u]);
    }
  }

  lemma {:induction false} MoveKeepsCleared(s: State, m: Move, i: nat)
    requires Inv(s) && ReachInv(s) && Enabled(s, false, m)
    requires var t := Do(s, false, m); i in t.procs && t.procs[i].job.Erase? && t.procs[i].job.scan.Cleared?
    ensures var t := Do(s, false, m);
            Exactly(t.d, t.procs[i].job.user, t.procs[i].job.scan.at, t.procs[i].job.scan.decision)
  {
    if m.Clear? && m.i == i {
      DecidedHere(s.d, s.procs[i].job.scan.seen, s.procs[i].job.user, m.now);
    } else {
      var job := s.procs[i].job;
      if m.Commit? && s.procs[m.i].job.StandIn? { StandInIsSafe(s.procs, m.i, i); }
      MoveKeepsExactly(s, m, job.user, job.scan.at, job.scan.decision);
    }
  }

  lemma {:induction false} EveryRunIsReached(users: map<string, UserRow>, moves: seq<Move>)
    requires Staffed(users)
    ensures ReachInv(After(users, false, moves))
  {
    if moves != [] {
      var s, m := After(users, false, moves[..|moves| - 1]), moves[|moves| - 1];
      EveryRunIsReached(users, moves[..|moves| - 1]);
      EveryRunKeepsInv(users, false, moves[..|moves| - 1]);
      if Enabled(s, false, m) { MoveKeepsReachInv(s, m); }
    }
  }

  lemma {:induction false} MoveKeepsReachInv(s: State, m: Move)
    requires Inv(s) && ReachInv(s) && Enabled(s, false, m)
    ensures ReachInv(Do(s, false, m))
  {
    var t := Do(s, false, m);
    MoveKeepsWindows(s, m);
    forall u | u in t.d.users && t.d.users[u].erasedAt.Some?
      ensures u in t.d.decided && Exactly(t.d, u, t.d.users[u].erasedAt.value, t.d.decided[u])
    {
      MoveKeepsErased(s, m, u);
    }
    forall i | i in t.procs && t.procs[i].job.Erase? && t.procs[i].job.scan.Cleared?
      ensures Exactly(t.d, t.procs[i].job.user, t.procs[i].job.scan.at, t.procs[i].job.scan.decision)
    {
      MoveKeepsCleared(s, m, i);
    }
  }

  // ---- the whole of the instant ----------------------------------------------------------------

  // Whatever clocks are read, over every run and for every committed erasure: an
  // override of the user reaches past the erasure's instant if and only if it did when
  // the erasure was decided, on a schedule already deleted from a later instant, and
  // has not been taken back since. It then ends by that deletion. Saves, deletions and
  // stand-ins committed since make no difference.
  lemma {:induction false} ReachesOnlyToADeletion(users: map<string, UserRow>, moves: seq<Move>, u: string, id: string)
    requires Staffed(users)
    requires var d := After(users, false, moves).d; u in d.users && d.users[u].erasedAt.Some? && id in d.overrides
    ensures var d := After(users, false, moves).d;
            && u in d.decided
            && (Reaches(d.overrides[id], u, d.users[u].erasedAt.value) <==>
                  LeftReaching(d, u, d.users[u].erasedAt.value, d.decided[u], id))
            && (Reaches(d.overrides[id], u, d.users[u].erasedAt.value) ==>
                  EndsAhead(d, d.decided[u], d.overrides[id], d.users[u].erasedAt.value))
  {
    EveryRunIsReached(users, moves);
    var d := After(users, false, moves).d;
    assert ReachesExactly(d, u, d.users[u].erasedAt.value, d.decided[u], id);
  }

  // So the instant is clean - no revision in force names the user, no override of
  // theirs reaches past it - if and only if no schedule had a tail ahead of it over a
  // revision that names them, and none they stood in on had a deletion ahead of it.
  lemma {:induction false} CleanUnlessSomethingWasAhead(users: map<string, UserRow>, moves: seq<Move>, u: string)
    requires Staffed(users)
    requires var d := After(users, false, moves).d; u in d.users && d.users[u].erasedAt.Some?
    ensures var d := After(users, false, moves).d;
            var at := d.users[u].erasedAt.value;
            && u in d.decided
            && (Past(d, u, at) <==>
                  && (forall id :: id in d.schedules ==>
                        !YetToBegin(d.schedules[id], LengthOf(d.decided[u].lengths, id), u, at))
                  && (forall id :: id in d.overrides ==> !LeftReaching(d, u, at, d.decided[u], id)))
  {
    var d := After(users, false, moves).d;
    EveryRunIsReached(users, moves);
    forall id | id in d.schedules
      ensures NamedAt(d.schedules[id], u, d.users[u].erasedAt.value) <==>
                YetToBegin(d.schedules[id], LengthOf(d.decided[u].lengths, id), u, d.users[u].erasedAt.value)
    {
      NamedOnlyWhereATailWasAhead(users, moves, u, id);
    }
    forall id | id in d.overrides
      ensures Reaches(d.overrides[id], u, d.users[u].erasedAt.value) <==>
                LeftReaching(d, u, d.users[u].erasedAt.value, d.decided[u], id)
    {
      ReachesOnlyToADeletion(users, moves, u, id);
    }
  }
}
