// The instant an erasure is stamped with, what it is refused for, and that locks
// taken in one order never leave everybody waiting (internal/erasure/service.go).

module ErasureInstant {
  import opened Order
  import opened Erasure
  import opened ErasureRuns

  // ---- the instant -----------------------------------------------------------------------

  // Once nothing blocks an erasure, a schedule still names the user at the instant
  // exactly when its tail has yet to begin and what it replaces names them.
  lemma {:induction false} NamedOnlyUntilTheTailBegins(d: Data, seen: map<string, Snapshot>, user: string, now: int,
                                                       id: string)
    requires !Blocked(d, seen, user, now) && SeesAll(d, user, seen) && id in d.schedules && d.schedules[id] != []
    ensures var h := d.schedules[id];
            NamedAt(h, user, now) <==> h[|h| - 1].from > now && NamedAt(h[..|h| - 1], user, now)
  {
    NobodyNamedHere(d, seen, user, now);
    assert !NamedBy(d.schedules[id], user);
  }

  lemma {:induction false} NothingNamedNow(d: Data, clock: int, seen: map<string, Snapshot>, user: string, now: int)
    requires Begun(d, clock) && OverridesEnd(d) && now >= clock && !Blocked(d, seen, user, now)
            && SeesAll(d, user, seen)
    ensures Past(d, user, now)
  {
    forall id | id in d.schedules ensures !NamedAt(d.schedules[id], user, now) {
      NamedOnlyUntilTheTailBegins(d, seen, user, now, id);
    }
    forall o | o in d.overrides ensures !Reaches(d.overrides[o], user, now) {
      if Reaches(d.overrides[o], user, now) { AReachingOverrideBlocks(d, clock, seen, user, now, o); }
    }
  }

  lemma AReachingOverrideBlocks(d: Data, clock: int, seen: map<string, Snapshot>, user: string, now: int, o: string)
    requires Begun(d, clock) && OverridesEnd(d) && now >= clock && o in d.overrides
            && Reaches(d.overrides[o], user, now)
    ensures Blocked(d, seen, user, now)
  {
    var id := d.overrides[o].scheduleID;
    assert EndsWithItsSchedule(d, d.overrides[o]);
    assert Live(HistoryOf(d, id)) && id in d.schedules;
    assert StandsInOn(d, user, now, id);
    assert InTheWay(d, seen, user, now, id);
  }

  lemma {:induction false} AppendedIsPast(h: History, r: Revision, user: string, at: int)
    requires !NamedAt(h, user, at) && (r.active ==> !Names(r.snapshot, user))
    ensures !NamedAt(h + [r], user, at)
  {
    assert (h + [r])[..|h|] == h;
  }

  // What was past for somebody a save does not put on duty stays past, whenever the
  // save takes effect.
  lemma {:induction false} SaveKeepsPast(d: Data, id: string, content: Option<Snapshot>, from: int, user: string,
                                         at: int)
    requires Past(d, user, at) && (content.Some? && Names(content.value, user) ==> !Active(d, user))
    ensures Past(Saved(d, id, content, from), user, at)
  {
    var t, h := Saved(d, id, content, from), HistoryOf(d, id);
    if content.Some? { NamesIsMember(content.value, user); }
    if t != d {
      assert !NamedAt(h, user, at);
      AppendedIsPast(h, t.schedules[id][|h|], user, at);
    }
  }

  lemma SaveBegins(d: Data, clock: int, id: string, content: Option<Snapshot>, from: int)
    requires Begun(d, clock) && from <= clock
    ensures Begun(Saved(d, id, content, from), clock)
  {
  }

  lemma {:induction false} SaveLeavesErasedPast(d: Data, clock: int, id: string, content: Option<Snapshot>, from: int)
    requires ErasedArePast(d, clock)
    ensures ErasedArePast(Saved(d, id, content, from), clock)
  {
    forall u | u in d.users && d.users[u].erasedAt.Some?
      ensures Past(Saved(d, id, content, from), u, d.users[u].erasedAt.value)
    {
      SaveKeepsPast(d, id, content, from, u, d.users[u].erasedAt.value);
    }
  }

  lemma {:induction false} SaveIsSteady(s: State, i: nat)
    requires Inv(s) && SteadyInv(s) && i in s.procs && MayCommit(s.procs[i]) && s.procs[i].job.Save?
    ensures SteadyInv(Do(s, true, Commit(i)))
  {
    var job := s.procs[i].job;
    var from := job.effective.value;
    var t := Saved(s.d, job.scheduleID, job.content, from);
    SaveBegins(s.d, s.clock, job.scheduleID, job.content, from);
    SaveLeavesErasedPast(s.d, s.clock, job.scheduleID, job.content, from);
    forall j | j in s.procs - {i} ensures IsPast(t, s.clock, s.procs[j]) {
      assert IsPast(s.d, s.clock, s.procs[j]);
      if s.procs[j].job.Erase? && s.procs[j].job.scan.Cleared? {
        if job.content.Some? { SavedAreSafe(s.procs, i, j); }
        SaveKeepsPast(s.d, job.scheduleID, job.content, from, s.procs[j].job.user, s.procs[j].job.scan.at);
      }
    }
  }

  lemma {:induction false} StandInIsSteady(s: State, i: nat)
    requires Inv(s) && SteadyInv(s) && i in s.procs && MayCommit(s.procs[i]) && s.procs[i].job.StandIn?
    ensures SteadyInv(Do(s, true, Commit(i)))
  {
    var t := Do(s, true, Commit(i));
    forall u | u in t.d.users && t.d.users[u].erasedAt.Some? ensures Past(t.d, u, t.d.users[u].erasedAt.value) {
      assert Past(s.d, u, s.d.users[u].erasedAt.value);
    }
    forall j | j in t.procs ensures IsPast(t.d, t.clock, t.procs[j]) {
      assert IsPast(s.d, s.clock, s.procs[j]);
      if s.procs[j].job.Erase? && s.procs[j].job.scan.Cleared? { StandInIsSafe(s.procs, i, j); }
    }
  }

  // Data that only loses assignments, or only gains users, keeps what is past.
  lemma {:induction false} FewerReach(d: Data, t: Data, user: string, at: int)
    requires Past(d, user, at) && t.schedules == d.schedules
    requires forall o :: o in t.overrides ==>
              o in d.overrides && (Reaches(t.overrides[o], user, at) ==> Reaches(d.overrides[o], user, at))
    ensures Past(t, user, at)
  {
  }

  lemma {:induction false} LightMovesAreSteady(s: State, m: Move)
    requires Inv(s) && SteadyInv(s) && Enabled(s, true, m) && (m.Cancel? || m.NewUser? || m.Tick?)
    ensures SteadyInv(Do(s, true, m))
  {
    var t := Do(s, true, m);
    forall u | u in t.d.users && t.d.users[u].erasedAt.Some? ensures Past(t.d, u, t.d.users[u].erasedAt.value) {
      FewerReach(s.d, t.d, u, s.d.users[u].erasedAt.value);
    }
    forall j | j in t.procs ensures IsPast(t.d, t.clock, t.procs[j]) {
      assert IsPast(s.d, s.clock, s.procs[j]);
      if s.procs[j].job.Erase? && s.procs[j].job.scan.Cleared? {
        FewerReach(s.d, t.d, s.procs[j].job.user, s.procs[j].job.scan.at);
      }
    }
  }

  lemma {:induction false} EraseIsSteady(s: State, i: nat)
    requires Inv(s) && SteadyInv(s) && i in s.procs && MayCommit(s.procs[i])
            && (s.procs[i].job.Erase? || s.procs[i].job.SetRole?)
    ensures SteadyInv(Do(s, true, Commit(i)))
  {
    var t := Do(s, true, Commit(i));
    assert IsPast(s.d, s.clock, s.procs[i]);
    forall u | u in t.d.users && t.d.users[u].erasedAt.Some?
      ensures t.d.users[u].erasedAt.value <= t.clock && Past(t.d, u, t.d.users[u].erasedAt.value)
    {
      FewerReach(s.d, t.d, u, t.d.users[u].erasedAt.value);
    }
    forall j | j in t.procs ensures IsPast(t.d, t.clock, t.procs[j]) {
      assert IsPast(s.d, s.clock, s.procs[j]);
      if s.procs[j].job.Erase? && s.procs[j].job.scan.Cleared? {
        FewerReach(s.d, t.d, s.procs[j].job.user, s.procs[j].job.scan.at);
      }
    }
  }

  predicate OnlyReads(m: Move) {
    m.Start? || m.Take? || m.Scan? || m.Reread? || m.Clear? || m.Check? || m.ReadClock? || m.Abandon?
  }

  lemma {:induction false} ReadingIsSteady(s: State, i: nat, m: Move)
    requires Inv(s) && SteadyInv(s) && OnlyReads(m) && Enabled(s, true, m) && i == m.i
    ensures SteadyInv(Do(s, true, m))
  {
    var t := Do(s, true, m);
    forall j | j in t.procs ensures IsPast(t.d, t.clock, t.procs[j]) {
      if j != i {
        assert IsPast(s.d, s.clock, s.procs[j]);
      } else if m.Clear? {
        assert Knows(s.d, s.procs[i]);
        NothingNamedNow(s.d, s.clock, s.procs[i].job.scan.seen, s.procs[i].job.user, m.now);
      } else if m.Take? {
        assert IsPast(s.d, s.clock, s.procs[j]);
      }
    }
  }

  lemma {:induction false} DoIsSteady(s: State, m: Move)
    requires Inv(s) && SteadyInv(s) && Enabled(s, true, m)
    ensures SteadyInv(Do(s, true, m))
  {
    if m.Cancel? || m.NewUser? || m.Tick? {
      LightMovesAreSteady(s, m);
    } else if !m.Commit? {
      ReadingIsSteady(s, m.i, m);
    } else {
      match s.procs[m.i].job {
        case Save(_, _, _) => SaveIsSteady(s, m.i);
        case StandIn(_, _) => StandInIsSteady(s, m.i);
        case _ => EraseIsSteady(s, m.i);
      }
    }
  }

  lemma {:induction false} EveryRunIsSteady(users: map<string, UserRow>, moves: seq<Move>)
    requires Staffed(users)
    ensures SteadyInv(After(users, true, moves))
  {
    if moves != [] {
      var s, m := After(users, true, moves[..|moves| - 1]), moves[|moves| - 1];
      EveryRunIsSteady(users, moves[..|moves| - 1]);
      EveryRunKeepsInv(users, true, moves[..|moves| - 1]);
      if Enabled(s, true, m) { DoIsSteady(s, m); }
    }
  }

  // With everybody reading the time on one wall and no schedule saved twice in one
  // unit of it, every committed erasure's instant is one at which no revision in force
  // names the user and after which no override of theirs reaches - and stays so,
  // whatever is saved later, and however long a save took between reading the clock
  // and committing.
  lemma {:induction false} TheInstantIsClean(users: map<string, UserRow>, moves: seq<Move>, u: string)
    requires Staffed(users)
    requires var d := After(users, true, moves).d; u in d.users && d.users[u].erasedAt.Some?
    ensures var d := After(users, true, moves).d;
            && (forall id :: id in d.schedules ==> !NamedAt(d.schedules[id], u, d.users[u].erasedAt.value))
            && (forall o :: o in d.overrides ==> !Reaches(d.overrides[o], u, d.users[u].erasedAt.value))
  {
    EveryRunIsSteady(users, moves);
    assert Past(After(users, true, moves).d, u, After(users, true, moves).d.users[u].erasedAt.value);
  }

  // ---- whatever the clocks do -----------------------------------------------------------------

  // The tail a history had when it was n revisions long had yet to begin at the
  // instant, and what it replaced names the user there.
  predicate YetToBegin(h: History, n: nat, user: string, at: int) {
    0 < n <= |h| && h[n - 1].from > at && NamedAt(h[..n - 1], user, at)
  }

  function LengthOf(lengths: Lengths, id: string): nat {
    if id in lengths then lengths[id] else 0
  }

  ghost predicate NamedExactly(d: Data, user: string, at: int, lengths: Lengths) {
    forall id :: id in d.schedules ==>
      && LengthOf(lengths, id) <= |d.schedules[id]|
      && (NamedAt(d.schedules[id], user, at) <==> YetToBegin(d.schedules[id], LengthOf(lengths, id), user, at))
  }

  ghost predicate ErasedExactly(d: Data) {
    forall u :: u in d.users && d.users[u].erasedAt.Some? ==>
      u in d.decided && NamedExactly(d, u, d.users[u].erasedAt.value, d.decided[u].lengths)
  }

  ghost predicate ClearedExactly(d: Data, procs: map<nat, Proc>) {
    forall i :: i in procs && procs[i].job.Erase? && procs[i].job.scan.Cleared? ==>
      NamedExactly(d, procs[i].job.user, procs[i].job.scan.at, procs[i].job.scan.decision.lengths)
  }

  // A revision that names nobody erased changes neither side.
  lemma {:induction false} AppendedExactly(h: History, r: Revision, n: nat, user: string, at: int)
    requires Increasing(h) && Follows(h, r.from) && n <= |h| && (r.active ==> !Names(r.snapshot, user))
    requires NamedAt(h, user, at) <==> YetToBegin(h, n, user, at)
    ensures NamedAt(h + [r], user, at) <==> YetToBegin(h + [r], n, user, at)
  {
    var t := h + [r];
    assert t[..|h|] == h;
    if n > 0 {
      assert t[n - 1] == h[n - 1] && t[..n - 1] == h[..n - 1];
      assert h[n - 1].from < r.from by { if n < |h| { assert h[n - 1].from < h[|h| - 1].from; } }
    }
  }

  lemma {:induction false} SaveKeepsExactly(d: Data, id: string, content: Option<Snapshot>, from: int, user: string,
                                            at: int, lengths: Lengths)
    requires HistoriesIncrease(d) && Follows(HistoryOf(d, id), from) && NamedExactly(d, user, at, lengths)
    requires content.Some? && Names(content.value, user) ==> !Active(d, user)
    requires id !in d.schedules ==> LengthOf(lengths, id) == 0
    ensures NamedExactly(Saved(d, id, content, from), user, at, lengths)
  {
    var t, h := Saved(d, id, content, from), HistoryOf(d, id);
    if content.Some? { NamesIsMember(content.value, user); }
    if t != d { AppendedExactly(h, t.schedules[id][|h|], LengthOf(lengths, id), user, at); }
  }

  // Schedules are never forgotten, so one that is not there was not there.
  ghost predicate LengthsAreOld(d: Data, lengths: Lengths) {
    forall id :: id in lengths ==> id in d.schedules
  }

  ghost predicate ExactInv(s: State) {
    && ErasedExactly(s.d) && ClearedExactly(s.d, s.procs)
    && (forall u :: u in s.d.decided ==> LengthsAreOld(s.d, s.d.decided[u].lengths))
    && (forall i :: i in s.procs && s.procs[i].job.Erase? && s.procs[i].job.scan.Cleared? ==>
          LengthsAreOld(s.d, s.procs[i].job.scan.decision.lengths))
  }

  lemma {:induction false} SaveIsExact(s: State, i: nat)
    requires Inv(s) && ExactInv(s) && i in s.procs && MayCommit(s.procs[i]) && s.procs[i].job.Save?
    ensures ExactInv(Do(s, false, Commit(i)))
  {
    var job := s.procs[i].job;
    var from := job.effective.value;
    var t := Saved(s.d, job.scheduleID, job.content, from);
    assert Knows(s.d, s.procs[i]);
    assert t.decided == s.d.decided && t.users == s.d.users;
    forall u | u in t.users && t.users[u].erasedAt.Some?
      ensures NamedExactly(t, u, t.users[u].erasedAt.value, t.decided[u].lengths)
    {
      SaveKeepsExactly(s.d, job.scheduleID, job.content, from, u, s.d.users[u].erasedAt.value, s.d.decided[u].lengths);
    }
    forall j | j in s.procs - {i} && s.procs[j].job.Erase? && s.procs[j].job.scan.Cleared?
      ensures NamedExactly(t, s.procs[j].job.user, s.procs[j].job.scan.at, s.procs[j].job.scan.decision.lengths)
    {
      if job.content.Some? { SavedAreSafe(s.procs, i, j); }
      SaveKeepsExactly(s.d, job.scheduleID, job.content, from, s.procs[j].job.user, s.procs[j].job.scan.at,
                       s.procs[j].job.scan.decision.lengths);
    }
  }

  // Where the erasure is decided.
  lemma {:induction false} DecidedExactly(d: Data, seen: map<string, Snapshot>, user: string, now: int)
    requires !Blocked(d, seen, user, now) && SeesAll(d, user, seen)
    ensures NamedExactly(d, user, now, LengthsOf(d.schedules)) && LengthsAreOld(d, LengthsOf(d.schedules))
  {
    forall id | id in d.schedules
      ensures NamedAt(d.schedules[id], user, now) <==> YetToBegin(d.schedules[id], |d.schedules[id]|, user, now)
    {
      if d.schedules[id] != [] { NamedOnlyUntilTheTailBegins(d, seen, user, now, id); }
    }
  }

  lemma ErasedStays(s: State, m: Move, u: string)
    requires Enabled(s, false, m) && !(m.Commit? && s.procs[m.i].job.Erase? && s.procs[m.i].job.user == u)
    requires var t := Do(s, false, m).d; u in t.users && t.users[u].erasedAt.Some?
    ensures u in s.d.users && Do(s, false, m).d.users[u].erasedAt == s.d.users[u].erasedAt
    ensures u in s.d.decided ==> u in Do(s, false, m).d.decided && Do(s, false, m).d.decided[u] == s.d.decided[u]
  {
  }

  lemma {:induction false} SameErasedAreExact(s: State, m: Move)
    requires Inv(s) && ExactInv(s) && Enabled(s, false, m) && !(m.Commit? && s.procs[m.i].job.Save?)
    ensures ErasedExactly(Do(s, false, m).d)
  {
    var t := Do(s, false, m);
    forall u | u in t.d.users && t.d.users[u].erasedAt.Some?
      ensures u in t.d.decided && NamedExactly(t.d, u, t.d.users[u].erasedAt.value, t.d.decided[u].lengths)
    {
      if m.Commit? && s.procs[m.i].job.Erase? && s.procs[m.i].job.user == u {
        SameExactly(s.d, t.d, u, s.procs[m.i].job.scan.at, s.procs[m.i].job.scan.decision.lengths);
      } else {
        ErasedStays(s, m, u);
        SameExactly(s.d, t.d, u, s.d.users[u].erasedAt.value, s.d.decided[u].lengths);
      }
    }
  }

  lemma {:induction false} SameSchedulesAreExact(s: State, m: Move)
    requires Inv(s) && ExactInv(s) && Enabled(s, false, m) && !(m.Commit? && s.procs[m.i].job.Save?)
    ensures ExactInv(Do(s, false, m))
  {
    var t := Do(s, false, m);
    assert t.d.schedules == s.d.schedules;
    SameErasedAreExact(s, m);
    if m.Clear? {
      assert Knows(s.d, s.procs[m.i]);
      var p := s.procs[m.i];
      if Read(s.d, p, m).Some? { DecidedExactly(s.d, p.job.scan.seen, p.job.user, m.now); }
    }
    forall i | i in t.procs && t.procs[i].job.Erase? && t.procs[i].job.scan.Cleared?
      ensures NamedExactly(t.d, t.procs[i].job.user, t.procs[i].job.scan.at, t.procs[i].job.scan.decision.lengths)
      ensures LengthsAreOld(t.d, t.procs[i].job.scan.decision.lengths)
    {
      SameExactly(s.d, t.d, t.procs[i].job.user, t.procs[i].job.scan.at, t.procs[i].job.scan.decision.lengths);
    }
  }

  lemma SameExactly(d: Data, t: Data, user: string, at: int, lengths: Lengths)
    requires t.schedules == d.schedules
    ensures NamedExactly(t, user, at, lengths) <==> NamedExactly(d, user, at, lengths)
    ensures LengthsAreOld(t, lengths) <==> LengthsAreOld(d, lengths)
  {
  }

  lemma {:induction false} EveryRunIsExact(users: map<string, UserRow>, moves: seq<Move>)
    requires Staffed(users)
    ensures ExactInv(After(users, false, moves))
  {
    if moves != [] {
      var s, m := After(users, false, moves[..|moves| - 1]), moves[|moves| - 1];
      EveryRunIsExact(users, moves[..|moves| - 1]);
      EveryRunKeepsInv(users, false, moves[..|moves| - 1]);
      if Enabled(s, false, m) {
        if m.Commit? && s.procs[m.i].job.Save? { SaveIsExact(s, m.i); } else { SameSchedulesAreExact(s, m); }
      }
    }
  }

  // Whatever clocks are read, over every run and for every committed erasure: a
  // schedule names the user at the erasure's instant if and only if the tail it had
  // when the erasure was decided was to begin after that instant, and what that tail
  // replaced names them. Saves committed since make no difference.
  lemma {:induction false} NamedOnlyWhereATailWasAhead(users: map<string, UserRow>, moves: seq<Move>, u: string,
                                                       id: string)
    requires Staffed(users)
    requires var d := After(users, false, moves).d; u in d.users && d.users[u].erasedAt.Some? && id in d.schedules
    ensures var d := After(users, false, moves).d;
            && u in d.decided
            && (NamedAt(d.schedules[id], u, d.users[u].erasedAt.value) <==>
                  YetToBegin(d.schedules[id], LengthOf(d.decided[u].lengths, id), u, d.users[u].erasedAt.value))
  {
    EveryRunIsExact(users, moves);
  }

  // ---- what a refusal is for --------------------------------------------------------------------

  // The tails the scan saw are still the tails.
  ghost predicate Current(d: Data, seen: map<string, Snapshot>) {
    forall id :: id in seen ==> id in Tails(d.schedules) && Tails(d.schedules)[id] == seen[id]
  }

  // Whatever else is running, an erasure that decides is refused for every schedule
  // that names the user now, or has them stand in; for nothing else, when the tails it
  // read are current; and it writes nothing. With nothing in the way and another
  // administrator left it goes on.
  lemma {:induction false} RefusedForWhatBlocks(users: map<string, UserRow>, steady: bool, moves: seq<Move>, i: nat,
                                                now: int, id: string)
    requires Staffed(users) && Enabled(After(users, steady, moves), steady, Clear(i, now))
    ensures var s := After(users, steady, moves);
            var (seen, user) := (s.procs[i].job.scan.seen, s.procs[i].job.user);
            && Do(s, steady, Clear(i, now)).d == s.d
            && (i in Do(s, steady, Clear(i, now)).procs <==>
                  && (forall x :: !InTheWay(s.d, seen, user, now, x))
                  && !(user in s.d.users && s.d.users[user].admin && |ActiveAdmins(s.d.users)| <= 1))
            && (NamedBy(HistoryOf(s.d, id), user) || StandsInOn(s.d, user, now, id) ==>
                  InTheWay(s.d, seen, user, now, id) && i !in Do(s, steady, Clear(i, now)).procs)
            && (Current(s.d, seen) && InTheWay(s.d, seen, user, now, id) ==>
                  NamedBy(HistoryOf(s.d, id), user) || StandsInOn(s.d, user, now, id))
  {
    var s := After(users, steady, moves);
    EveryRunKeepsInv(users, steady, moves);
    assert Knows(s.d, s.procs[i]);
    var seen, user := s.procs[i].job.scan.seen, s.procs[i].job.user;
    WaysAreSchedules(s.d, seen, user, now);
    if NamedBy(HistoryOf(s.d, id), user) || StandsInOn(s.d, user, now, id) {
      assert id in s.d.schedules;
      assert InTheWay(s.d, seen, user, now, id);
    }
  }

  lemma WaysAreSchedules(d: Data, seen: map<string, Snapshot>, user: string, now: int)
    ensures Blocked(d, seen, user, now) <==> exists x :: InTheWay(d, seen, user, now, x)
  {
    forall x | InTheWay(d, seen, user, now, x) ensures x in seen.Keys + d.schedules.Keys {}
  }

  // ---- nobody waits for ever ------------------------------------------------------------------------

  function Level(l: Lock): nat {
    match l
    case Mutex => 0
    case OfUser(_) => 1
    case OfSchedule(_) => 2
  }

  predicate Before(a: Lock, b: Lock) {
    Level(a) < Level(b) || (Level(a) == Level(b) && !a.Mutex? && a != b && StrLe(a.id, b.id))
  }

  lemma BeforeIsStrict(a: Lock, b: Lock, c: Lock)
    ensures !(a == b && Before(a, b))
    ensures Before(a, b) && Before(b, c) ==> Before(a, c)
  {
    if Before(a, b) && Before(b, c) && Level(a) == Level(b) == Level(c) {
      StrLeTransitive(a.id, b.id, c.id);
      if a.id == c.id { StrLeAntisymmetric(a.id, b.id); }
    }
  }

  // Locks in their global order; the same one may be asked for twice.
  ghost predicate InOrder(needs: seq<Need>) {
    forall j, k :: 0 <= j < k < |needs| ==> Before(needs[j].lock, needs[k].lock) || needs[j] == needs[k]
  }

  ghost predicate AllInOrder(procs: map<nat, Proc>) {
    forall i :: i in procs ==> InOrder(procs[i].needs)
  }

  lemma {:induction false} NeedsAreInOrder(job: Job)
    ensures InOrder(NeedsOf(job))
  {
    if job.Save? && job.content.Some? {
      ByStringIsTotal();
      SortIsSortedPermutation(BY_STRING, Members(job.content.value));
      var ids := Sort(BY_STRING, Members(job.content.value));
      forall j, k | 0 <= j < k < |ids| ensures StrLe(ids[j], ids[k]) { assert BY_STRING(ids[j], ids[k]); }
    }
  }

  lemma {:induction false} ScanIsInOrder(needs: seq<Need>, ids: seq<string>)
    requires InOrder(needs) && Ascending(ids) && forall k :: 0 <= k < |needs| ==> Level(needs[k].lock) < 2
    ensures InOrder(needs + ScheduleNeeds(ids))
  {
  }

  lemma {:induction false} EveryRunLocksInOrder(users: map<string, UserRow>, steady: bool, moves: seq<Move>)
    requires Staffed(users)
    ensures AllInOrder(After(users, steady, moves).procs)
  {
    if moves != [] {
      var s, m := After(users, steady, moves[..|moves| - 1]), moves[|moves| - 1];
      EveryRunLocksInOrder(users, steady, moves[..|moves| - 1]);
      EveryRunKeepsInv(users, steady, moves[..|moves| - 1]);
      if Enabled(s, steady, m) { MoveKeepsOrder(s, steady, m); }
    }
  }

  lemma {:induction false} MoveKeepsOrder(s: State, steady: bool, m: Move)
    requires Inv(s) && AllInOrder(s.procs) && Enabled(s, steady, m)
    ensures AllInOrder(Do(s, steady, m).procs)
  {
    if m.Start? { NeedsAreInOrder(m.job); }
    if m.Scan? {
      assert Shaped(s.procs[m.i]);
      ScanIsInOrder(s.procs[m.i].needs, m.order);
    }
  }

  // Moves that bring a command nearer its end.
  predicate Advances(m: Move) {
    m.Take? || m.Scan? || m.Clear? || m.Check? || m.ReadClock? || m.Commit?
  }

  // Any set of ids can be put in order.
  lemma {:induction false} AnAscendingOrder(ids: set<string>) returns (order: seq<string>)
    ensures Ascending(order) && ids == set id | id in order
    decreases |ids|
  {
    order := [];
    if ids != {} {
      var all := Elements(ids);
      ByStringIsTotal();
      SortIsSortedPermutation(BY_STRING, all);
      order := Sort(BY_STRING, all);
      PermutationNoDup(all, order);
      forall j, k | 0 <= j < k < |order| ensures StrLe(order[j], order[k]) { assert BY_STRING(order[j], order[k]); }
    }
  }

  lemma {:induction false} Elements(ids: set<string>) returns (all: seq<string>)
    ensures NoDup(all) && ids == set id | id in all
    decreases |ids|
  {
    if ids == {} {
      all := [];
    } else {
      var x :| x in ids;
      var rest := Elements(ids - {x});
      all := [x] + rest;
      forall k | 0 <= k < |rest| ensures rest[k] != x { assert rest[k] in (set id | id in rest); }
      assert ids == (ids - {x}) + {x};
    }
  }

  lemma {:induction false} ReadyCanFinish(s: State, i: nat) returns (m: Move)
    requires i in s.procs && Ready(s.procs[i])
    ensures Advances(m) && Enabled(s, false, m)
  {
    match s.procs[i].job {
      case Erase(_, NotYet) =>
        var order := AnAscendingOrder(Tails(s.d.schedules).Keys);
        m := Scan(i, order);
      case Erase(_, Scanned(_)) => m := Clear(i, s.clock);
      case Erase(_, Cleared(_, _)) => m := Commit(i);
      case SetRole(_, _, checked) => m := if checked then Commit(i) else Check(i);
      case Save(_, _, effective) => m := if effective.Some? then Commit(i) else ReadClock(i, s.clock);
      case StandIn(_, _) => m := Commit(i);
    }
  }

  function Next(p: Proc): Lock
    requires p.got < |p.needs|
  {
    p.needs[p.got].lock
  }

  // Follow who waits for whom: every step asks for a later lock, so it ends at
  // somebody who can move.
  lemma {:induction false} Follow(s: State, i: nat, behind: set<nat>) returns (m: Move)
    requires Inv(s) && AllInOrder(s.procs) && i in s.procs && i !in behind && behind <= s.procs.Keys
    requires behind != {} ==> s.procs[i].got < |s.procs[i].needs|
    requires forall b :: b in behind ==>
              s.procs[b].got < |s.procs[b].needs| && Before(Next(s.procs[b]), Next(s.procs[i]))
    ensures Advances(m) && Enabled(s, false, m)
    decreases |s.procs.Keys - behind|
  {
    var p := s.procs[i];
    assert Shaped(p);
    if Ready(p) {
      m := ReadyCanFinish(s, i);
    } else if Free(s.procs, i, p.needs[p.got]) {
      m := Take(i);
    } else {
      var need := p.needs[p.got];
      var j :| j in s.procs && j != i
        && (HoldsAlone(s.procs[j], need.lock) || (need.exclusive && Holds(s.procs[j], need.lock)));
      var q := s.procs[j];
      assert Shaped(q);
      if Ready(q) {
        m := ReadyCanFinish(s, j);
      } else {
        var again := HeldIsEarlier(s.procs, j, need.lock);
        if again {
          m := Take(j);
        } else {
          OneStepOn(s.procs, i, j, behind);
          m := Follow(s, j, behind + {i});
        }
      }
    }
  }

  // j waits for a later lock than i does, and so for a later one than all behind i.
  lemma {:induction false} OneStepOn(procs: map<nat, Proc>, i: nat, j: nat, behind: set<nat>)
    requires i in procs && j in procs && i !in behind && behind <= procs.Keys
    requires procs[i].got < |procs[i].needs| && procs[j].got < |procs[j].needs|
            && Before(Next(procs[i]), Next(procs[j]))
    requires forall b :: b in behind ==> procs[b].got < |procs[b].needs| && Before(Next(procs[b]), Next(procs[i]))
    ensures j !in behind + {i} && behind + {i} <= procs.Keys
    ensures forall b :: b in behind + {i} ==> procs[b].got < |procs[b].needs| && Before(Next(procs[b]), Next(procs[j]))
    ensures |procs.Keys - (behind + {i})| < |procs.Keys - behind|
  {
    forall b | b in behind + {i} ensures b != j && Before(Next(procs[b]), Next(procs[j])) {
      BeforeIsStrict(Next(procs[b]), Next(procs[i]), Next(procs[j]));
      BeforeIsStrict(Next(procs[b]), Next(procs[j]), Next(procs[j]));
    }
    assert i in procs.Keys - behind;
    SmallerSet(procs.Keys - (behind + {i}), procs.Keys - behind);
  }

  lemma SmallerSet(a: set<nat>, b: set<nat>)
    requires a < b
    ensures |a| < |b|
  {
    var x :| x in b && x !in a;
    assert a <= b - {x};
    SubsetSize(a, b - {x});
  }

  lemma {:induction false} SubsetSize(a: set<nat>, b: set<nat>)
    requires a <= b
    ensures |a| <= |b|
    decreases |a|
  {
    if a != {} {
      var x :| x in a;
      SubsetSize(a - {x}, b - {x});
    }
  }

  // Somebody who holds a lock and still waits, waits for a later one - or asks again
  // for that one, which is then free to them.
  lemma {:induction false} HeldIsEarlier(procs: map<nat, Proc>, j: nat, l: Lock) returns (again: bool)
    requires Exclusive(procs) && AllInOrder(procs) && j in procs && procs[j].got < |procs[j].needs|
            && Holds(procs[j], l)
    ensures again ==> Free(procs, j, procs[j].needs[procs[j].got])
    ensures !again ==> Before(l, Next(procs[j]))
  {
    var q := procs[j];
    var k :| 0 <= k < q.got && k < |q.needs| && q.needs[k].lock == l;
    assert InOrder(q.needs);
    again := q.needs[k] == q.needs[q.got];
    if again && q.needs[q.got].exclusive { assert HoldsAlone(q, l); }
  }

  // While any command is running, one of them can take its next step: nobody waits
  // for somebody who waits for them.
  lemma {:induction false} SomebodyCanAlwaysMove(users: map<string, UserRow>, steady: bool, moves: seq<Move>)
    returns (m: Move)
    requires Staffed(users) && After(users, steady, moves).procs.Keys != {}
    ensures Advances(m) && Enabled(After(users, steady, moves), false, m)
  {
    var s := After(users, steady, moves);
    EveryRunKeepsInv(users, steady, moves);
    EveryRunLocksInOrder(users, steady, moves);
    var i :| i in s.procs.Keys;
    m := Follow(s, i, {});
  }
}
