// Runs after which an erasure's instant is not clean: a schedule changed twice in one
// unit of time, and somebody erased in that unit.

module ErasureInputs {
  import opened Order
  import opened Erasure
  import opened ErasureRuns
  import opened ErasureInstant

  // ---- commands one after another ----------------------------------------------------

  function RunFrom(s: State, moves: seq<Move>): State {
    if moves == [] then s
    else
      var before := RunFrom(s, moves[..|moves| - 1]);
      if Enabled(before, false, moves[|moves| - 1]) then Do(before, false, moves[|moves| - 1]) else before
  }

  function Begin(users: map<string, UserRow>): State {
    State(Data(users, map[], map[], map[], []), map[], 0)
  }

  lemma {:induction false} RunsFromTheBeginning(users: map<string, UserRow>, moves: seq<Move>)
    ensures After(users, false, moves) == RunFrom(Begin(users), moves)
  {
    if moves != [] { RunsFromTheBeginning(users, moves[..|moves| - 1]); }
  }

  lemma {:induction false} RunInTwo(s: State, a: seq<Move>, b: seq<Move>)
    ensures RunFrom(s, a + b) == RunFrom(RunFrom(s, a), b)
  {
    if b == [] {
      assert a + b == a;
    } else {
      assert (a + b)[..|a + b| - 1] == a + b[..|b| - 1];
      RunInTwo(s, a, b[..|b| - 1]);
    }
  }

  lemma RunOne(s: State, m: Move)
    requires Enabled(s, false, m)
    ensures RunFrom(s, [m]) == Do(s, false, m)
  {
    assert [m][..0] == [] && RunFrom(s, []) == s;
  }

  // A process with nobody beside it gets every lock it needs.
  lemma {:induction false} TakesAll(s: State, i: nat) returns (moves: seq<Move>)
    requires s.procs.Keys == {i} && s.procs[i].got <= |s.procs[i].needs|
    ensures RunFrom(s, moves) == s.(procs := map[i := s.procs[i].(got := |s.procs[i].needs|)])
    decreases |s.procs[i].needs| - s.procs[i].got
  {
    var p := s.procs[i];
    assert s.procs == map[i := p];
    if p.got == |p.needs| {
      moves := [];
    } else {
      var t := Do(s, false, Take(i));
      assert t.procs == map[i := p.(got := p.got + 1)];
      var rest := TakesAll(t, i);
      RunOne(s, Take(i));
      RunInTwo(s, [Take(i)], rest);
      moves := [Take(i)] + rest;
    }
  }

  lemma {:induction false} StartsAndTakes(s: State, job: Job) returns (moves: seq<Move>)
    requires s.procs == map[] && IsNew(job)
    ensures RunFrom(s, moves) == s.(procs := map[0 := Proc(job, NeedsOf(job), |NeedsOf(job)|)])
  {
    var t := Do(s, false, Start(0, job));
    RunOne(s, Start(0, job));
    var rest := TakesAll(t, 0);
    RunInTwo(s, [Start(0, job)], rest);
    moves := [Start(0, job)] + rest;
  }

  lemma {:induction false} ThenDoes(s: State, before: seq<Move>, m: Move)
    requires Enabled(RunFrom(s, before), false, m)
    ensures RunFrom(s, before + [m]) == Do(RunFrom(s, before), false, m)
  {
    RunInTwo(s, before, [m]);
    RunOne(RunFrom(s, before), m);
  }

  // A save, a stand-in and an erasure with nobody beside them.
  lemma {:induction false} SaveAlone(s: State, id: string, content: Option<Snapshot>, now: int)
    returns (moves: seq<Move>)
    requires s.procs == map[]
    ensures RunFrom(s, moves) == s.(d := Saved(s.d, id, content, EffectiveFrom(HistoryOf(s.d, id), now)))
  {
    var locked := StartsAndTakes(s, Save(id, content, None));
    var read := locked + [ReadClock(0, now)];
    ThenDoes(s, locked, ReadClock(0, now));
    ThenDoes(s, read, Commit(0));
    moves := read + [Commit(0)];
  }

  lemma {:induction false} StandInAlone(s: State, id: string, o: Override) returns (moves: seq<Move>)
    requires s.procs == map[]
    ensures RunFrom(s, moves) == s.(d := StoodIn(s.d, id, o))
  {
    var locked := StartsAndTakes(s, StandIn(id, o));
    ThenDoes(s, locked, Commit(0));
    moves := locked + [Commit(0)];
  }

  function Erased(d: Data, u: string, now: int): Data
    requires u in d.users
  {
    d.(users := d.users[u := d.users[u].(erasedAt := Some(now))], decided := d.decided[u := DecisionOf(d)])
  }

  lemma {:induction false} EraseAlone(s: State, u: string, now: int) returns (moves: seq<Move>)
    requires s.procs == map[] && Active(s.d, u)
    requires !Blocked(s.d, Tails(s.d.schedules), u, now) && !LastOne(s.d, u)
    ensures RunFrom(s, moves) == s.(d := Erased(s.d, u, now))
  {
    var users := StartsAndTakes(s, Erase(u, NotYet));
    var order := AnAscendingOrder(Tails(s.d.schedules).Keys);
    ThenDoes(s, users, Scan(0, order));
    var scanned := RunFrom(s, users + [Scan(0, order)]);
    var tails := TakesAll(scanned, 0);
    var locked := users + [Scan(0, order)] + tails;
    RunInTwo(s, users + [Scan(0, order)], tails);
    var decided := locked + [Clear(0, now)];
    ThenDoes(s, locked, Clear(0, now));
    ThenDoes(s, decided, Commit(0));
    moves := decided + [Commit(0)];
  }

  // So does a change of role: it makes an administrator of anybody alive, and takes the
  // role from one as long as another is left.
  lemma {:induction false} RoleAlone(s: State, u: string, admin: bool) returns (moves: seq<Move>)
    requires s.procs == map[] && Active(s.d, u)
    ensures RunFrom(s, moves).procs == map[] && RunFrom(s, moves).d ==
            if s.d.users[u].admin && !admin && |ActiveAdmins(s.d.users)| <= 1 then s.d
            else s.d.(users := s.d.users[u := UserRow(admin, None)])
  {
    var locked := StartsAndTakes(s, SetRole(u, admin, false));
    ThenDoes(s, locked, Check(0));
    var checked := locked + [Check(0)];
    if admin || !LastOne(s.d, u) {
      ThenDoes(s, checked, Commit(0));
      moves := checked + [Commit(0)];
    } else {
      moves := checked;
    }
  }

  // ---- what such runs can do ---------------------------------------------------------------

  const NOBODY: Snapshot := Snapshot([], [])

  function Only(u: string): Snapshot { Snapshot([[u]], []) }

  lemma OnlyNames(u: string, v: string)
    ensures Members(Only(u)) == [u] && Members(NOBODY) == []
    ensures !Names(NOBODY, v) && (Names(Only(u), v) <==> u == v)
  {
    assert Flat([[u]]) == [u] + Flat([[u]][1..]);
    NamesIsMember(Only(u), v);
    NamesIsMember(NOBODY, v);
  }

  // Somebody to erase, and an administrator to do it.
  function Two(u: string, admin: string): map<string, UserRow> {
    map[u := UserRow(false, None), admin := UserRow(true, None)]
  }

  function With(users: map<string, UserRow>, h: History, overrides: map<string, Override>, changes: seq<Change>): Data {
    Data(users, map["s" := h], overrides, map[], changes)
  }

  lemma FirstSave(users: map<string, UserRow>, snap: Snapshot, now: int)
    requires forall v :: v in Members(snap) ==> v in users && users[v].erasedAt.None?
    ensures Saved(Begin(users).d, "s", Some(snap), EffectiveFrom([], now)) ==
            With(users, [Revision(now, true, snap)], map[], [])
  {
    var t := Saved(Begin(users).d, "s", Some(snap), now);
    assert t.schedules["s"] == [Revision(now, true, snap)];
    assert t.schedules == map["s" := [Revision(now, true, snap)]];
  }

  // Of what nobody names or stands in on any more, nothing blocks an erasure.
  lemma NothingBlocks(d: Data, u: string, now: int)
    requires d.schedules.Keys == {"s"} && !NamedBy(d.schedules["s"], u)
    requires Live(d.schedules["s"]) ==> d.overrides == map[]
    ensures !Blocked(d, Tails(d.schedules), u, now)
  {
  }

  // A schedule saved twice in one unit of time has a tail that begins in the next.
  // Stamped with that unit, the erasure of somebody the second save took off duty lies
  // in the revision that still names them.
  lemma {:induction false} SavedTwiceInOneInstant(u: string, admin: string, now: int) returns (moves: seq<Move>)
    requires u != admin
    ensures Staffed(Two(u, admin))
    ensures var d := After(Two(u, admin), false, moves).d;
            u in d.users && d.users[u].erasedAt == Some(now) && "s" in d.schedules && NamedAt(d.schedules["s"], u, now)
  {
    var users, s0 := Two(u, admin), Begin(Two(u, admin));
    OnlyNames(u, u);
    FirstSave(users, Only(u), now);
    SecondSave(users, u, now);
    assert admin in ActiveAdmins(users) && u !in ActiveAdmins(users);
    var a := SaveAlone(s0, "s", Some(Only(u)), now);
    var b := SaveAlone(RunFrom(s0, a), "s", Some(NOBODY), now);
    RunInTwo(s0, a, b);
    NothingBlocks(TakenOff(users, u, now), u, now);
    var c := EraseAlone(RunFrom(s0, a + b), u, now);
    RunInTwo(s0, a + b, c);
    moves := a + b + c;
    RunsFromTheBeginning(users, moves);
  }

  function TakenOff(users: map<string, UserRow>, u: string, now: int): Data {
    With(users, [Revision(now, true, Only(u)), Revision(now + 1, true, NOBODY)], map[], [])
  }

  lemma SecondSave(users: map<string, UserRow>, u: string, now: int)
    ensures var d := With(users, [Revision(now, true, Only(u))], map[], []);
            Saved(d, "s", Some(NOBODY), EffectiveFrom(HistoryOf(d, "s"), now)) == TakenOff(users, u, now)
    ensures NamedAt(TakenOff(users, u, now).schedules["s"], u, now)
    ensures !NamedBy(TakenOff(users, u, now).schedules["s"], u)
  {
    OnlyNames(u, u);
    var d := With(users, [Revision(now, true, Only(u))], map[], []);
    assert EffectiveFrom(HistoryOf(d, "s"), now) == now + 1;
    var t := Saved(d, "s", Some(NOBODY), now + 1);
    assert t.schedules["s"] == [Revision(now, true, Only(u)), Revision(now + 1, true, NOBODY)];
    assert t.schedules == TakenOff(users, u, now).schedules;
    assert TakenOff(users, u, now).schedules["s"][..1] == [Revision(now, true, Only(u))];
  }

  // u is on duty by an override: it covers the instant, and so does the schedule.
  predicate OnDutyByOverride(d: Data, o: Override, u: string, at: int) {
    && Reaches(o, u, at) && o.validFrom <= at
    && InForce(HistoryOf(d, o.scheduleID), at).Some? && InForce(HistoryOf(d, o.scheduleID), at).value.active
  }

  // A schedule deleted in the unit of time it was saved in ends its overrides in the
  // next. Stamped with the first, the erasure of somebody who stands in on it is
  // blocked by nothing, and they are on duty by override at its instant, with no
  // rotation naming them.
  lemma {:induction false} DeletedInOneInstant(u: string, admin: string, now: int) returns (moves: seq<Move>)
    requires u != admin
    ensures Staffed(Two(u, admin))
    ensures var d := After(Two(u, admin), false, moves).d;
            && u in d.users && d.users[u].erasedAt == Some(now)
            && "o" in d.overrides && OnDutyByOverride(d, d.overrides["o"], u, now)
            && forall id :: id in d.schedules ==> !NamedAt(d.schedules[id], u, now)
  {
    var users, s0, o := Two(u, admin), Begin(Two(u, admin)), Override("s", u, now - 1, now + 100, false);
    OnlyNames(u, u);
    FirstSave(users, NOBODY, now);
    ThenItIsDeleted(users, u, now);
    assert admin in ActiveAdmins(users) && u !in ActiveAdmins(users);
    var a := StoodInAndDeleted(s0, "s", NOBODY, "o", o, now);
    NothingBlocks(Deleted(users, u, now), u, now);
    var b := EraseAlone(RunFrom(s0, a), u, now);
    RunInTwo(s0, a, b);
    moves := a + b;
    RunsFromTheBeginning(users, moves);
  }

  // A schedule is saved, somebody stands in on it, and it is deleted.
  lemma {:induction false} StoodInAndDeleted(s: State, id: string, snap: Snapshot, overrideID: string, o: Override,
                                             now: int)
    returns (moves: seq<Move>)
    requires s.procs == map[]
    ensures var saved := Saved(s.d, id, Some(snap), EffectiveFrom(HistoryOf(s.d, id), now));
            var stood := StoodIn(saved, overrideID, o);
            RunFrom(s, moves) == s.(d := Saved(stood, id, None, EffectiveFrom(HistoryOf(stood, id), now)))
  {
    var a := SaveAlone(s, id, Some(snap), now);
    var b := StandInAlone(RunFrom(s, a), overrideID, o);
    RunInTwo(s, a, b);
    var c := SaveAlone(RunFrom(s, a + b), id, None, now);
    RunInTwo(s, a + b, c);
    moves := a + b + c;
  }

  function Deleted(users: map<string, UserRow>, u: string, now: int): Data {
    With(users, [Revision(now, true, NOBODY), Revision(now + 1, false, NOBODY)],
         map["o" := Override("s", u, now - 1, now + 1, false)], [Placed("o")])
  }

  lemma ThenItIsDeleted(users: map<string, UserRow>, u: string, now: int)
    requires u in users && users[u].erasedAt.None?
    ensures var (h, o) := ([Revision(now, true, NOBODY)], Override("s", u, now - 1, now + 100, false));
            var d := With(users, h, map["o" := o], [Placed("o")]);
            && StoodIn(With(users, h, map[], []), "o", o) == d
            && Saved(d, "s", None, EffectiveFrom(HistoryOf(d, "s"), now)) == Deleted(users, u, now)
    ensures OnDutyByOverride(Deleted(users, u, now), Deleted(users, u, now).overrides["o"], u, now)
    ensures !NamedAt(Deleted(users, u, now).schedules["s"], u, now)
  {
    OnlyNames(u, u);
    var h, o := [Revision(now, true, NOBODY)], Override("s", u, now - 1, now + 100, false);
    var d := With(users, h, map["o" := o], [Placed("o")]);
    assert StoodIn(With(users, h, map[], []), "o", o).overrides == d.overrides;
    assert EffectiveFrom(HistoryOf(d, "s"), now) == now + 1;
    var t := Saved(d, "s", None, now + 1);
    assert t.schedules["s"] == [Revision(now, true, NOBODY), Revision(now + 1, false, NOBODY)];
    assert t.schedules == Deleted(users, u, now).schedules && t.overrides == Deleted(users, u, now).overrides;
    assert t.schedules["s"][..1] == h;
    assert InForce(t.schedules["s"], now) == Some(h[0]);
  }
}
