// Erasures, role changes, schedule saves and stand-ins running together, one lock at
// a time (internal/erasure/service.go, internal/store/erasure_store.go,
// internal/scheduleconfig/service.go and override.go).

module ErasureRuns {
  import opened Order
  import opened Erasure

  // The revisions of a schedule, oldest first; the last is its tail. A revision that
  // is not active is a deletion.
  datatype Revision = Revision(from: int, active: bool, snapshot: Snapshot)

  type History = seq<Revision>

  // The head of one override. It covers [validFrom, validTo) unless it is gone.
  datatype Override = Override(scheduleID: string, user: string, validFrom: int, validTo: int, gone: bool)

  datatype Lock = Mutex | OfUser(id: string) | OfSchedule(id: string)

  datatype Need = Need(lock: Lock, exclusive: bool)

  // How many revisions each schedule had.
  type Lengths = map<string, nat>

  // What is done to one override: it is cancelled at an instant, or placed, new or in
  // the place of what it was.
  datatype Change = Cancelled(id: string, at: int) | Placed(id: string)

  // Where things stood when an erasure was decided: every history, every override, and
  // how many changes there had been to overrides. It is written nowhere.
  datatype Decision = Decision(lengths: Lengths, overrides: map<string, Override>, when: nat)

  // seen is the tails the scan read.
  datatype Scan = NotYet | Scanned(seen: map<string, Snapshot>) | Cleared(at: int, decision: Decision)

  datatype Job =
    | Erase(user: string, scan: Scan)
    | SetRole(user: string, admin: bool, checked: bool)
    // content is None for a deletion of the schedule; effective is the instant the
    // change takes effect, once the clock has been read.
    | Save(scheduleID: string, content: Option<Snapshot>, effective: Option<int>)
    | StandIn(overrideID: string, assignment: Override)

  // A transaction: what it needs to lock, in order, and how much of that it holds.
  datatype Proc = Proc(job: Job, needs: seq<Need>, got: nat)

  // decided is what each erased user's erasure saw, and changes the cancels and
  // placements of overrides so far. Neither is written anywhere or decides anything.
  datatype Data = Data(
    users: map<string, UserRow>, schedules: map<string, History>, overrides: map<string, Override>,
    decided: map<string, Decision>, changes: seq<Change>)

  // clock is the time on the wall.
  datatype State = State(d: Data, procs: map<nat, Proc>, clock: int)

  // ---- reading a schedule ------------------------------------------------------------

  predicate Live(h: History) { h != [] && h[|h| - 1].active }

  predicate NamedBy(h: History, user: string) { Live(h) && Names(h[|h| - 1].snapshot, user) }

  function InForce(h: History, at: int): Option<Revision> {
    if h == [] then None
    else if h[|h| - 1].from <= at then Some(h[|h| - 1])
    else InForce(h[..|h| - 1], at)
  }

  predicate NamedAt(h: History, user: string, at: int) {
    InForce(h, at).Some? && InForce(h, at).value.active && Names(InForce(h, at).value.snapshot, user)
  }

  // A save takes effect now, or one unit after the revision it replaces.
  function EffectiveFrom(h: History, now: int): int {
    if h == [] || h[|h| - 1].from < now then now else h[|h| - 1].from + 1
  }

  // Ending an override keeps what was served of it.
  function Ended(o: Override, at: int): Override {
    if at <= o.validFrom then o.(gone := true) else if at < o.validTo then o.(validTo := at) else o
  }

  // ---- who a command names, and what it locks ---------------------------------------------

  function Flat(groups: seq<seq<string>>): seq<string> {
    if groups == [] then [] else groups[0] + Flat(groups[1..])
  }

  function Members(snap: Snapshot): seq<string> { Flat(snap.l1) + Flat(snap.l2) }

  lemma {:induction false} FlatNames(groups: seq<seq<string>>, user: string)
    ensures user in Flat(groups) <==> LayerNames(groups, user)
  {
    if groups != [] {
      FlatNames(groups[1..], user);
      if g :| 0 <= g < |groups| && user in groups[g] { assert g > 0 ==> groups[1..][g - 1] == groups[g]; }
      if g :| 0 <= g < |groups[1..]| && user in groups[1..][g] { assert groups[g + 1] == groups[1..][g]; }
    }
  }

  lemma NamesIsMember(snap: Snapshot, user: string)
    ensures Names(snap, user) <==> user in Members(snap)
  {
    FlatNames(snap.l1, user);
    FlatNames(snap.l2, user);
  }

  function UserNeeds(ids: seq<string>): seq<Need> {
    seq(|ids|, (k: int) requires 0 <= k < |ids| => Need(OfUser(ids[k]), false))
  }

  function ScheduleNeeds(ids: seq<string>): seq<Need> {
    seq(|ids|, (k: int) requires 0 <= k < |ids| => Need(OfSchedule(ids[k]), false))
  }

  // Users before schedules, each in the order of their ids.
  function NeedsOf(job: Job): seq<Need> {
    match job
    case Erase(user, _) => [Need(Mutex, true), Need(OfUser(user), true)]
    case SetRole(user, _, _) => [Need(Mutex, true), Need(OfUser(user), true)]
    case Save(id, content, _) =>
      UserNeeds(if content.Some? then Sort(BY_STRING, Members(content.value)) else []) + [Need(OfSchedule(id), true)]
    case StandIn(_, o) => [Need(OfUser(o.user), false), Need(OfSchedule(o.scheduleID), true)]
  }

  // ---- moves ---------------------------------------------------------------------------------

  datatype Move =
    | Start(i: nat, job: Job)
    // Take the next lock.
    | Take(i: nat)
    // The erasure reads the user and the tails of the live schedules; order is the
    // order it will lock them in.
    | Scan(i: nat, order: seq<string>)
    // A tail may have been read before or after its lock was waited for.
    | Reread(i: nat, id: string)
    // The erasure reads the clock, the overrides and the number of administrators.
    | Clear(i: nat, now: int)
    // The role change reads the number of administrators.
    | Check(i: nat)
    // The save reads the tail and the clock.
    | ReadClock(i: nat, now: int)
    // The command writes and ends.
    | Commit(i: nat)
    // Time passes.
    | Tick(to: int)
    // The command ends without writing.
    | Abandon(i: nat)
    | Cancel(overrideID: string, at: int)
    | NewUser(id: string, admin: bool)

  predicate Holds(p: Proc, l: Lock) {
    exists k :: 0 <= k < p.got && k < |p.needs| && p.needs[k].lock == l
  }

  predicate HoldsAlone(p: Proc, l: Lock) {
    exists k :: 0 <= k < p.got && k < |p.needs| && p.needs[k].lock == l && p.needs[k].exclusive
  }

  predicate Free(procs: map<nat, Proc>, i: nat, need: Need) {
    forall j :: j in procs && j != i ==>
      !HoldsAlone(procs[j], need.lock) && (need.exclusive ==> !Holds(procs[j], need.lock))
  }

  // The in-force revision of every live schedule.
  function Tails(schedules: map<string, History>): map<string, Snapshot> {
    map id | id in schedules && Live(schedules[id]) :: schedules[id][|schedules[id]| - 1].snapshot
  }

  predicate Ascending(ids: seq<string>) {
    forall j, k :: 0 <= j < k < |ids| ==> StrLe(ids[j], ids[k]) && ids[j] != ids[k]
  }

  predicate Ready(p: Proc) { p.got == |p.needs| }

  predicate IsNew(job: Job) {
    match job
    case Erase(_, scan) => scan.NotYet?
    case SetRole(_, _, checked) => !checked
    case Save(_, _, effective) => effective.None?
    case StandIn(_, _) => true
  }

  predicate MayCommit(p: Proc) {
    && Ready(p)
    && match p.job
       case Erase(_, scan) => scan.Cleared?
       case SetRole(_, _, checked) => checked
       case Save(_, _, effective) => effective.Some?
       case StandIn(_, _) => true
  }

  // steady: whoever reads a clock reads the time on the wall, and no schedule is saved
  // twice in one unit of time.

  predicate Enabled(s: State, steady: bool, m: Move) {
    match m
    case Start(i, job) => i !in s.procs && IsNew(job)
    case Take(i) => i in s.procs && s.procs[i].got < |s.procs[i].needs|
      && Free(s.procs, i, s.procs[i].needs[s.procs[i].got])
    case Scan(i, order) =>
      && i in s.procs && s.procs[i].job.Erase? && s.procs[i].job.scan.NotYet? && Ready(s.procs[i])
      && Ascending(order) && Tails(s.d.schedules).Keys == set id | id in order
    case Reread(i, id) =>
      && i in s.procs && s.procs[i].job.Erase? && s.procs[i].job.scan.Scanned?
      && Holds(s.procs[i], OfSchedule(id)) && id in s.procs[i].job.scan.seen
    case Clear(i, now) =>
      && i in s.procs && s.procs[i].job.Erase? && s.procs[i].job.scan.Scanned? && Ready(s.procs[i])
      && (steady ==> now == s.clock)
    case ReadClock(i, now) =>
      && i in s.procs && s.procs[i].job.Save? && s.procs[i].job.effective.None? && Ready(s.procs[i])
      && (steady ==> now == s.clock && EffectiveFrom(HistoryOf(s.d, s.procs[i].job.scheduleID), now) == now)
    case Check(i) => i in s.procs && s.procs[i].job.SetRole? && !s.procs[i].job.checked && Ready(s.procs[i])
    case Commit(i) => i in s.procs && MayCommit(s.procs[i])
    case Tick(to) => to >= s.clock
    case Abandon(i) => i in s.procs
    case Cancel(id, _) => id in s.d.overrides
    case NewUser(id, _) => id !in s.d.users
  }

  predicate Active(d: Data, user: string) {
    user in d.users && d.users[user].erasedAt.None?
  }

  function HistoryOf(d: Data, id: string): History {
    if id in d.schedules then d.schedules[id] else []
  }

  predicate Reaches(o: Override, user: string, at: int) {
    !o.gone && o.user == user && o.validTo > at
  }

  // A live override of the user, on a live schedule.
  predicate StandsInOn(d: Data, user: string, at: int, id: string) {
    && Live(HistoryOf(d, id))
    && exists o :: o in d.overrides && Reaches(d.overrides[o], user, at) && d.overrides[o].scheduleID == id
  }

  // What an erasure that saw these tails is refused for.
  predicate InTheWay(d: Data, seen: map<string, Snapshot>, user: string, at: int, id: string) {
    (id in seen && Names(seen[id], user)) || StandsInOn(d, user, at, id)
  }

  predicate Blocked(d: Data, seen: map<string, Snapshot>, user: string, at: int) {
    exists id :: id in seen.Keys + d.schedules.Keys && InTheWay(d, seen, user, at, id)
  }

  predicate LastOne(d: Data, user: string) {
    user in d.users && d.users[user].admin && |ActiveAdmins(d.users)| <= 1
  }

  function Saved(d: Data, id: string, content: Option<Snapshot>, from: int): Data {
    var h := HistoryOf(d, id);
    match content
    case Some(snap) =>
      if forall u :: u in Members(snap) ==> Active(d, u)
      then d.(schedules := d.schedules[id := h + [Revision(from, true, snap)]])
      else d
    case None =>
      if !Live(h) then d
      else d.(schedules := d.schedules[id := h + [Revision(from, false, h[|h| - 1].snapshot)]],
              overrides := EndedOn(d.overrides, id, from))
  }

  function EndedOn(overrides: map<string, Override>, id: string, at: int): map<string, Override> {
    map o | o in overrides :: if overrides[o].scheduleID == id then Ended(overrides[o], at) else overrides[o]
  }

  function StoodIn(d: Data, id: string, o: Override): Data {
    if !o.gone && o.validFrom < o.validTo && Active(d, o.user) && Live(HistoryOf(d, o.scheduleID))
    then d.(overrides := d.overrides[id := o], changes := d.changes + [Placed(id)])
    else d
  }

  function Written(d: Data, job: Job): Data {
    match job
    case Erase(user, scan) =>
      if user in d.users && scan.Cleared? then
        d.(users := d.users[user := d.users[user].(erasedAt := Some(scan.at))],
           decided := d.decided[user := scan.decision])
      else d
    case SetRole(user, admin, _) =>
      if user in d.users then d.(users := d.users[user := d.users[user].(admin := admin)]) else d
    case Save(id, content, effective) => if effective.Some? then Saved(d, id, content, effective.value) else d
    case StandIn(id, o) => StoodIn(d, id, o)
  }

  function LengthsOf(schedules: map<string, History>): Lengths {
    map id | id in schedules :: |schedules[id]|
  }

  function DecisionOf(d: Data): Decision {
    Decision(LengthsOf(d.schedules), d.overrides, |d.changes|)
  }

  // What a process becomes by reading; None when that ends it.
  function Read(d: Data, p: Proc, m: Move): Option<Proc> {
    match m
    case Scan(_, order) =>
      if p.job.Erase? && Active(d, p.job.user)
      then Some(Proc(p.job.(scan := Scanned(Tails(d.schedules))), p.needs + ScheduleNeeds(order), p.got)) else None
    case Reread(_, id) =>
      if p.job.Erase? && p.job.scan.Scanned? then
        var now := Tails(d.schedules);
        var seen := if id in now then p.job.scan.seen[id := now[id]] else p.job.scan.seen - {id};
        Some(p.(job := p.job.(scan := Scanned(seen))))
      else None
    case Clear(_, now) =>
      if p.job.Erase? && p.job.scan.Scanned? && !Blocked(d, p.job.scan.seen, p.job.user, now) && !LastOne(d, p.job.user)
      then Some(p.(job := p.job.(scan := Cleared(now, DecisionOf(d))))) else None
    case Check(_) =>
      if p.job.SetRole? && Active(d, p.job.user) && (p.job.admin || !LastOne(d, p.job.user))
      then Some(p.(job := p.job.(checked := true))) else None
    case ReadClock(_, now) =>
      if p.job.Save? then Some(p.(job := p.job.(effective := Some(EffectiveFrom(HistoryOf(d, p.job.scheduleID), now)))))
      else None
    case _ => Some(p)
  }

  function Put(procs: map<nat, Proc>, i: nat, p: Option<Proc>): map<nat, Proc> {
    if p.Some? then procs[i := p.value] else procs - {i}
  }

  function Do(s: State, steady: bool, m: Move): State
    requires Enabled(s, steady, m)
  {
    match m
    case Start(i, job) => s.(procs := s.procs[i := Proc(job, NeedsOf(job), 0)])
    case Take(i) => s.(procs := s.procs[i := s.procs[i].(got := s.procs[i].got + 1)])
    case Scan(i, _) => s.(procs := Put(s.procs, i, Read(s.d, s.procs[i], m)))
    case Reread(i, _) => s.(procs := Put(s.procs, i, Read(s.d, s.procs[i], m)))
    case Clear(i, _) => s.(procs := Put(s.procs, i, Read(s.d, s.procs[i], m)))
    case Check(i) => s.(procs := Put(s.procs, i, Read(s.d, s.procs[i], m)))
    case ReadClock(i, _) => s.(procs := Put(s.procs, i, Read(s.d, s.procs[i], m)))
    case Commit(i) => s.(d := Written(s.d, s.procs[i].job), procs := s.procs - {i})
    case Tick(to) => s.(clock := to)
    case Abandon(i) => s.(procs := s.procs - {i})
    case Cancel(id, at) =>
      s.(d := s.d.(overrides := s.d.overrides[id := Ended(s.d.overrides[id], at)],
                   changes := s.d.changes + [Cancelled(id, at)]))
    case NewUser(id, admin) => s.(d := s.d.(users := s.d.users[id := UserRow(admin, None)]))
  }

  // A move that cannot be made is not made.
  function After(users: map<string, UserRow>, steady: bool, moves: seq<Move>): State {
    if moves == [] then State(Data(users, map[], map[], map[], []), map[], 0)
    else
      var before := After(users, steady, moves[..|moves| - 1]);
      if Enabled(before, steady, moves[|moves| - 1]) then Do(before, steady, moves[|moves| - 1]) else before
  }

  // ---- the invariant ------------------------------------------------------------------------------

  predicate Shaped(p: Proc) {
    && p.got <= |p.needs|
    && match p.job
       case Erase(user, scan) =>
         && |p.needs| >= 2 && p.needs[0] == Need(Mutex, true) && p.needs[1] == Need(OfUser(user), true)
         && (!scan.NotYet? ==> p.got >= 2) && (scan.Cleared? ==> Ready(p)) && (scan.NotYet? ==> |p.needs| == 2)
       case SetRole(user, _, checked) => p.needs == NeedsOf(p.job) && (checked ==> Ready(p))
       case Save(_, _, effective) => p.needs == NeedsOf(p.job) && (effective.Some? ==> Ready(p))
       case StandIn(_, _) => p.needs == NeedsOf(p.job)
  }

  ghost predicate AllShaped(procs: map<nat, Proc>) {
    forall i :: i in procs ==> Shaped(procs[i])
  }

  ghost predicate Exclusive(procs: map<nat, Proc>) {
    forall i, j, l :: i in procs && j in procs && i != j && HoldsAlone(procs[i], l) ==> !Holds(procs[j], l)
  }

  // The user is on no live rotation.
  ghost predicate OffTails(d: Data, user: string) {
    forall id :: id in d.schedules ==> !NamedBy(d.schedules[id], user)
  }

  ghost predicate SeesAll(d: Data, user: string, seen: map<string, Snapshot>) {
    forall id :: id in d.schedules && NamedBy(d.schedules[id], user) ==> id in seen && Names(seen[id], user)
  }

  // What a process has established, and its locks keep true.
  ghost predicate Knows(d: Data, p: Proc) {
    match p.job
    case Erase(user, Scanned(seen)) => Active(d, user) && SeesAll(d, user, seen)
    case Erase(user, Cleared(_, _)) =>
      Active(d, user) && OffTails(d, user) && (d.users[user].admin ==> |ActiveAdmins(d.users)| >= 2)
    case SetRole(user, admin, true) =>
      Active(d, user) && (d.users[user].admin && !admin ==> |ActiveAdmins(d.users)| >= 2)
    case Save(id, _, Some(from)) => Follows(HistoryOf(d, id), from)
    case _ => true
  }

  ghost predicate AllKnow(d: Data, procs: map<nat, Proc>) {
    forall i :: i in procs ==> Knows(d, procs[i])
  }

  ghost predicate GoneFromTails(d: Data) {
    forall u :: u in d.users && d.users[u].erasedAt.Some? ==> OffTails(d, u)
  }

  // A deleted schedule has no override reaching past its deletion.
  ghost predicate OverridesEnd(d: Data) {
    forall o :: o in d.overrides && !d.overrides[o].gone ==> EndsWithItsSchedule(d, d.overrides[o])
  }

  ghost predicate EndsWithItsSchedule(d: Data, o: Override) {
    var h := HistoryOf(d, o.scheduleID);
    h != [] && (!Live(h) ==> o.validTo <= h[|h| - 1].from)
  }

  // A revision from this instant comes after everything in the history.
  ghost predicate Follows(h: History, from: int) {
    h == [] || h[|h| - 1].from < from
  }

  ghost predicate Increasing(h: History) {
    forall j, k :: 0 <= j < k < |h| ==> h[j].from < h[k].from
  }

  ghost predicate HistoriesIncrease(d: Data) {
    forall id :: id in d.schedules ==> Increasing(d.schedules[id])
  }

  ghost predicate DataOk(d: Data) {
    |ActiveAdmins(d.users)| >= 1 && GoneFromTails(d) && OverridesEnd(d) && HistoriesIncrease(d)
  }

  ghost predicate Begun(d: Data, clock: int) {
    forall id :: id in d.schedules ==> d.schedules[id] != [] && d.schedules[id][|d.schedules[id]| - 1].from <= clock
  }

  // At that instant, and for good: no revision in force names the user, and no
  // override of theirs reaches past it.
  ghost predicate Past(d: Data, user: string, at: int) {
    && (forall id :: id in d.schedules ==> !NamedAt(d.schedules[id], user, at))
    && (forall o :: o in d.overrides ==> !Reaches(d.overrides[o], user, at))
  }

  ghost predicate ErasedArePast(d: Data, clock: int) {
    forall u :: u in d.users && d.users[u].erasedAt.Some? ==>
      d.users[u].erasedAt.value <= clock && Past(d, u, d.users[u].erasedAt.value)
  }

  ghost predicate IsPast(d: Data, clock: int, p: Proc) {
    p.job.Erase? && p.job.scan.Cleared? ==> p.job.scan.at <= clock && Past(d, p.job.user, p.job.scan.at)
  }

  ghost predicate ClearedArePast(d: Data, procs: map<nat, Proc>, clock: int) {
    forall i :: i in procs ==> IsPast(d, clock, procs[i])
  }

  // Nothing is to take effect later than now.
  ghost predicate SavesHaveBegun(procs: map<nat, Proc>, clock: int) {
    forall i :: i in procs && procs[i].job.Save? && procs[i].job.effective.Some? ==>
      procs[i].job.effective.value <= clock
  }

  ghost predicate Inv(s: State) {
    AllShaped(s.procs) && Exclusive(s.procs) && AllKnow(s.d, s.procs) && DataOk(s.d)
  }

  ghost predicate SteadyInv(s: State) {
    && Begun(s.d, s.clock) && SavesHaveBegun(s.procs, s.clock)
    && ErasedArePast(s.d, s.clock) && ClearedArePast(s.d, s.procs, s.clock)
  }

  // ---- what the terms above mean ------------------------------------------------------------------------

  // In force is the last revision that had begun.
  lemma {:induction false} InForceMeans(h: History, at: int, k: nat)
    requires Increasing(h) && k < |h|
    ensures InForce(h, at) == Some(h[k]) <==> h[k].from <= at && (k + 1 < |h| ==> h[k + 1].from > at)
    ensures InForce(h, at) == None <==> h[0].from > at
  {
    var n := |h| - 1;
    if h[n].from <= at {
      assert k < n ==> h[k + 1].from <= h[n].from;
      assert n > 0 ==> h[0].from < h[n].from;
    } else if n > 0 {
      InForceMeans(h[..n], at, if k < n then k else 0);
      InForceIsHad(h[..n], at);
    }
  }

  lemma {:induction false} InForceIsHad(h: History, at: int)
    ensures InForce(h, at).Some? ==> InForce(h, at).value in h && InForce(h, at).value.from <= at
  {
    if h != [] { InForceIsHad(h[..|h| - 1], at); }
  }

  // A save takes effect now, unless what it replaces has yet to begin or began this very
  // unit; then one unit after that.
  lemma EffectiveMeans(h: History, now: int)
    ensures EffectiveFrom(h, now) >= now && Follows(h, EffectiveFrom(h, now))
    ensures EffectiveFrom(h, now) > now ==> h != [] && EffectiveFrom(h, now) == h[|h| - 1].from + 1
  {
  }

  predicate Covers(o: Override, at: int) { !o.gone && o.validFrom <= at < o.validTo }

  // An override ended at an instant covers what it covered before that instant, and
  // nothing from then on.
  lemma EndedMeans(o: Override, at: int, x: int)
    ensures Covers(Ended(o, at), x) <==> Covers(o, x) && x < at
    ensures Ended(o, at).user == o.user && Ended(o, at).scheduleID == o.scheduleID
  {
  }

  // ---- locks --------------------------------------------------------------------------------------------

  // Processes that hold no more than before keep out of each other's way.
  lemma {:induction false} HoldingLess(procs: map<nat, Proc>, i: nat, p: Proc)
    requires Exclusive(procs) && i in procs
    requires forall l :: (Holds(p, l) ==> Holds(procs[i], l)) && (HoldsAlone(p, l) ==> HoldsAlone(procs[i], l))
    ensures Exclusive(procs[i := p])
  {
  }

  lemma {:induction false} TakingIsExclusive(procs: map<nat, Proc>, i: nat)
    requires Exclusive(procs) && i in procs && procs[i].got < |procs[i].needs|
    requires Free(procs, i, procs[i].needs[procs[i].got])
    ensures Exclusive(procs[i := procs[i].(got := procs[i].got + 1)])
  {
    var p := procs[i];
    var q := p.(got := p.got + 1);
    forall l | Holds(q, l) ensures Holds(p, l) || l == p.needs[p.got].lock {}
    forall l | HoldsAlone(q, l) ensures HoldsAlone(p, l) || (l == p.needs[p.got].lock && p.needs[p.got].exclusive) {}
  }

  // A process that holds the row of the user being erased, or the mutex, is the
  // only one that does.
  lemma EraserAlone(p: Proc)
    requires Shaped(p) && p.job.Erase? && !p.job.scan.NotYet?
    ensures HoldsAlone(p, Mutex) && HoldsAlone(p, OfUser(p.job.user))
  {
    assert p.needs[0].lock == Mutex && p.needs[1].lock == OfUser(p.job.user);
  }

  lemma CheckedAlone(p: Proc)
    requires Shaped(p) && p.job.SetRole? && Ready(p)
    ensures HoldsAlone(p, Mutex) && HoldsAlone(p, OfUser(p.job.user))
  {
    assert p.needs[0].lock == Mutex && p.needs[1].lock == OfUser(p.job.user);
  }

  lemma {:induction false} SaverHoldsItsUsers(p: Proc, user: string)
    requires Shaped(p) && Ready(p) && p.job.Save? && p.job.content.Some? && user in Members(p.job.content.value)
    ensures Holds(p, OfUser(user))
  {
    var ids := Members(p.job.content.value);
    ByStringIsTotal();
    SortIsSortedPermutation(BY_STRING, ids);
    assert user in multiset(Sort(BY_STRING, ids));
    var k :| 0 <= k < |Sort(BY_STRING, ids)| && Sort(BY_STRING, ids)[k] == user;
    assert p.needs[k] == UserNeeds(Sort(BY_STRING, ids))[k];
  }

  lemma SaverHoldsItsSchedule(p: Proc)
    requires Shaped(p) && Ready(p) && p.job.Save?
    ensures HoldsAlone(p, OfSchedule(p.job.scheduleID)) && Holds(p, OfSchedule(p.job.scheduleID))
  {
    assert p.needs[|p.needs| - 1] == Need(OfSchedule(p.job.scheduleID), true);
  }

  lemma StandInHoldsItsUser(p: Proc)
    requires Shaped(p) && Ready(p) && p.job.StandIn?
    ensures Holds(p, OfUser(p.job.assignment.user))
  {
    assert p.needs[0].lock == OfUser(p.job.assignment.user);
  }

  // ---- moves that write nothing ----------------------------------------------------------------------------

  lemma {:induction false} StartKeepsInv(s: State, i: nat, job: Job)
    requires Inv(s) && i !in s.procs && IsNew(job)
    ensures Inv(s.(procs := s.procs[i := Proc(job, NeedsOf(job), 0)]))
  {
    var p := Proc(job, NeedsOf(job), 0);
    assert forall l :: !Holds(p, l) && !HoldsAlone(p, l);
  }

  lemma {:induction false} TakeKeepsInv(s: State, i: nat)
    requires Inv(s) && Enabled(s, false, Take(i))
    ensures Inv(Do(s, false, Take(i)))
  {
    TakingIsExclusive(s.procs, i);
    var p := s.procs[i];
    assert Shaped(p) && Knows(s.d, p);
    TakingKeepsShape(p, s.d);
  }

  lemma TakingKeepsShape(p: Proc, d: Data)
    requires Shaped(p) && Knows(d, p) && p.got < |p.needs|
    ensures Shaped(p.(got := p.got + 1)) && Knows(d, p.(got := p.got + 1))
  {
  }

  lemma NobodyNamedHere(d: Data, seen: map<string, Snapshot>, user: string, now: int)
    requires !Blocked(d, seen, user, now) && SeesAll(d, user, seen)
    ensures OffTails(d, user)
  {
    forall id | id in d.schedules ensures !NamedBy(d.schedules[id], user) {
      assert !InTheWay(d, seen, user, now, id);
    }
  }

  lemma {:induction false} ReadingKnows(d: Data, p: Proc, m: Move)
    requires m.Scan? || m.Reread? || m.Clear? || m.Check? || m.ReadClock?
    requires Shaped(p) && Knows(d, p) && Read(d, p, m).Some?
    requires m.Scan? ==> p.job.Erase? && p.job.scan.NotYet? && Ready(p)
    requires m.Clear? ==> p.job.Erase? && Ready(p)
    requires m.Check? || m.ReadClock? ==> Ready(p)
    ensures Shaped(Read(d, p, m).value) && Knows(d, Read(d, p, m).value)
    ensures forall l :: Holds(Read(d, p, m).value, l) ==> Holds(p, l)
    ensures forall l :: HoldsAlone(Read(d, p, m).value, l) ==> HoldsAlone(p, l)
  {
    var q := Read(d, p, m).value;
    if m.Clear? { NobodyNamedHere(d, p.job.scan.seen, p.job.user, m.now); }
    assert forall k :: 0 <= k < p.got ==> q.needs[k] == p.needs[k];
  }

  lemma {:induction false} ReadKeepsInv(s: State, i: nat, m: Move)
    requires m.Scan? || m.Reread? || m.Clear? || m.Check? || m.ReadClock?
    requires Inv(s) && i == m.i && Enabled(s, false, m)
    ensures Inv(Do(s, false, m))
  {
    var p := s.procs[i];
    assert Shaped(p) && Knows(s.d, p);
    if Read(s.d, p, m).Some? {
      ReadingKnows(s.d, p, m);
      HoldingLess(s.procs, i, Read(s.d, p, m).value);
    }
  }

  // ---- commits --------------------------------------------------------------------------------------------------

  // While one process holds the mutex, no other has read the number of administrators.
  lemma {:induction false} OtherAdminWork(procs: map<nat, Proc>, i: nat, j: nat)
    requires Exclusive(procs) && AllShaped(procs) && i in procs && j in procs && i != j && HoldsAlone(procs[i], Mutex)
    ensures procs[j].job.Erase? ==> procs[j].job.scan.NotYet?
    ensures procs[j].job.SetRole? ==> !procs[j].job.checked
  {
    assert !Holds(procs[j], Mutex) && Shaped(procs[j]);
    var q := procs[j];
    if q.job.Erase? && !q.job.scan.NotYet? {
      EraserAlone(q);
    } else if q.job.SetRole? && q.job.checked {
      CheckedAlone(q);
    }
  }

  // Nobody a save puts on duty is being erased by a process that has read anything.
  lemma {:induction false} SavedAreSafe(procs: map<nat, Proc>, i: nat, j: nat)
    requires Exclusive(procs) && AllShaped(procs) && i in procs && j in procs && i != j
    requires procs[i].job.Save? && procs[i].job.content.Some? && Ready(procs[i])
    requires procs[j].job.Erase? && !procs[j].job.scan.NotYet?
    ensures !Names(procs[i].job.content.value, procs[j].job.user)
  {
    var u := procs[j].job.user;
    NamesIsMember(procs[i].job.content.value, u);
    EraserAlone(procs[j]);
    if u in Members(procs[i].job.content.value) { SaverHoldsItsUsers(procs[i], u); }
  }

  lemma {:induction false} StandInIsSafe(procs: map<nat, Proc>, i: nat, j: nat)
    requires Exclusive(procs) && AllShaped(procs) && i in procs && j in procs && i != j
    requires procs[i].job.StandIn? && Ready(procs[i])
    requires procs[j].job.Erase? && !procs[j].job.scan.NotYet?
    ensures procs[i].job.assignment.user != procs[j].job.user
  {
    EraserAlone(procs[j]);
    StandInHoldsItsUser(procs[i]);
  }

  // What a save changes, as seen by one user it does not name.
  lemma {:induction false} SaveLeaves(d: Data, id: string, content: Option<Snapshot>, from: int, user: string)
    requires content.Some? && Names(content.value, user) ==> !Active(d, user)
    ensures var after := Saved(d, id, content, from).schedules;
            forall x :: x in after && NamedBy(after[x], user) ==> x in d.schedules && NamedBy(d.schedules[x], user)
  {
    if content.Some? { NamesIsMember(content.value, user); }
  }

  // Two saves that have read the clock are of different schedules.
  lemma {:induction false} SaversApart(procs: map<nat, Proc>, i: nat, j: nat)
    requires Exclusive(procs) && AllShaped(procs) && i in procs && j in procs && i != j
    requires procs[i].job.Save? && Ready(procs[i]) && procs[j].job.Save? && Ready(procs[j])
    ensures procs[i].job.scheduleID != procs[j].job.scheduleID
  {
    SaverHoldsItsSchedule(procs[i]);
    SaverHoldsItsSchedule(procs[j]);
  }

  lemma {:induction false} SaveLeavesKnowledge(d: Data, procs: map<nat, Proc>, i: nat, j: nat, from: int)
    requires Exclusive(procs) && AllShaped(procs) && i in procs && j in procs && i != j
    requires procs[i].job.Save? && Ready(procs[i]) && Knows(d, procs[j])
    ensures Knows(Saved(d, procs[i].job.scheduleID, procs[i].job.content, from), procs[j])
  {
    var job, q := procs[i].job, procs[j];
    assert Shaped(q);
    if q.job.Erase? && !q.job.scan.NotYet? {
      if job.content.Some? { SavedAreSafe(procs, i, j); }
      SaveLeaves(d, job.scheduleID, job.content, from, q.job.user);
    } else if q.job.Save? && q.job.effective.Some? {
      SaversApart(procs, i, j);
    }
  }

  lemma {:induction false} SaveLeavesErased(d: Data, id: string, content: Option<Snapshot>, from: int)
    requires GoneFromTails(d)
    ensures GoneFromTails(Saved(d, id, content, from))
  {
    var t := Saved(d, id, content, from);
    forall u | u in t.users && t.users[u].erasedAt.Some? ensures OffTails(t, u) {
      assert OffTails(d, u);
      SaveLeaves(d, id, content, from, u);
    }
  }

  lemma {:induction false} SaveKeepsEnds(d: Data, id: string, content: Option<Snapshot>, from: int)
    requires OverridesEnd(d)
    ensures OverridesEnd(Saved(d, id, content, from))
  {
    var t := Saved(d, id, content, from);
    forall o | o in t.overrides && !t.overrides[o].gone ensures EndsWithItsSchedule(t, t.overrides[o]) {
      assert EndsWithItsSchedule(d, d.overrides[o]);
    }
  }

  lemma SaveKeepsIncreasing(d: Data, id: string, content: Option<Snapshot>, from: int)
    requires HistoriesIncrease(d) && Follows(HistoryOf(d, id), from)
    ensures HistoriesIncrease(Saved(d, id, content, from))
  {
    assert Increasing(HistoryOf(d, id));
  }

  lemma {:induction false} SaveCommits(s: State, i: nat)
    requires Inv(s) && i in s.procs && s.procs[i].job.Save? && MayCommit(s.procs[i])
    ensures AllKnow(Written(s.d, s.procs[i].job), s.procs - {i}) && DataOk(Written(s.d, s.procs[i].job))
  {
    var job := s.procs[i].job;
    var from := job.effective.value;
    assert Knows(s.d, s.procs[i]);
    forall j | j in s.procs && j != i ensures Knows(Saved(s.d, job.scheduleID, job.content, from), s.procs[j]) {
      SaveLeavesKnowledge(s.d, s.procs, i, j, from);
    }
    SaveLeavesErased(s.d, job.scheduleID, job.content, from);
    SaveKeepsEnds(s.d, job.scheduleID, job.content, from);
    SaveKeepsIncreasing(s.d, job.scheduleID, job.content, from);
  }

  lemma {:induction false} StandInCommits(s: State, i: nat)
    requires Inv(s) && i in s.procs && s.procs[i].job.StandIn? && Ready(s.procs[i])
    ensures AllKnow(Written(s.d, s.procs[i].job), s.procs - {i}) && DataOk(Written(s.d, s.procs[i].job))
  {
    var o := s.procs[i].job.assignment;
    var t := StoodIn(s.d, s.procs[i].job.overrideID, o);
    forall j | j in s.procs && j != i ensures Knows(t, s.procs[j]) { assert Knows(s.d, s.procs[j]); }
    assert GoneFromTails(t) by {
      forall u | u in t.users && t.users[u].erasedAt.Some? ensures OffTails(t, u) { assert OffTails(s.d, u); }
    }
    forall k | k in t.overrides && !t.overrides[k].gone ensures EndsWithItsSchedule(t, t.overrides[k]) {
      assert k in s.d.overrides && t.overrides[k] == s.d.overrides[k] ==> EndsWithItsSchedule(s.d, s.d.overrides[k]);
    }
  }

  lemma {:induction false} UsersChange(d: Data, users: map<string, UserRow>)
    requires DataOk(d) && |ActiveAdmins(users)| >= 1
    requires forall u :: u in users && users[u].erasedAt.Some? ==> OffTails(d, u)
    ensures DataOk(d.(users := users))
  {
    var t := d.(users := users);
    forall u | u in t.users && t.users[u].erasedAt.Some? ensures OffTails(t, u) { assert OffTails(d, u); }
    forall o | o in t.overrides && !t.overrides[o].gone ensures EndsWithItsSchedule(t, t.overrides[o]) {
      assert EndsWithItsSchedule(d, d.overrides[o]);
    }
  }

  lemma {:induction false} DecidedDoesNotMatter(d: Data, decided: map<string, Decision>)
    requires DataOk(d)
    ensures DataOk(d.(decided := decided))
  {
    var t := d.(decided := decided);
    forall u | u in t.users && t.users[u].erasedAt.Some? ensures OffTails(t, u) { assert OffTails(d, u); }
    forall o | o in t.overrides && !t.overrides[o].gone ensures EndsWithItsSchedule(t, t.overrides[o]) {
      assert EndsWithItsSchedule(d, d.overrides[o]);
    }
  }

  lemma {:induction false} EraseCommits(s: State, i: nat)
    requires Inv(s) && i in s.procs && s.procs[i].job.Erase? && s.procs[i].job.scan.Cleared?
    ensures AllKnow(Written(s.d, s.procs[i].job), s.procs - {i}) && DataOk(Written(s.d, s.procs[i].job))
  {
    var p := s.procs[i];
    var u, at := p.job.user, p.job.scan.at;
    assert Knows(s.d, p) && Shaped(p);
    EraserAlone(p);
    ErasingOne(s.d.users, u, at);
    UsersChange(s.d, s.d.users[u := s.d.users[u].(erasedAt := Some(at))]);
    var t := Written(s.d, p.job);
    DecidedDoesNotMatter(s.d.(users := t.users), t.decided);
    forall j | j in s.procs && j != i ensures Knows(t, s.procs[j]) { OtherAdminWork(s.procs, i, j); }
  }

  lemma SettingOne(users: map<string, UserRow>, u: string, admin: bool)
    requires u in users && users[u].erasedAt.None? && |ActiveAdmins(users)| >= 1
    requires users[u].admin && !admin ==> |ActiveAdmins(users)| >= 2
    ensures |ActiveAdmins(users[u := users[u].(admin := admin)])| >= 1
  {
    var after := ActiveAdmins(users[u := users[u].(admin := admin)]);
    if admin {
      assert u in after;
    } else {
      assert after == ActiveAdmins(users) - {u};
      if u !in ActiveAdmins(users) { assert after == ActiveAdmins(users); }
    }
  }

  lemma {:induction false} RoleCommits(s: State, i: nat)
    requires Inv(s) && i in s.procs && s.procs[i].job.SetRole? && s.procs[i].job.checked
    ensures AllKnow(Written(s.d, s.procs[i].job), s.procs - {i}) && DataOk(Written(s.d, s.procs[i].job))
  {
    var p := s.procs[i];
    assert Knows(s.d, p) && Shaped(p);
    CheckedAlone(p);
    SettingOne(s.d.users, p.job.user, p.job.admin);
    UsersChange(s.d, s.d.users[p.job.user := s.d.users[p.job.user].(admin := p.job.admin)]);
    var t := Written(s.d, p.job);
    forall j | j in s.procs && j != i ensures Knows(t, s.procs[j]) { OtherAdminWork(s.procs, i, j); }
  }

  lemma {:induction false} CommitKeepsInv(s: State, i: nat)
    requires Inv(s) && Enabled(s, false, Commit(i))
    ensures Inv(Do(s, false, Commit(i)))
  {
    match s.procs[i].job {
      case Erase(_, _) => EraseCommits(s, i);
      case SetRole(_, _, _) => RoleCommits(s, i);
      case Save(_, _, _) => SaveCommits(s, i);
      case StandIn(_, _) => StandInCommits(s, i);
    }
  }

  lemma {:induction false} CancelKeepsInv(s: State, id: string, at: int)
    requires Inv(s) && id in s.d.overrides
    ensures Inv(Do(s, false, Cancel(id, at)))
  {
    var t := Do(s, false, Cancel(id, at)).d;
    forall j | j in s.procs ensures Knows(t, s.procs[j]) { assert Knows(s.d, s.procs[j]); }
    forall u | u in t.users && t.users[u].erasedAt.Some? ensures OffTails(t, u) { assert OffTails(s.d, u); }
    forall o | o in t.overrides && !t.overrides[o].gone ensures EndsWithItsSchedule(t, t.overrides[o]) {
      assert !s.d.overrides[o].gone && EndsWithItsSchedule(s.d, s.d.overrides[o]);
    }
  }

  lemma MoreAdmins(users: map<string, UserRow>, id: string, admin: bool)
    requires id !in users
    ensures |ActiveAdmins(users[id := UserRow(admin, None)])| >= |ActiveAdmins(users)|
  {
    assert ActiveAdmins(users[id := UserRow(admin, None)]) == ActiveAdmins(users) + if admin then {id} else {};
  }

  lemma {:induction false} NewUserKeepsInv(s: State, id: string, admin: bool)
    requires Inv(s) && id !in s.d.users
    ensures Inv(Do(s, false, NewUser(id, admin)))
  {
    var users := s.d.users[id := UserRow(admin, None)];
    MoreAdmins(s.d.users, id, admin);
    UsersChange(s.d, users);
    forall j | j in s.procs ensures Knows(s.d.(users := users), s.procs[j]) { assert Knows(s.d, s.procs[j]); }
  }

  // ---- every run -----------------------------------------------------------------------------

  // steady only takes moves away.
  lemma SteadyIsRestriction(s: State, steady: bool, m: Move)
    requires Enabled(s, steady, m)
    ensures Enabled(s, false, m) && Do(s, steady, m) == Do(s, false, m)
  {
  }

  lemma {:induction false} DoKeepsInv(s: State, m: Move)
    requires Inv(s) && Enabled(s, false, m)
    ensures Inv(Do(s, false, m))
  {
    match m {
      case Start(i, job) => StartKeepsInv(s, i, job);
      case Take(i) => TakeKeepsInv(s, i);
      case Scan(i, _) => ReadKeepsInv(s, i, m);
      case Reread(i, _) => ReadKeepsInv(s, i, m);
      case Clear(i, _) => ReadKeepsInv(s, i, m);
      case Check(i) => ReadKeepsInv(s, i, m);
      case ReadClock(i, _) => ReadKeepsInv(s, i, m);
      case Commit(i) => CommitKeepsInv(s, i);
      case Tick(_) =>
      case Abandon(_) =>
      case Cancel(id, at) => CancelKeepsInv(s, id, at);
      case NewUser(id, admin) => NewUserKeepsInv(s, id, admin);
    }
  }

  ghost predicate Staffed(users: map<string, UserRow>) {
    ActiveAdmins(users) != {} && forall u :: u in users ==> users[u].erasedAt.None?
  }

  lemma {:induction false} EveryRunKeepsInv(users: map<string, UserRow>, steady: bool, moves: seq<Move>)
    requires Staffed(users)
    ensures Inv(After(users, steady, moves))
  {
    if moves == [] {
      assert |ActiveAdmins(users)| >= 1;
    } else {
      var s, m := After(users, steady, moves[..|moves| - 1]), moves[|moves| - 1];
      EveryRunKeepsInv(users, steady, moves[..|moves| - 1]);
      if Enabled(s, steady, m) {
        SteadyIsRestriction(s, steady, m);
        DoKeepsInv(s, m);
      }
    }
  }

  // In every interleaving, at every moment: somebody can still administer, and nobody
  // erased is on a live rotation.
  lemma {:induction false} AlwaysAnAdministrator(users: map<string, UserRow>, steady: bool, moves: seq<Move>)
    requires Staffed(users)
    ensures |ActiveAdmins(After(users, steady, moves).d.users)| >= 1
  {
    EveryRunKeepsInv(users, steady, moves);
  }

  lemma {:induction false} ErasedAreOnNoRotation(users: map<string, UserRow>, steady: bool, moves: seq<Move>,
                                                 u: string, id: string)
    requires Staffed(users)
    requires var d := After(users, steady, moves).d; u in d.users && d.users[u].erasedAt.Some? && id in d.schedules
    ensures !NamedBy(After(users, steady, moves).d.schedules[id], u)
  {
    EveryRunKeepsInv(users, steady, moves);
    assert OffTails(After(users, steady, moves).d, u);
  }
}
