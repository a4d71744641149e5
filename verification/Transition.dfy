// Acknowledging and resolving by hand (internal/alertgroup/transition.go over
// internal/store/store.go): each caller reads the group, and later swaps its
// status if it is still one the swap starts from.

module Transition {
  import opened Order

  datatype Status = New | Processing | Triggered | Acknowledged | Resolved | Closed

  datatype Kind = Ack | Resolve

  datatype Outcome = Applied | AlreadyDone | NotFound

  // Read the group; swap; and if the swap found it moved on, read it again.
  datatype Stage = Reading | Swapping | Rereading | Done(outcome: Outcome) | Failed

  datatype Caller = Caller(kind: Kind, group: string, stage: Stage)

  datatype Win = Win(caller: nat, kind: Kind, group: string)

  // wins lists the swaps that changed a group, in the order they did.
  datatype State = State(groups: map<string, Status>, callers: map<nat, Caller>, wins: seq<Win>)

  datatype Move =
    | Call(c: nat, kind: Kind, group: string)
    | Proceed(c: nat)
    | StoreFails(c: nat)
      // The rest of the system moves groups too: intake opens one, the engine
      // admits it, a delivery triggers it, Alertmanager resolves it, and what is
      // resolved may be closed.
    | Create(group: string)
    | Elsewhere(group: string, to: Status)

  predicate StartsFrom(kind: Kind, s: Status) {
    match kind
    case Ack => s == Processing || s == Triggered
    case Resolve => s == Processing || s == Triggered || s == Acknowledged
  }

  function Target(kind: Kind): Status {
    match kind
    case Ack => Acknowledged
    case Resolve => Resolved
  }

  predicate MovesElsewhere(from: Status, to: Status) {
    match to
    case Processing => from == New
    case Triggered => from == Processing
    case Resolved => from in {New, Processing, Triggered, Acknowledged}
    case Closed => from == Resolved
    case _ => false
  }

  predicate Enabled(s: State, m: Move) {
    match m
    case Call(c, _, _) => c !in s.callers
    case Proceed(c) => c in s.callers && s.callers[c].stage in {Reading, Swapping, Rereading}
    case StoreFails(c) => c in s.callers && s.callers[c].stage in {Reading, Swapping, Rereading}
    case Create(g) => g !in s.groups
    case Elsewhere(g, to) => g in s.groups && MovesElsewhere(s.groups[g], to)
  }

  function At(s: State, c: nat, stage: Stage): State
    requires c in s.callers
  {
    s.(callers := s.callers[c := s.callers[c].(stage := stage)])
  }

  function Do(s: State, m: Move): State
    requires Enabled(s, m)
  {
    match m
    case Call(c, kind, g) => s.(callers := s.callers[c := Caller(kind, g, Reading)])
    case StoreFails(c) => At(s, c, Failed)
    case Create(g) => s.(groups := s.groups[g := New])
    case Elsewhere(g, to) => s.(groups := s.groups[g := to])
    case Proceed(c) =>
      var who := s.callers[c];
      if who.group !in s.groups then
        At(s, c, if who.stage == Reading then Done(NotFound) else Failed)
      else
        match who.stage
        case Reading =>
          At(s, c, if StartsFrom(who.kind, s.groups[who.group]) then Swapping else Done(AlreadyDone))
        case Swapping =>
          if StartsFrom(who.kind, s.groups[who.group]) then
            At(s, c, Done(Applied)).(
              groups := s.groups[who.group := Target(who.kind)],
              wins := s.wins + [Win(c, who.kind, who.group)])
          else At(s, c, Rereading)
        case _ => At(s, c, Done(AlreadyDone))
  }

  const EMPTY := State(map[], map[], [])

  function After(moves: seq<Move>): State {
    if moves == [] then EMPTY
    else
      var s := After(moves[..|moves| - 1]);
      if Enabled(s, moves[|moves| - 1]) then Do(s, moves[|moves| - 1]) else s
  }

  // ---- what every run keeps -------------------------------------------------------

  // How far a group has come. Nothing moves one back.
  function Rank(s: Status): nat {
    match s
    case New => 0
    case Processing => 1
    case Triggered => 2
    case Acknowledged => 3
    case Resolved => 4
    case Closed => 5
  }

  ghost predicate OneEach(wins: seq<Win>) {
    forall i, j :: 0 <= i < j < |wins| && wins[i].group == wins[j].group ==>
                     wins[i].kind == Ack && wins[j].kind == Resolve
  }

  // Every win is its caller's, and its group has not gone back since.
  ghost predicate WinsHold(s: State) {
    forall i :: 0 <= i < |s.wins| ==>
      && s.wins[i].group in s.groups
      && Rank(s.groups[s.wins[i].group]) >= Rank(Target(s.wins[i].kind))
      && s.wins[i].caller in s.callers
      && s.callers[s.wins[i].caller] == Caller(s.wins[i].kind, s.wins[i].group, Done(Applied))
  }

  ghost predicate WinnersAreListed(s: State) {
    forall c :: c in s.callers && s.callers[c].stage == Done(Applied) ==>
      Win(c, s.callers[c].kind, s.callers[c].group) in s.wins
  }

  // How far a group has come, by where the caller is with it.
  predicate HasCome(groups: map<string, Status>, who: Caller) {
    match who.stage
    case Swapping => who.group in groups && groups[who.group] != New
    case Rereading => who.group in groups && Rank(groups[who.group]) >= Rank(Target(who.kind))
    case Done(AlreadyDone) => who.group in groups
    case _ => true
  }

  ghost predicate Inv(s: State) {
    && OneEach(s.wins)
    && WinsHold(s)
    && WinnersAreListed(s)
    && forall c :: c in s.callers ==> HasCome(s.groups, s.callers[c])
  }

  lemma {:induction false} SwapIsOneMoreWin(s: State, win: Win)
    requires OneEach(s.wins) && WinsHold(s) && win.group in s.groups && StartsFrom(win.kind, s.groups[win.group])
    ensures OneEach(s.wins + [win])
  {
    forall i | 0 <= i < |s.wins| && s.wins[i].group == win.group ensures s.wins[i].kind == Ack && win.kind == Resolve {
      assert Rank(s.groups[win.group]) >= Rank(Target(s.wins[i].kind));
    }
  }

  lemma {:induction false} SwapKeepsWins(s: State, c: nat, win: Win, groups: map<string, Status>,
                                         callers: map<nat, Caller>)
    requires WinsHold(s) && WinnersAreListed(s) && c in s.callers && s.callers[c].stage == Swapping
    requires win == Win(c, s.callers[c].kind, s.callers[c].group) && win.group in s.groups
    requires StartsFrom(win.kind, s.groups[win.group])
    requires groups == s.groups[win.group := Target(win.kind)]
    requires callers == s.callers[c := s.callers[c].(stage := Done(Applied))]
    ensures WinsHold(State(groups, callers, s.wins + [win]))
    ensures WinnersAreListed(State(groups, callers, s.wins + [win]))
  {
    var wins := s.wins + [win];
    assert wins[|s.wins|] == win;
    forall d | d in callers && callers[d].stage == Done(Applied)
      ensures Win(d, callers[d].kind, callers[d].group) in wins
    {
      if d != c { assert Win(d, s.callers[d].kind, s.callers[d].group) in s.wins; }
    }
  }

  lemma {:induction false} SwapKeepsInv(s: State, c: nat)
    requires Inv(s) && c in s.callers && s.callers[c].stage == Swapping
    requires StartsFrom(s.callers[c].kind, s.groups[s.callers[c].group])
    ensures Inv(Do(s, Proceed(c)))
  {
    var win := Win(c, s.callers[c].kind, s.callers[c].group);
    var after := Do(s, Proceed(c));
    SwapIsOneMoreWin(s, win);
    SwapKeepsWins(s, c, win, after.groups, after.callers);
    forall d | d in after.callers ensures HasCome(after.groups, after.callers[d]) {
      assert HasCome(s.groups, s.callers[d]);
    }
  }

  // A move that swaps nothing.
  lemma {:induction false} OtherMoveKeepsInv(s: State, m: Move)
    requires Inv(s) && Enabled(s, m) && Do(s, m).wins == s.wins
    ensures Inv(Do(s, m))
  {
    var after := Do(s, m);
    forall d | d in after.callers ensures HasCome(after.groups, after.callers[d]) {
      assert d in s.callers ==> HasCome(s.groups, s.callers[d]);
    }
  }

  lemma {:induction false} MoveKeepsInv(s: State, m: Move)
    requires Inv(s) && Enabled(s, m)
    ensures Inv(Do(s, m))
  {
    if m.Proceed? && s.callers[m.c].stage == Swapping && s.callers[m.c].group in s.groups
       && StartsFrom(s.callers[m.c].kind, s.groups[s.callers[m.c].group])
    {
      SwapKeepsInv(s, m.c);
    } else {
      OtherMoveKeepsInv(s, m);
    }
  }

  lemma {:induction false} EveryRunKeepsInv(moves: seq<Move>)
    ensures Inv(After(moves))
  {
    if moves != [] {
      EveryRunKeepsInv(moves[..|moves| - 1]);
      var s := After(moves[..|moves| - 1]);
      if Enabled(s, moves[|moves| - 1]) { MoveKeepsInv(s, moves[|moves| - 1]); }
    }
  }

  // One acknowledgement and one resolution to a group, however many callers, and
  // whichever of them read it before the others swapped it.
  lemma {:induction false} OneWinner(moves: seq<Move>, c: nat, d: nat)
    requires var s := After(moves);
             && c in s.callers && d in s.callers && c != d
             && s.callers[c].stage == s.callers[d].stage == Done(Applied)
             && s.callers[c].group == s.callers[d].group
    ensures After(moves).callers[c].kind != After(moves).callers[d].kind
  {
    EveryRunKeepsInv(moves);
    var s := After(moves);
    var i :| 0 <= i < |s.wins| && s.wins[i] == Win(c, s.callers[c].kind, s.callers[c].group);
    var j :| 0 <= j < |s.wins| && s.wins[j] == Win(d, s.callers[d].kind, s.callers[d].group);
    assert i < j || j < i;
  }

  // Nothing is acknowledged after it was resolved.
  lemma {:induction false} NoAckAfterResolve(moves: seq<Move>, i: nat, j: nat)
    requires i < j < |After(moves).wins|
    requires After(moves).wins[i].group == After(moves).wins[j].group
    ensures After(moves).wins[i].kind == Ack && After(moves).wins[j].kind == Resolve
  {
    EveryRunKeepsInv(moves);
  }

  // Wherever a run has got to, a caller that finds its group is sent on to swap it, is
  // a winner, or is told it was already done. A caller whose swap failed is told so
  // however long its second read takes, and of a group that by then has come at least
  // as far as the call would have taken it. Only a first read can be told so of a group
  // that has not: one nothing has touched, which stays new.
  lemma {:induction false} LosersAreToldSo(moves: seq<Move>, c: nat)
    requires c in After(moves).callers
    requires Enabled(After(moves), Proceed(c)) && After(moves).callers[c].group in After(moves).groups
    ensures var s := After(moves);
            var who := s.callers[c];
            var after := Do(s, Proceed(c));
            var next := after.callers[c].stage;
            && next in {Swapping, Rereading, Done(Applied), Done(AlreadyDone)}
            && (next == Done(Applied) <==> |after.wins| > |s.wins|)
            && (next == Rereading ==> who.stage == Swapping && after.groups == s.groups)
            && (next == Done(AlreadyDone) ==>
                  && after.groups == s.groups && after.wins == s.wins
                  && (Rank(s.groups[who.group]) >= Rank(Target(who.kind))
                      || (who.stage == Reading && s.groups[who.group] == New)))
            && (who.stage == Rereading ==> next == Done(AlreadyDone))
  {
    EveryRunKeepsInv(moves);
    assert HasCome(After(moves).groups, After(moves).callers[c]);
  }

  // ---- the two calls as they are written ------------------------------------------------

  datatype Change = Change(group: string, to: Status)

  // Others' changes between the read and the swap of one caller.
  function Changed(groups: map<string, Status>, changes: seq<Change>): map<string, Status> {
    if changes == [] then groups
    else
      var before, last := Changed(groups, changes[..|changes| - 1]), changes[|changes| - 1];
      if last.group in before && MovesElsewhere(before[last.group], last.to) then before[last.group := last.to]
      else before
  }

  // The group as the answer shows it.
  datatype Answer = Answer(outcome: Outcome, shown: Option<Status>)

  class Groups {
    var rows: map<string, Status>

    constructor (rows: map<string, Status>)
      ensures this.rows == rows
    {
      this.rows := rows;
    }

    method Others(changes: seq<Change>)
      modifies this
      ensures rows == Changed(old(rows), changes)
    {
      ghost var before := rows;
      for i := 0 to |changes|
        invariant rows == Changed(before, changes[..i])
      {
        assert changes[..i + 1][..i] == changes[..i];
        if changes[i].group in rows && MovesElsewhere(rows[changes[i].group], changes[i].to) {
          rows := rows[changes[i].group := changes[i].to];
        }
      }
      assert changes[..|changes|] == changes;
    }

    // The conditional update: one statement, one winner.
    method Swap(kind: Kind, id: string) returns (changed: bool)
      modifies this
      ensures changed <==> id in old(rows) && StartsFrom(kind, old(rows)[id])
      ensures rows == if changed then old(rows)[id := Target(kind)] else old(rows)
    {
      changed := id in rows && StartsFrom(kind, rows[id]);
      if changed {
        rows := rows[id := Target(kind)];
      }
    }

    method Acknowledge(id: string, meanwhile: seq<Change>) returns (answer: Answer)
      modifies this
      ensures (rows, answer) == Called(old(rows), Ack, id, meanwhile)
    {
      if id !in rows {
        return Answer(NotFound, None);
      }
      var status := rows[id];
      if status != Processing && status != Triggered {
        return Answer(AlreadyDone, Some(status));
      }
      RowsStay(rows, meanwhile, id);
      Others(meanwhile);
      var changed := Swap(Ack, id);
      if !changed {
        return Answer(AlreadyDone, Some(rows[id]));
      }
      status := Acknowledged;
      return Answer(Applied, Some(status));
    }

    method ResolveByHand(id: string, meanwhile: seq<Change>) returns (answer: Answer)
      modifies this
      ensures (rows, answer) == Called(old(rows), Resolve, id, meanwhile)
    {
      if id !in rows {
        return Answer(NotFound, None);
      }
      var status := rows[id];
      if status != Processing && status != Triggered && status != Acknowledged {
        return Answer(AlreadyDone, Some(status));
      }
      RowsStay(rows, meanwhile, id);
      Others(meanwhile);
      var changed := Swap(Resolve, id);
      if !changed {
        return Answer(AlreadyDone, Some(rows[id]));
      }
      status := Resolved;
      return Answer(Applied, Some(status));
    }
  }

  function Called(groups: map<string, Status>, kind: Kind, id: string,
                  meanwhile: seq<Change>): (map<string, Status>, Answer) {
    if id !in groups then (groups, Answer(NotFound, None))
    else if !StartsFrom(kind, groups[id]) then (groups, Answer(AlreadyDone, Some(groups[id])))
    else
      var moved := Changed(groups, meanwhile);
      if id in moved && StartsFrom(kind, moved[id])
        then (moved[id := Target(kind)], Answer(Applied, Some(Target(kind))))
      else (moved, Answer(AlreadyDone, if id in moved then Some(moved[id]) else None))
  }

  // Groups are never removed, and never go back.
  lemma {:induction false} RowsStay(groups: map<string, Status>, changes: seq<Change>, id: string)
    requires id in groups
    ensures id in Changed(groups, changes) && Rank(Changed(groups, changes)[id]) >= Rank(groups[id])
  {
    if changes != [] { RowsStay(groups, changes[..|changes| - 1], id); }
  }

  // What a caller is shown is the group as it is when the call ends. The call applies,
  // or the group has come at least that far already, or it is new: AlreadyDone of a
  // group that was new leaves it as it was, with nothing done.
  lemma {:induction false} ShownAsItIs(groups: map<string, Status>, kind: Kind, id: string, meanwhile: seq<Change>)
    requires id in groups
    ensures var (after, answer) := Called(groups, kind, id, meanwhile);
            && id in after && answer.shown == Some(after[id]) && answer.outcome != NotFound
            && Rank(after[id]) >= Rank(groups[id])
            && (answer.outcome == Applied ==> after[id] == if kind == Ack then Acknowledged else Resolved)
            && (groups[id] != New ==> Rank(after[id]) >= Rank(Target(kind)))
            && (groups[id] == New ==> answer.outcome == AlreadyDone && after == groups)
            && (after == groups
                || (var moved := Changed(groups, meanwhile);
                    id in moved && after == if answer.outcome == Applied then moved[id := Target(kind)] else moved))
  {
    RowsStay(groups, meanwhile, id);
  }

  // The call is the run of one caller through the state machine above.
  lemma {:induction false} ACallIsARun(s: State, c: nat, meanwhile: seq<Change>)
    requires c in s.callers && s.callers[c].stage == Reading
    ensures var who := s.callers[c];
            var (after, answer) := Called(s.groups, who.kind, who.group, meanwhile);
            var t := RunOf(s, c, meanwhile);
            t.groups == after && t.callers == s.callers[c := who.(stage := Done(answer.outcome))]
  {
    var who := s.callers[c];
    if who.group in s.groups && StartsFrom(who.kind, s.groups[who.group]) {
      RowsStay(s.groups, meanwhile, who.group);
    }
  }

  // One caller's moves, with the others' between its first and its second.
  function RunOf(s: State, c: nat, meanwhile: seq<Change>): State
    requires c in s.callers && s.callers[c].stage == Reading
  {
    var read := Do(s, Proceed(c));
    if read.callers[c].stage != Swapping then read
    else
      var moved := read.(groups := Changed(read.groups, meanwhile));
      var swapped := Do(moved, Proceed(c));
      if swapped.callers[c].stage == Rereading then Do(swapped, Proceed(c)) else swapped
  }
}
