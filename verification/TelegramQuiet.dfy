// When Telegram's webhooks are bound to end up right (internal/api/integration_handlers.go):
// exactly when no command brings in a token that an effect of another integration is
// still going to remove.

module TelegramQuiet {
  import opened Order
  import opened Telegram

  // ---- when the current token is there ---------------------------------------------------------------

  // An unfinished effect of another integration is going to remove t: what a command
  // about to make t current could look for.
  ghost predicate Threatened(s: State, id: nat, t: string) {
    exists k :: 0 <= k < |s.effects| && !s.effects[k].Done? && s.effects[k].id != id && Removes(s.effects[k], t)
  }

  ghost predicate WillBeSeen(s: State) {
    exists k :: 0 <= k < |s.effects| && SeesCurrent(s, s.effects[k])
  }

  predicate SeesCurrent(s: State, e: Effect) {
    s.current.Some? && ((e.Waiting? && e.id == s.current.value.id)
      || (e.Running? && e.id == s.current.value.id && e.keep == Current(s)))
  }

  // The current token is registered or some effect will see to it, and no other
  // integration's effect is after it.
  ghost predicate Kept(s: State, url: bool) {
    url && Current(s) != "" ==>
      (Current(s) in s.registered || WillBeSeen(s)) && !Threatened(s, s.current.value.id, Current(s))
  }

  lemma {:induction false} BeginKeepsKept(s: State, url: bool, i: nat)
    requires Inv(s, url) && Kept(s, url) && Enabled(s, Begin(i))
    ensures Kept(Do(s, url, Begin(i)), url)
  {
    var t, e := Do(s, url, Begin(i)), s.effects[i];
    if url && Current(s) != "" {
      forall k | 0 <= k < |t.effects| && !t.effects[k].Done? && t.effects[k].id != s.current.value.id
        ensures !Removes(t.effects[k], Current(s))
      {
        assert !Removes(s.effects[k], Current(s));
      }
      if WillBeSeen(s) {
        var k :| 0 <= k < |s.effects| && SeesCurrent(s, s.effects[k]);
        assert SeesCurrent(t, t.effects[k]);
      }
    }
  }

  lemma {:induction false} CallKeepsKept(s: State, url: bool, i: nat)
    requires Inv(s, url) && Kept(s, url) && Enabled(s, Call(i))
    ensures Kept(Do(s, url, Call(i)), url)
  {
    var t, e := Do(s, url, Call(i)), s.effects[i];
    if url && Current(s) != "" {
      forall k | 0 <= k < |t.effects| && !t.effects[k].Done? && t.effects[k].id != s.current.value.id
        ensures !Removes(t.effects[k], Current(s))
      {
        assert !Removes(s.effects[k], Current(s));
      }
      assert !(e.id != s.current.value.id && Removes(e, Current(s)));
      if e.id == s.current.value.id && e.keep != Current(s) {
        StillWaiting(s, t, i, e.id, Current(s));
        var k :| 0 <= k < |t.effects| && t.effects[k].Waiting? && t.effects[k].id == e.id;
        assert SeesCurrent(t, t.effects[k]);
      } else if WillBeSeen(s) {
        var k :| 0 <= k < |s.effects| && SeesCurrent(s, s.effects[k]);
        if k != i || e.todo != [] { assert SeesCurrent(t, t.effects[k]); }
      }
    }
  }

  // A command that makes a token current is clear when no unfinished effect of
  // another integration carries it.
  ghost predicate Clear(s: State, m: Move) {
    match m
    case Create(row) => !Threatened(s, s.nextID, Keep(Some(row)))
    case Update(row) => s.current.Some? && !Threatened(s, s.current.value.id, Keep(Some(row)))
    case _ => true
  }

  lemma {:induction false} CommandIsKept(s: State, url: bool, m: Move)
    requires Inv(s, url) && Enabled(s, m) && (m.Create? || m.Update?) && Clear(s, m)
    ensures Kept(Do(s, url, m), url)
  {
    var t := Do(s, url, m);
    assert t.effects[|s.effects|].Waiting? && SeesCurrent(t, t.effects[|s.effects|]);
    forall k | 0 <= k < |t.effects| && !t.effects[k].Done? && t.effects[k].id != t.current.value.id
      ensures !Removes(t.effects[k], Current(t))
    {
      assert t.effects[k] == s.effects[k];
    }
  }

  lemma {:induction false} StartupIsKept(s: State, url: bool)
    requires Inv(s, url) && Enabled(s, Startup) && Kept(s, url)
    ensures Kept(Do(s, url, Startup), url)
  {
    var t := Do(s, url, Startup);
    assert SeesCurrent(t, t.effects[|s.effects|]);
    forall k | 0 <= k < |t.effects| && !t.effects[k].Done? && t.effects[k].id != t.current.value.id && url
      && Current(s) != ""
      ensures !Removes(t.effects[k], Current(t))
    {
      assert t.effects[k] == s.effects[k];
    }
  }

  lemma {:induction false} DoKeepsKept(s: State, url: bool, m: Move)
    requires Inv(s, url) && Kept(s, url) && Enabled(s, m) && Clear(s, m)
    ensures Kept(Do(s, url, m), url)
  {
    match m {
      case Begin(i) => BeginKeepsKept(s, url, i);
      case Call(i) => CallKeepsKept(s, url, i);
      case Startup => StartupIsKept(s, url);
      case Delete =>
      case _ => CommandIsKept(s, url, m);
    }
  }

  // Every command of a run was clear when it committed.
  ghost predicate AllClear(url: bool, moves: seq<Move>) {
    moves == [] ||
    (AllClear(url, moves[..|moves| - 1]) &&
     (Enabled(After(url, moves[..|moves| - 1]), moves[|moves| - 1]) ==>
       Clear(After(url, moves[..|moves| - 1]), moves[|moves| - 1])))
  }

  lemma {:induction false} ClearRunsAreKept(url: bool, moves: seq<Move>)
    requires AllClear(url, moves)
    ensures Kept(After(url, moves), url)
  {
    if moves != [] {
      var n := |moves| - 1;
      ClearRunsAreKept(url, moves[..n]);
      EveryRunKeepsInv(url, moves[..n]);
      if Enabled(After(url, moves[..n]), moves[n]) { DoKeepsKept(After(url, moves[..n]), url, moves[n]); }
    }
  }

  // In a run whose commands were clear, once no effect is left what is registered is
  // exactly the current enabled token - nothing when there is none, or no address.
  lemma {:induction false} QuietMeansExact(url: bool, moves: seq<Move>)
    requires AllClear(url, moves) && Quiet(After(url, moves))
    ensures var s := After(url, moves);
            s.registered == if url && Current(s) != "" then {Current(s)} else {}
  {
    EveryRunKeepsInv(url, moves);
    ClearRunsAreKept(url, moves);
    QuietLeavesNoStray(url, moves);
  }

  // In the row's own terms: the token its configuration parses to, of an enabled row,
  // and nothing else.
  lemma {:induction false} ClearMeansTheRows(url: bool, moves: seq<Move>, t: string)
    requires AllClear(url, moves) && Quiet(After(url, moves))
    ensures var s := After(url, moves);
            t in s.registered <==>
              && url && t != "" && s.current.Some?
              && s.current.value.row.telegram && s.current.value.row.enabled && s.current.value.row.config == Some(t)
  {
    QuietMeansExact(url, moves);
  }

  // ---- and when it need not be ------------------------------------------------------------------------

  ghost predicate AllOfEffects(moves: seq<Move>) {
    forall k :: 0 <= k < |moves| ==> OfEffects(moves[k])
  }

  lemma {:induction false} RunOn(s: State, url: bool, moves: seq<Move>, m: Move)
    requires Enabled(RunFrom(s, url, moves), m)
    ensures RunFrom(s, url, moves + [m]) == Do(RunFrom(s, url, moves), url, m)
  {
    assert (moves + [m])[..|moves|] == moves;
  }

  lemma {:induction false} RunInTwo(s: State, url: bool, a: seq<Move>, b: seq<Move>)
    ensures RunFrom(s, url, a + b) == RunFrom(RunFrom(s, url, a), url, b)
  {
    if b == [] {
      assert a + b == a;
    } else {
      assert (a + b)[..|a + b| - 1] == a + b[..|b| - 1];
      RunInTwo(s, url, a, b[..|b| - 1]);
    }
  }

  lemma {:induction false} EffectsLeaveTheRow(s: State, url: bool, moves: seq<Move>)
    requires AllOfEffects(moves)
    ensures RunFrom(s, url, moves).current == s.current
  {
    if moves != [] { EffectsLeaveTheRow(s, url, moves[..|moves| - 1]); }
  }

  // The effects of every integration but one, let run to their end; those of that one
  // stay as they are.
  lemma {:induction false} OthersFinish(s: State, url: bool, id: nat) returns (moves: seq<Move>)
    requires Inv(s, url)
    ensures AllOfEffects(moves)
    ensures var t := RunFrom(s, url, moves);
            && |t.effects| == |s.effects|
            && forall k :: 0 <= k < |s.effects| ==>
                 if !s.effects[k].Done? && s.effects[k].id == id then t.effects[k] == s.effects[k]
                 else t.effects[k].Done?
    decreases Work(s.effects)
  {
    if m :| OfEffects(m) && Enabled(s, m) && s.effects[m.i].id != id {
      var t := Do(s, url, m);
      EffectsFinish(s, url);
      DoKeepsInv(s, url, m);
      var rest := OthersFinish(t, url, id);
      moves := [m] + rest;
      RunInTwo(s, url, [m], rest);
      RunOn(s, url, [], m);
    } else {
      moves := [];
      forall k | 0 <= k < |s.effects| && !s.effects[k].Done? ensures s.effects[k].id == id {
        OneCanMove(s, k);
      }
    }
  }

  // An unfinished effect waits for nothing but an effect of the same integration.
  lemma {:induction false} OneCanMove(s: State, k: nat)
    requires k < |s.effects| && !s.effects[k].Done?
    ensures exists m :: OfEffects(m) && Enabled(s, m) && s.effects[m.i].id == s.effects[k].id
  {
    if s.effects[k].Running? {
      assert OfEffects(Call(k)) && Enabled(s, Call(k));
    } else if Unlocked(s, s.effects[k].id) {
      assert OfEffects(Begin(k)) && Enabled(s, Begin(k));
    } else {
      var j :| 0 <= j < |s.effects| && s.effects[j].Running? && s.effects[j].id == s.effects[k].id;
      assert OfEffects(Call(j)) && Enabled(s, Call(j));
    }
  }

  // Only integrations other than the current one have effects left, and t is not
  // registered or one of them is after it.
  ghost predicate AfterIt(s: State, t: string) {
    && (forall k :: 0 <= k < |s.effects| && !s.effects[k].Done? ==> RowOf(s, s.effects[k].id).None?)
    && (t in s.registered ==> WillBeRemoved(s, t))
  }

  lemma {:induction false} StaysDoomed(s: State, url: bool, m: Move, t: string)
    requires Inv(s, url) && AfterIt(s, t) && t != "" && OfEffects(m) && Enabled(s, m)
    ensures AfterIt(Do(s, url, m), t)
  {
    var after, e := Do(s, url, m), s.effects[m.i];
    if t in after.registered {
      if t in s.registered {
        var k :| 0 <= k < |s.effects| && Removes(s.effects[k], t);
        assert Removes(after.effects[k], t);
      } else {
        assert e.keep == t && t != Keep(RowOf(s, e.id));
        StillWaiting(s, after, m.i, e.id, t);
      }
    }
  }

  lemma {:induction false} DoomedEndsEmpty(s: State, url: bool, t: string) returns (moves: seq<Move>)
    requires Inv(s, url) && AfterIt(s, t) && t != ""
    ensures AllOfEffects(moves) && Quiet(RunFrom(s, url, moves)) && t !in RunFrom(s, url, moves).registered
    decreases Work(s.effects)
  {
    EffectsFinish(s, url);
    if Quiet(s) {
      moves := [];
    } else {
      var m :| OfEffects(m) && Enabled(s, m);
      StaysDoomed(s, url, m, t);
      DoKeepsInv(s, url, m);
      var rest := DoomedEndsEmpty(Do(s, url, m), url, t);
      moves := [m] + rest;
      RunInTwo(s, url, [m], rest);
      RunOn(s, url, [], m);
    }
  }

  // While another integration's effect is after the current token, some order of the
  // effects ends with nothing registered at all.
  lemma {:induction false} AThreatCanTakeItDown(s: State, url: bool) returns (rest: seq<Move>)
    requires Inv(s, url) && Current(s) != "" && Threatened(s, s.current.value.id, Current(s))
    ensures AllOfEffects(rest) && Quiet(RunFrom(s, url, rest)) && RunFrom(s, url, rest).registered == {}
  {
    var k :| 0 <= k < |s.effects| && !s.effects[k].Done? && s.effects[k].id != s.current.value.id
      && Removes(s.effects[k], Current(s));
    var first := OthersFinish(s, url, s.effects[k].id);
    var t := RunFrom(s, url, first);
    RunKeepsInv(s, url, first);
    EffectsLeaveTheRow(s, url, first);
    assert Removes(t.effects[k], Current(s));
    var second := DoomedEndsEmpty(t, url, Current(s));
    rest := first + second;
    RunInTwo(s, url, first, second);
    RunKeepsInv(t, url, second);
    EffectsLeaveTheRow(t, url, second);
  }

  lemma {:induction false} KeptThroughEffects(s: State, url: bool, rest: seq<Move>)
    requires Inv(s, url) && Kept(s, url) && AllOfEffects(rest)
    ensures Inv(RunFrom(s, url, rest), url) && Kept(RunFrom(s, url, rest), url)
  {
    if rest != [] {
      var n := |rest| - 1;
      KeptThroughEffects(s, url, rest[..n]);
      var before := RunFrom(s, url, rest[..n]);
      if Enabled(before, rest[n]) {
        DoKeepsInv(before, url, rest[n]);
        DoKeepsKept(before, url, rest[n]);
      }
    }
  }

  // Every order of the effects that ends ends with exactly the current token.
  ghost predicate EndsExact(s: State) {
    forall rest :: AllOfEffects(rest) && Quiet(RunFrom(s, true, rest)) ==>
      RunFrom(s, true, rest).registered == {Current(s)}
  }

  // At every reachable state, for every command that makes a token current: the
  // effects are bound to end with exactly that token if and only if, when the command
  // committed, no unfinished effect of another integration carried it.
  lemma {:induction false} ExactIffClear(moves: seq<Move>, m: Move)
    requires Enabled(After(true, moves), m) && (m.Create? || m.Update?)
    requires Current(Do(After(true, moves), true, m)) != ""
    ensures EndsExact(Do(After(true, moves), true, m)) <==> Clear(After(true, moves), m)
  {
    var s := After(true, moves);
    var t := Do(s, true, m);
    EveryRunKeepsInv(true, moves);
    DoKeepsInv(s, true, m);
    if Clear(s, m) {
      CommandIsKept(s, true, m);
      forall rest | AllOfEffects(rest) && Quiet(RunFrom(t, true, rest))
        ensures RunFrom(t, true, rest).registered == {Current(t)}
      {
        KeptThroughEffects(t, true, rest);
        EffectsLeaveTheRow(t, true, rest);
      }
    } else {
      StillThreatened(s, t, m);
      var rest := AThreatCanTakeItDown(t, true);
      assert RunFrom(t, true, rest).registered != {Current(t)};
    }
  }

  lemma StillThreatened(s: State, t: State, m: Move)
    requires Enabled(s, m) && (m.Create? || m.Update?) && t == Do(s, true, m) && !Clear(s, m)
    ensures Threatened(t, t.current.value.id, Current(t))
  {
    var k :| 0 <= k < |s.effects| && !s.effects[k].Done? && s.effects[k].id != t.current.value.id
      && Removes(s.effects[k], Current(t));
    assert t.effects[k] == s.effects[k];
  }

  // The ordinary way to get there: an integration deleted and created again at once
  // with the same token is never clear.
  lemma {:induction false} AMovedTokenIsTakenDown(moves: seq<Move>, row: Row)
    requires var s := After(true, moves); s.current.Some? && s.current.value.row == row && Keep(Some(row)) != ""
    ensures var s := Do(After(true, moves), true, Delete);
            Enabled(s, Create(row)) && !EndsExact(Do(s, true, Create(row)))
  {
    var before := After(true, moves);
    var s := Do(before, true, Delete);
    EveryRunKeepsInv(true, moves);
    RunOn(START, true, moves, Delete);
    assert s == After(true, moves + [Delete]);
    TokensAre([Some(row)], Keep(Some(row)));
    assert TokenOf([Some(row)][0]) == Keep(Some(row));
    assert Removes(s.effects[|before.effects|], Keep(Some(row)));
    assert s.effects[|before.effects|].id != s.nextID;
    ExactIffClear(moves + [Delete], Create(row));
  }

  // With one integration there is nobody else to be threatened by.
  lemma {:induction false} OneIntegrationIsAlwaysClear(url: bool, moves: seq<Move>)
    requires After(url, moves).nextID <= 1
    ensures AllClear(url, moves)
  {
    if moves != [] {
      var n := |moves| - 1;
      var s := After(url, moves[..n]);
      EveryRunKeepsInv(url, moves[..n]);
      OneIntegrationIsAlwaysClear(url, moves[..n]);
    }
  }
}
