// Keeping Telegram's registered webhooks in line with one integration's row
// (internal/api/integration_handlers.go). Commands commit in one order and their
// effects run in any order, one at a time.

module Telegram {
  import opened Order

  // config is the bot token the row's configuration parses to, if it parses.
  datatype Row = Row(telegram: bool, enabled: bool, config: Option<string>)

  function TokenOf(row: Option<Row>): string {
    if row.Some? && row.value.telegram && row.value.config.Some? then row.value.config.value else ""
  }

  // The token that should be registered for a row; "" for none.
  function Keep(current: Option<Row>): string {
    if current.Some? && current.value.telegram && current.value.enabled then TokenOf(current) else ""
  }

  // ---- the source's loops ------------------------------------------------------------

  // The distinct tokens some rows carry, in the order they first appear.
  function TokensOf(rows: seq<Option<Row>>): seq<string> {
    if rows == [] then []
    else
      var before, token := TokensOf(rows[..|rows| - 1]), TokenOf(rows[|rows| - 1]);
      if token == "" || token in before then before else before + [token]
  }

  method TelegramTokensOf(rows: seq<Option<Row>>) returns (tokens: seq<string>)
    ensures tokens == TokensOf(rows)
  {
    tokens := [];
    var seen: set<string> := {};
    for i := 0 to |rows|
      invariant tokens == TokensOf(rows[..i])
      invariant forall t :: t in seen <==> t in tokens
    {
      assert rows[..i + 1][..i] == rows[..i];
      var token := TokenOf(rows[i]);
      if token == "" || token in seen {
        continue;
      }
      seen := seen + {token};
      tokens := tokens + [token];
    }
    assert rows[..|rows|] == rows;
  }

  lemma {:induction false} TokensAre(rows: seq<Option<Row>>, t: string)
    ensures t in TokensOf(rows) <==> t != "" && exists k :: 0 <= k < |rows| && TokenOf(rows[k]) == t
    ensures NoDup(TokensOf(rows))
  {
    if rows != [] {
      var n := |rows| - 1;
      TokensAre(rows[..n], t);
      if k :| 0 <= k < |rows| && TokenOf(rows[k]) == t { assert k < n ==> rows[..n][k] == rows[k]; }
    }
  }

  // They come in the order of the rows: more rows only add to the end.
  lemma {:induction false} TokensInOrder(rows: seq<Option<Row>>, more: seq<Option<Row>>)
    ensures TokensOf(rows) <= TokensOf(rows + more)
  {
    if more == [] {
      assert rows + more == rows;
    } else {
      TokensInOrder(rows, more[..|more| - 1]);
      assert (rows + more)[..|rows + more| - 1] == rows + more[..|more| - 1];
    }
  }

  // A token is a parsed configuration's, of a Telegram row.
  lemma {:induction false} TokensAreTheRows(rows: seq<Option<Row>>, t: string)
    ensures t in TokensOf(rows) <==>
              t != "" && exists k :: 0 <= k < |rows| && rows[k].Some? && rows[k].value.telegram
                                     && rows[k].value.config == Some(t)
  {
    TokensAre(rows, t);
    if k :| 0 <= k < |rows| && TokenOf(rows[k]) == t && t != "" { assert rows[k].value.config == Some(t); }
    if k :| 0 <= k < |rows| && rows[k].Some? && rows[k].value.telegram && rows[k].value.config == Some(t) {
      assert TokenOf(rows[k]) == t;
    }
  }

  // The Bot API as far as this model goes: the tokens with a registered webhook.
  class BotAPI {
    var registered: set<string>

    constructor ()
      ensures registered == {}
    {
      registered := {};
    }

    method SetWebhook(token: string)
      modifies this
      ensures registered == old(registered) + {token}
    {
      registered := registered + {token};
    }

    method DeleteWebhook(token: string)
      modifies this
      ensures registered == old(registered) - {token}
    {
      registered := registered - {token};
    }
  }

  // The effect under the lock: current is the row as it stands, url whether there is
  // an address to register. The token of an enabled row is left alone and, given an
  // address, registered; every other candidate goes; nothing else changes.
  method Reconcile(api: BotAPI, url: bool, candidates: seq<string>, current: Option<Row>)
    modifies api
    ensures api.registered == Reconciled(old(api.registered), url, candidates, Keep(current))
    ensures current.None? || !current.value.telegram || !current.value.enabled || current.value.config.None? ==>
              forall t :: t != "" ==> (t in api.registered <==> t in old(api.registered) && t !in candidates)
    ensures current.Some? && current.value.telegram && current.value.enabled && current.value.config.Some? ==>
              forall t :: t != "" ==>
                (t in api.registered <==>
                   if t == current.value.config.value then url || t in old(api.registered)
                   else t in old(api.registered) && t !in candidates)
  {
    var keep := "";
    if current.Some? && current.value.telegram && current.value.enabled {
      keep := TokenOf(current);
    }
    for i := 0 to |candidates|
      invariant api.registered == old(api.registered) - Doomed(candidates[..i], keep)
    {
      assert candidates[..i + 1] == candidates[..i] + [candidates[i]];
      if candidates[i] != keep {
        api.DeleteWebhook(candidates[i]);
      }
    }
    assert candidates[..|candidates|] == candidates;
    if keep != "" && url {
      api.SetWebhook(keep);
    }
  }

  function Doomed(candidates: seq<string>, keep: string): set<string> {
    set t | t in candidates && t != keep
  }

  function Reconciled(registered: set<string>, url: bool, candidates: seq<string>, keep: string): set<string> {
    registered - Doomed(candidates, keep) + if keep != "" && url then {keep} else {}
  }

  // ---- many commands and many effects ----------------------------------------------------

  // A stored integration. Ids are new for every creation and never come back.
  datatype Integration = Integration(id: nat, row: Row)

  // An effect of a committed command on one integration. Running holds that
  // integration's lock: keep is what its row said when the lock was taken, todo what
  // is still to be removed.
  datatype Effect =
    | Waiting(id: nat, candidates: seq<string>)
    | Running(id: nat, keep: string, todo: seq<string>)
    | Done

  // One outbound integration of a type exists at a time; nextID is the id the next
  // one gets.
  datatype State = State(current: Option<Integration>, nextID: nat, registered: set<string>, effects: seq<Effect>)

  datatype Move =
    | Create(row: Row)
    | Update(row: Row)
    | Delete
    | Startup
    // Effect i takes the lock of its integration and reads the row.
    | Begin(i: nat)
    // Effect i makes its next call: a removal, or the registration that ends it.
    | Call(i: nat)

  // The row of an integration as it stands.
  function RowOf(s: State, id: nat): Option<Row> {
    if s.current.Some? && s.current.value.id == id then Some(s.current.value.row) else None
  }

  // The token that should be registered now.
  function Current(s: State): string {
    if s.current.Some? then Keep(Some(s.current.value.row)) else ""
  }

  predicate Unlocked(s: State, id: nat) {
    forall k :: 0 <= k < |s.effects| && s.effects[k].Running? ==> s.effects[k].id != id
  }

  predicate Enabled(s: State, m: Move) {
    match m
    case Create(row) => s.current.None? && row.telegram
    case Update(row) => s.current.Some? && row.telegram
    case Delete => s.current.Some?
    case Startup => s.current.Some? && s.current.value.row.enabled
    case Begin(i) => i < |s.effects| && s.effects[i].Waiting? && Unlocked(s, s.effects[i].id)
    case Call(i) => i < |s.effects| && s.effects[i].Running?
  }

  function Commit(s: State, current: Option<Integration>, id: nat, seen: seq<Option<Row>>): State {
    s.(current := current, effects := s.effects + [Waiting(id, TokensOf(seen))])
  }

  function Do(s: State, url: bool, m: Move): State
    requires Enabled(s, m)
  {
    match m
    case Create(row) => Commit(s, Some(Integration(s.nextID, row)), s.nextID, []).(nextID := s.nextID + 1)
    case Update(row) =>
      var c := s.current.value;
      Commit(s, Some(c.(row := row)), c.id, [Some(c.row), Some(row)])
    case Delete => Commit(s, None, s.current.value.id, [Some(s.current.value.row)])
    case Startup => Commit(s, s.current, s.current.value.id, [])
    case Begin(i) =>
      var e := s.effects[i];
      s.(effects := s.effects[i := Running(e.id, Keep(RowOf(s, e.id)), e.candidates)])
    case Call(i) =>
      var e := s.effects[i];
      if e.todo != [] then
        s.(registered := if e.todo[0] == e.keep then s.registered else s.registered - {e.todo[0]},
           effects := s.effects[i := Running(e.id, e.keep, e.todo[1..])])
      else
        s.(registered := if e.keep != "" && url then s.registered + {e.keep} else s.registered,
           effects := s.effects[i := Done])
  }

  const START: State := State(None, 0, {}, [])

  // A move that cannot be made is not made.
  function RunFrom(s: State, url: bool, moves: seq<Move>): State {
    if moves == [] then s
    else
      var before := RunFrom(s, url, moves[..|moves| - 1]);
      if Enabled(before, moves[|moves| - 1]) then Do(before, url, moves[|moves| - 1]) else before
  }

  function After(url: bool, moves: seq<Move>): State { RunFrom(START, url, moves) }

  // ---- the invariant ------------------------------------------------------------------------

  // Effect e is going to remove t.
  predicate Removes(e: Effect, t: string) {
    (e.Waiting? && t in e.candidates) || (e.Running? && t in e.todo && t != e.keep)
  }

  ghost predicate WillBeRemoved(s: State, t: string) {
    exists k :: 0 <= k < |s.effects| && Removes(s.effects[k], t)
  }

  ghost predicate HasWaiting(s: State, id: nat) {
    exists k :: 0 <= k < |s.effects| && s.effects[k].Waiting? && s.effects[k].id == id
  }

  ghost predicate WaitingRemoves(s: State, id: nat, t: string) {
    exists k :: 0 <= k < |s.effects| && s.effects[k].Waiting? && s.effects[k].id == id && t in s.effects[k].candidates
  }

  ghost predicate OnePerLock(s: State) {
    forall j, k :: 0 <= j < k < |s.effects| && s.effects[j].Running? && s.effects[k].Running? ==>
      s.effects[j].id != s.effects[k].id
  }

  ghost predicate IdsAreOld(s: State) {
    && (s.current.Some? ==> s.current.value.id < s.nextID)
    && forall k :: 0 <= k < |s.effects| && !s.effects[k].Done? ==> s.effects[k].id < s.nextID
  }

  // A registered token that should not be there is somebody's to remove.
  ghost predicate StraysAreCandidates(s: State) {
    "" !in s.registered && forall t :: t in s.registered && t != Current(s) ==> WillBeRemoved(s, t)
  }

  // A running effect that read an older row of its integration is followed by one of
  // the same integration that has not read yet, and what it is about to register is
  // that one's to remove.
  ghost predicate OldReadsAreFollowed(s: State) {
    forall k :: 0 <= k < |s.effects| && ReadOld(s, s.effects[k]) ==>
      && HasWaiting(s, s.effects[k].id)
      && (s.effects[k].keep != "" ==> WaitingRemoves(s, s.effects[k].id, s.effects[k].keep))
  }

  // Running on what its row no longer says.
  predicate ReadOld(s: State, e: Effect) {
    e.Running? && e.keep != Keep(RowOf(s, e.id))
  }

  ghost predicate NothingWithoutAnAddress(s: State, url: bool) {
    !url ==> s.registered == {}
  }

  ghost predicate Inv(s: State, url: bool) {
    OnePerLock(s) && IdsAreOld(s) && StraysAreCandidates(s) && OldReadsAreFollowed(s) && NothingWithoutAnAddress(s, url)
  }

  // ---- commits -----------------------------------------------------------------------------------

  // With one waiting effect more, what was going to be removed still is.
  lemma {:induction false} OneEffectMore(s: State, t: State, e: Effect)
    requires e.Waiting? && t.effects == s.effects + [e]
    ensures forall x :: WillBeRemoved(s, x) ==> WillBeRemoved(t, x)
    ensures forall id, x :: WaitingRemoves(s, id, x) ==> WaitingRemoves(t, id, x)
    ensures forall id :: HasWaiting(s, id) ==> HasWaiting(t, id)
    ensures HasWaiting(t, e.id) && forall x :: x in e.candidates ==> WaitingRemoves(t, e.id, x) && WillBeRemoved(t, x)
  {
    assert t.effects[|s.effects|] == e;
    forall k | 0 <= k < |s.effects| ensures t.effects[k] == s.effects[k] {}
  }

  // A command leaves every other integration's row as it was, and carries the token
  // its own row gave up.
  lemma {:induction false} CommitKeepsInv(s: State, t: State, url: bool, e: Effect)
    requires Inv(s, url) && e.Waiting? && t.effects == s.effects + [e] && t.registered == s.registered
    requires t.nextID >= s.nextID && IdsAreOld(t)
    requires forall id: nat :: id != e.id && id < s.nextID ==> RowOf(t, id) == RowOf(s, id)
    requires Keep(RowOf(s, e.id)) in ["", Keep(RowOf(t, e.id))] + e.candidates
    requires Current(s) in ["", Current(t)] + e.candidates
    ensures Inv(t, url)
  {
    OneEffectMore(s, t, e);
    forall k | 0 <= k < |t.effects| && t.effects[k].Running? && t.effects[k].keep != Keep(RowOf(t, t.effects[k].id))
      ensures HasWaiting(t, t.effects[k].id)
      ensures t.effects[k].keep != "" ==> WaitingRemoves(t, t.effects[k].id, t.effects[k].keep)
    {
      assert t.effects[k] == s.effects[k];
    }
  }

  lemma {:induction false} CommandKeepsInv(s: State, url: bool, m: Move)
    requires Inv(s, url) && Enabled(s, m) && !m.Begin? && !m.Call?
    ensures Inv(Do(s, url, m), url)
  {
    var t := Do(s, url, m);
    var e := t.effects[|s.effects|];
    if s.current.Some? {
      var row := s.current.value.row;
      if m.Update? { CarriesItsOwn([Some(row), Some(m.row)], 0); }
      if m.Delete? { CarriesItsOwn([Some(row)], 0); }
    }
    CommitKeepsInv(s, t, url, e);
  }

  lemma CarriesItsOwn(rows: seq<Option<Row>>, k: nat)
    requires k < |rows|
    ensures Keep(rows[k]) == "" || Keep(rows[k]) in TokensOf(rows)
  {
    TokensAre(rows, TokenOf(rows[k]));
  }

  // ---- effects -----------------------------------------------------------------------------------

  lemma {:induction false} BeginKeepsInv(s: State, url: bool, i: nat)
    requires Inv(s, url) && Enabled(s, Begin(i))
    ensures Inv(Do(s, url, Begin(i)), url)
  {
    var t, e := Do(s, url, Begin(i)), s.effects[i];
    forall x | x in t.registered && x != Current(t) ensures WillBeRemoved(t, x) {
      var k :| 0 <= k < |s.effects| && Removes(s.effects[k], x);
      assert Removes(t.effects[k], x);
    }
    forall k | 0 <= k < |t.effects| && t.effects[k].Running? && t.effects[k].keep != Keep(RowOf(t, t.effects[k].id))
      ensures HasWaiting(t, t.effects[k].id)
      ensures t.effects[k].keep != "" ==> WaitingRemoves(t, t.effects[k].id, t.effects[k].keep)
    {
      assert k != i && s.effects[k] == t.effects[k] && s.effects[k].id != e.id;
      StillWaiting(s, t, i, s.effects[k].id, s.effects[k].keep);
    }
  }

  // What another effect does leaves the waiting effects of an integration waiting.
  lemma StillWaiting(s: State, t: State, i: nat, id: nat, x: string)
    requires i < |s.effects| == |t.effects| && (s.effects[i].Waiting? ==> s.effects[i].id != id)
    requires forall k :: 0 <= k < |s.effects| && k != i ==> t.effects[k] == s.effects[k]
    ensures HasWaiting(s, id) ==> HasWaiting(t, id)
    ensures WaitingRemoves(s, id, x) ==> WaitingRemoves(t, id, x) && WillBeRemoved(t, x)
  {
    if HasWaiting(s, id) {
      var k :| 0 <= k < |s.effects| && s.effects[k].Waiting? && s.effects[k].id == id;
      assert t.effects[k] == s.effects[k];
    }
    if WaitingRemoves(s, id, x) {
      var k :| 0 <= k < |s.effects| && s.effects[k].Waiting? && s.effects[k].id == id && x in s.effects[k].candidates;
      assert t.effects[k] == s.effects[k] && Removes(t.effects[k], x);
    }
  }

  lemma {:induction false} CallKeepsStrays(s: State, url: bool, i: nat)
    requires Inv(s, url) && Enabled(s, Call(i))
    ensures StraysAreCandidates(Do(s, url, Call(i)))
  {
    var t, e := Do(s, url, Call(i)), s.effects[i];
    forall x | x in t.registered && x != Current(t) ensures WillBeRemoved(t, x) {
      if x in s.registered {
        var k :| 0 <= k < |s.effects| && Removes(s.effects[k], x);
        assert Removes(t.effects[k], x);
      } else {
        assert x == e.keep && x != Keep(RowOf(s, e.id));
        StillWaiting(s, t, i, e.id, x);
      }
    }
  }

  lemma {:induction false} CallKeepsInv(s: State, url: bool, i: nat)
    requires Inv(s, url) && Enabled(s, Call(i))
    ensures Inv(Do(s, url, Call(i)), url)
  {
    var t, e := Do(s, url, Call(i)), s.effects[i];
    CallKeepsStrays(s, url, i);
    forall k | 0 <= k < |t.effects| && t.effects[k].Running? && t.effects[k].keep != Keep(RowOf(t, t.effects[k].id))
      ensures HasWaiting(t, t.effects[k].id)
      ensures t.effects[k].keep != "" ==> WaitingRemoves(t, t.effects[k].id, t.effects[k].keep)
    {
      assert s.effects[k].Running? && s.effects[k].keep == t.effects[k].keep && s.effects[k].id == t.effects[k].id;
      StillWaiting(s, t, i, s.effects[k].id, s.effects[k].keep);
    }
  }

  lemma {:induction false} DoKeepsInv(s: State, url: bool, m: Move)
    requires Inv(s, url) && Enabled(s, m)
    ensures Inv(Do(s, url, m), url)
  {
    match m {
      case Begin(i) => BeginKeepsInv(s, url, i);
      case Call(i) => CallKeepsInv(s, url, i);
      case _ => CommandKeepsInv(s, url, m);
    }
  }

  lemma {:induction false} RunKeepsInv(s: State, url: bool, moves: seq<Move>)
    requires Inv(s, url)
    ensures Inv(RunFrom(s, url, moves), url)
  {
    if moves != [] {
      var n := |moves| - 1;
      RunKeepsInv(s, url, moves[..n]);
      var before := RunFrom(s, url, moves[..n]);
      if Enabled(before, moves[n]) { DoKeepsInv(before, url, moves[n]); }
    }
  }

  lemma {:induction false} EveryRunKeepsInv(url: bool, moves: seq<Move>)
    ensures Inv(After(url, moves), url)
  {
    RunKeepsInv(START, url, moves);
  }

  // In every interleaving of commands, reads and calls, over any number of
  // integrations one after another, a registered token other than the current enabled
  // one is a removal candidate of an effect that has not finished.
  lemma {:induction false} EveryStrayIsACandidate(url: bool, moves: seq<Move>, t: string)
    requires t in After(url, moves).registered && t != Current(After(url, moves))
    ensures exists k :: 0 <= k < |After(url, moves).effects| && Removes(After(url, moves).effects[k], t)
  {
    EveryRunKeepsInv(url, moves);
  }

  ghost predicate Quiet(s: State) {
    forall k :: 0 <= k < |s.effects| ==> s.effects[k].Done?
  }

  // So when no effect is left, nothing but the current enabled token is registered.
  lemma {:induction false} QuietLeavesNoStray(url: bool, moves: seq<Move>)
    requires Quiet(After(url, moves))
    ensures After(url, moves).registered <= {Current(After(url, moves))}
  {
    EveryRunKeepsInv(url, moves);
  }

  // In the row's own terms: once no effect is left, nothing is registered when there is
  // no integration, when its row is disabled, when its configuration does not parse or
  // when there is no address; and otherwise at most the token it parses to.
  lemma {:induction false} QuietIsTheRows(url: bool, moves: seq<Move>, t: string)
    requires Quiet(After(url, moves)) && t in After(url, moves).registered
    ensures var s := After(url, moves);
            && url && t != "" && s.current.Some?
            && s.current.value.row.telegram && s.current.value.row.enabled && s.current.value.row.config == Some(t)
  {
    EveryRunKeepsInv(url, moves);
    QuietLeavesNoStray(url, moves);
  }

  // ---- convergence ------------------------------------------------------------------------------

  function Left(e: Effect): nat {
    match e
    case Waiting(_, candidates) => |candidates| + 2
    case Running(_, _, todo) => |todo| + 1
    case Done => 0
  }

  function Work(effects: seq<Effect>): nat {
    if effects == [] then 0 else Work(effects[..|effects| - 1]) + Left(effects[|effects| - 1])
  }

  lemma {:induction false} WorkOfUpdate(effects: seq<Effect>, i: nat, e: Effect)
    requires i < |effects|
    ensures Work(effects[i := e]) + Left(effects[i]) == Work(effects) + Left(e)
  {
    var n := |effects| - 1;
    if i < n {
      WorkOfUpdate(effects[..n], i, e);
      assert effects[i := e][..n] == effects[..n][i := e];
    } else {
      assert effects[i := e][..n] == effects[..n];
    }
  }

  predicate OfEffects(m: Move) { m.Begin? || m.Call? }

  // Whatever order the effects are let run in, each of their moves leaves less to do,
  // and until nothing is left one of them can move.
  lemma {:induction false} EffectsFinish(s: State, url: bool)
    ensures forall m: Move :: OfEffects(m) && Enabled(s, m) ==> Work(Do(s, url, m).effects) < Work(s.effects)
    ensures Quiet(s) || exists m: Move :: OfEffects(m) && Enabled(s, m)
  {
    forall m: Move | OfEffects(m) && Enabled(s, m) ensures Work(Do(s, url, m).effects) < Work(s.effects) {
      WorkOfUpdate(s.effects, m.i, Do(s, url, m).effects[m.i]);
    }
    if k :| 0 <= k < |s.effects| && s.effects[k].Running? {
      assert Enabled(s, Call(k)) && OfEffects(Call(k));
    } else if k :| 0 <= k < |s.effects| && s.effects[k].Waiting? {
      assert Enabled(s, Begin(k)) && OfEffects(Begin(k));
    }
  }

  // A reconcile that no command interrupts does exactly what the method does.
  function Uninterrupted(s: State, url: bool, i: nat): State
    requires i < |s.effects| && s.effects[i].Running?
    decreases |s.effects[i].todo|
  {
    var t := Do(s, url, Call(i));
    if s.effects[i].todo == [] then t else Uninterrupted(t, url, i)
  }

  lemma {:induction false} UninterruptedIsReconcile(s: State, url: bool, i: nat)
    requires i < |s.effects| && s.effects[i].Running?
    ensures var t := Uninterrupted(s, url, i);
            && t.current == s.current && t.effects == s.effects[i := Done]
            && t.registered == Reconciled(s.registered, url, s.effects[i].todo, s.effects[i].keep)
    decreases |s.effects[i].todo|
  {
    var e := s.effects[i];
    if e.todo != [] {
      UninterruptedIsReconcile(Do(s, url, Call(i)), url, i);
      assert e.todo == [e.todo[0]] + e.todo[1..];
    }
  }

  // ---- why the row is read again ------------------------------------------------------------------------

  // The same commands with effects that act on what their own command saw: remove the
  // token it replaced, register the one it brought.
  datatype OwnEffect = Pending(before: string, after: string) | Ended

  datatype OwnState = OwnState(token: string, registered: set<string>, effects: seq<OwnEffect>)

  datatype OwnMove = Rotate(token: string) | Run(i: nat)

  function OwnDo(s: OwnState, m: OwnMove): OwnState {
    match m
    case Rotate(token) => OwnState(token, s.registered, s.effects + [Pending(s.token, token)])
    case Run(i) =>
      if i < |s.effects| && s.effects[i].Pending? then
        var e := s.effects[i];
        var left := if e.before == e.after then s.registered else s.registered - {e.before};
        OwnState(s.token, left + {e.after}, s.effects[i := Ended])
      else s
  }

  function OwnAfter(moves: seq<OwnMove>): OwnState {
    if moves == [] then OwnState("", {}, []) else OwnDo(OwnAfter(moves[..|moves| - 1]), moves[|moves| - 1])
  }

  lemma OwnStep(moves: seq<OwnMove>, m: OwnMove)
    ensures OwnAfter(moves + [m]) == OwnDo(OwnAfter(moves), m)
  {
    assert (moves + [m])[..|moves|] == moves;
  }

  // Two rotations whose effects run in the reverse order leave, with every effect
  // ended, a token registered that is not the current one and that nobody is after.
  lemma {:induction false} EffectsOfTheirOwnBreak(t1: string, t2: string, t3: string)
    requires t1 != t2 && t2 != t3 && t1 != t3 && "" !in {t1, t2, t3}
    ensures exists moves ::
              var s := OwnAfter(moves);
              s.token == t3 && s.registered == {t2, t3} && forall k :: 0 <= k < |s.effects| ==> s.effects[k].Ended?
  {
    var m1 := [Rotate(t1)];
    OwnStep([], Rotate(t1));
    var m2 := m1 + [Run(0)];
    OwnStep(m1, Run(0));
    assert OwnAfter(m2) == OwnState(t1, {t1}, [Ended]);
    var m3 := m2 + [Rotate(t2)];
    OwnStep(m2, Rotate(t2));
    var m4 := m3 + [Rotate(t3)];
    OwnStep(m3, Rotate(t3));
    assert OwnAfter(m4) == OwnState(t3, {t1}, [Ended, Pending(t1, t2), Pending(t2, t3)]);
    var m5 := m4 + [Run(2)];
    OwnStep(m4, Run(2));
    assert OwnAfter(m5) == OwnState(t3, {t1, t3}, [Ended, Pending(t1, t2), Ended]);
    var m6 := m5 + [Run(1)];
    OwnStep(m5, Run(1));
    assert OwnAfter(m6) == OwnState(t3, {t2, t3}, [Ended, Ended, Ended]);
  }
}
