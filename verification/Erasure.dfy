// Erasing a user (internal/erasure/service.go): what refuses it, and what one
// erasure does to the table of users.

module Erasure {
  import opened Order

  // A rotation layer is its groups, a group its members.
  datatype Snapshot = Snapshot(l1: seq<seq<string>>, l2: seq<seq<string>>)

  datatype UserRow = UserRow(admin: bool, erasedAt: Option<int>)

  datatype Tail = Tail(scheduleID: string, teamID: string, snapshot: Snapshot)

  datatype ScheduleRef = ScheduleRef(scheduleID: string, teamID: string)

  // ---- who a snapshot names -------------------------------------------------------

  predicate LayerNames(layer: seq<seq<string>>, user: string) {
    exists g :: 0 <= g < |layer| && user in layer[g]
  }

  predicate Names(snap: Snapshot, user: string) {
    LayerNames(snap.l1, user) || LayerNames(snap.l2, user)
  }

  method SnapshotNames(snap: Snapshot, user: string) returns (named: bool)
    ensures named <==> Names(snap, user)
  {
    var layers := [snap.l1, snap.l2];
    for l := 0 to 2
      invariant forall k :: 0 <= k < l ==> !LayerNames(layers[k], user)
    {
      for g := 0 to |layers[l]|
        invariant forall k :: 0 <= k < g ==> user !in layers[l][k]
      {
        for m := 0 to |layers[l][g]|
          invariant user !in layers[l][g][..m]
        {
          if layers[l][g][m] == user {
            return true;
          }
          assert layers[l][g][..m + 1] == layers[l][g][..m] + [layers[l][g][m]];
        }
        assert layers[l][g][..|layers[l][g]|] == layers[l][g];
      }
    }
    assert !LayerNames(layers[0], user) && !LayerNames(layers[1], user);
    return false;
  }

  // ---- what blocks an erasure --------------------------------------------------------

  ghost predicate TailBlocks(tails: seq<Tail>, user: string, id: string) {
    exists k :: 0 <= k < |tails| && tails[k].scheduleID == id && Names(tails[k].snapshot, user)
  }

  ghost predicate OverrideBlocks(overrides: seq<ScheduleRef>, id: string) {
    exists k :: 0 <= k < |overrides| && overrides[k].scheduleID == id
  }

  ghost predicate Blocks(tails: seq<Tail>, overrides: seq<ScheduleRef>, user: string, id: string) {
    TailBlocks(tails, user, id) || OverrideBlocks(overrides, id)
  }

  // A schedule and its team, as a tail that names the user has them.
  ghost predicate OfATail(tails: seq<Tail>, user: string, r: ScheduleRef) {
    exists k :: 0 <= k < |tails| && ScheduleRef(tails[k].scheduleID, tails[k].teamID) == r
      && Names(tails[k].snapshot, user)
  }

  // What a refusal may say of a schedule: what an override on it says, if there is
  // one, and what a tail that names the user says otherwise.
  ghost predicate Justified(tails: seq<Tail>, overrides: seq<ScheduleRef>, user: string, r: ScheduleRef) {
    if OverrideBlocks(overrides, r.scheduleID) then r in overrides else OfATail(tails, user, r)
  }

  // A schedule stands in the way of an erasure when an override of the user is live on
  // it, or the user is in some group of some layer of its tail.
  lemma BlocksMeans(tails: seq<Tail>, overrides: seq<ScheduleRef>, user: string, id: string)
    ensures Blocks(tails, overrides, user, id) <==>
              || (exists o :: o in overrides && o.scheduleID == id)
              || exists t :: t in tails && t.scheduleID == id && IsNamed(t.snapshot, user)
  {
    forall k | 0 <= k < |tails| ensures Names(tails[k].snapshot, user) <==> IsNamed(tails[k].snapshot, user) {
      NamesMeans(tails[k].snapshot, user);
    }
    if t :| t in tails && t.scheduleID == id && IsNamed(t.snapshot, user) {
      var k :| 0 <= k < |tails| && tails[k] == t;
      assert TailBlocks(tails, user, id);
    }
  }

  predicate IsNamed(snap: Snapshot, user: string) {
    exists g :: g in snap.l1 + snap.l2 && user in g
  }

  lemma NamesMeans(snap: Snapshot, user: string)
    ensures Names(snap, user) <==> IsNamed(snap, user)
  {
    if g :| g in snap.l1 + snap.l2 && user in g {
      if g in snap.l1 {
        var k :| 0 <= k < |snap.l1| && snap.l1[k] == g;
      } else {
        var k :| 0 <= k < |snap.l2| && snap.l2[k] == g;
      }
    }
    if k :| 0 <= k < |snap.l1| && user in snap.l1[k] { assert snap.l1[k] in snap.l1 + snap.l2; }
    if k :| 0 <= k < |snap.l2| && user in snap.l2[k] { assert snap.l2[k] in snap.l1 + snap.l2; }
  }

  const BY_SCHEDULE_ID: (ScheduleRef, ScheduleRef) -> bool :=
    (a: ScheduleRef, b: ScheduleRef) => StrLe(a.scheduleID, b.scheduleID)

  // One line per schedule, in the order of their ids.
  ghost predicate SortedOnce(refs: seq<ScheduleRef>) {
    forall i, j :: 0 <= i < j < |refs| ==>
      StrLe(refs[i].scheduleID, refs[j].scheduleID) && refs[i].scheduleID != refs[j].scheduleID
  }

  method BlockedByRotation(tails: seq<Tail>, user: string) returns (blocking: map<string, ScheduleRef>)
    ensures forall id :: id in blocking <==> TailBlocks(tails, user, id)
    ensures forall id :: id in blocking ==> blocking[id].scheduleID == id && OfATail(tails, user, blocking[id])
  {
    blocking := map[];
    for i := 0 to |tails|
      invariant forall id :: id in blocking <==> TailBlocks(tails[..i], user, id)
      invariant forall id :: id in blocking ==> blocking[id].scheduleID == id && OfATail(tails, user, blocking[id])
    {
      var named := SnapshotNames(tails[i].snapshot, user);
      if named {
        blocking := blocking[tails[i].scheduleID := ScheduleRef(tails[i].scheduleID, tails[i].teamID)];
      }
      forall id ensures id in blocking <==> TailBlocks(tails[..i + 1], user, id) { OneTailMore(tails, i, user, id); }
    }
    assert tails[..|tails|] == tails;
  }

  lemma OneTailMore(tails: seq<Tail>, i: nat, user: string, id: string)
    requires i < |tails|
    ensures TailBlocks(tails[..i + 1], user, id) <==>
              TailBlocks(tails[..i], user, id) || (tails[i].scheduleID == id && Names(tails[i].snapshot, user))
  {
    assert tails[..i + 1][i] == tails[i];
    forall k | 0 <= k < i ensures tails[..i + 1][k] == tails[..i][k] {}
  }

  // The values of a map, sorted: the map is walked in any order.
  method Listed(blocking: map<string, ScheduleRef>) returns (refs: seq<ScheduleRef>)
    requires forall id :: id in blocking ==> blocking[id].scheduleID == id
    ensures SortedOnce(refs)
    ensures forall r :: r in refs <==> r.scheduleID in blocking && r == blocking[r.scheduleID]
  {
    refs := [];
    var left := blocking.Keys;
    while left != {}
      invariant left <= blocking.Keys && NoDup(refs)
      invariant forall r :: r in refs <==>
                  r.scheduleID in blocking && r.scheduleID !in left && r == blocking[r.scheduleID]
      decreases |left|
    {
      var id :| id in left;
      refs := refs + [blocking[id]];
      left := left - {id};
    }
    SortedRefs(refs);
    refs := Sort(BY_SCHEDULE_ID, refs);
  }

  lemma ByScheduleIDIsTotal()
    ensures TotalPreorder(BY_SCHEDULE_ID)
  {
    forall a: ScheduleRef, b: ScheduleRef ensures BY_SCHEDULE_ID(a, b) || BY_SCHEDULE_ID(b, a) {
      StrLeTotal(a.scheduleID, b.scheduleID);
    }
    forall a: ScheduleRef, b: ScheduleRef, c: ScheduleRef | BY_SCHEDULE_ID(a, b) && BY_SCHEDULE_ID(b, c)
      ensures BY_SCHEDULE_ID(a, c)
    {
      StrLeTransitive(a.scheduleID, b.scheduleID, c.scheduleID);
    }
  }

  lemma SortedRefs(refs: seq<ScheduleRef>)
    requires NoDup(refs) && forall r, s :: r in refs && s in refs && r.scheduleID == s.scheduleID ==> r == s
    ensures SortedOnce(Sort(BY_SCHEDULE_ID, refs))
    ensures forall r :: r in Sort(BY_SCHEDULE_ID, refs) <==> r in refs
  {
    ByScheduleIDIsTotal();
    SortIsSortedPermutation(BY_SCHEDULE_ID, refs);
    PermutationNoDup(refs, Sort(BY_SCHEDULE_ID, refs));
    var s := Sort(BY_SCHEDULE_ID, refs);
    forall i, j | 0 <= i < j < |s|
      ensures StrLe(s[i].scheduleID, s[j].scheduleID) && s[i].scheduleID != s[j].scheduleID
    {
      assert BY_SCHEDULE_ID(s[i], s[j]);
      assert s[i] in refs && s[j] in refs;
    }
  }

  // A refusal lists the blocking schedules and nothing else, each once, in order.
  method GuardAssignments(tails: seq<Tail>, overrides: seq<ScheduleRef>, user: string)
    returns (refused: seq<ScheduleRef>)
    ensures SortedOnce(refused)
    ensures forall id :: Blocks(tails, overrides, user, id) <==> exists r :: r in refused && r.scheduleID == id
    ensures forall r :: r in refused ==> Justified(tails, overrides, user, r)
  {
    var blocking := BlockedByRotation(tails, user);
    for i := 0 to |overrides|
      invariant Gathered(blocking, tails, overrides[..i], user)
    {
      GatherOne(blocking, tails, overrides, i, user);
      blocking := blocking[overrides[i].scheduleID := overrides[i]];
    }
    assert overrides[..|overrides|] == overrides;
    if |blocking| == 0 {
      return [];
    }
    refused := Listed(blocking);
    forall id | id in blocking
      ensures exists r :: r in refused && r.scheduleID == id
    {
      assert blocking[id] in refused;
    }
  }

  ghost predicate Gathered(blocking: map<string, ScheduleRef>, tails: seq<Tail>, overrides: seq<ScheduleRef>,
                           user: string) {
    && (forall id :: id in blocking <==> Blocks(tails, overrides, user, id))
    && (forall id :: id in blocking ==>
         blocking[id].scheduleID == id && Justified(tails, overrides, user, blocking[id]))
  }

  lemma GatherOne(blocking: map<string, ScheduleRef>, tails: seq<Tail>, overrides: seq<ScheduleRef>, i: nat,
                  user: string)
    requires i < |overrides| && Gathered(blocking, tails, overrides[..i], user)
    ensures Gathered(blocking[overrides[i].scheduleID := overrides[i]], tails, overrides[..i + 1], user)
  {
    assert overrides[..i + 1] == overrides[..i] + [overrides[i]];
    forall id
      ensures OverrideBlocks(overrides[..i + 1], id) <==>
                OverrideBlocks(overrides[..i], id) || overrides[i].scheduleID == id
    {
      OneOverrideMore(overrides, i, id);
    }
  }

  lemma OneOverrideMore(overrides: seq<ScheduleRef>, i: nat, id: string)
    requires i < |overrides|
    ensures OverrideBlocks(overrides[..i + 1], id) <==>
              OverrideBlocks(overrides[..i], id) || overrides[i].scheduleID == id
  {
    assert overrides[..i + 1][i] == overrides[i];
    forall k | 0 <= k < i ensures overrides[..i + 1][k] == overrides[..i][k] {}
  }

  // ---- the last administrator -----------------------------------------------------------

  function ActiveAdmins(users: map<string, UserRow>): set<string> {
    set u | u in users && users[u].admin && users[u].erasedAt.None?
  }

  // ---- one erasure ------------------------------------------------------------------------

  // Somebody with a row who has not been erased.
  predicate Lives(rows: map<string, UserRow>, user: string) {
    user in rows && rows[user].erasedAt.None?
  }

  datatype Outcome =
    | Done
    | UserNotFound
    | OnCall(schedules: seq<ScheduleRef>)
    | LastAdmin
    | ReadFailed

  class Users {
    var rows: map<string, UserRow>

    constructor (rows: map<string, UserRow>)
      ensures this.rows == rows
    {
      this.rows := rows;
    }

    // tails is what the locked schedules hold, and overrides what is live at the
    // instant; None is a read that failed. now is read after every lock is held.
    method Erase(userID: string, tails: Option<seq<Tail>>, now: int, overrides: Option<seq<ScheduleRef>>)
      returns (outcome: Outcome)
      modifies this
      ensures outcome.UserNotFound? <==> userID == "" || userID !in old(rows)
      ensures userID != "" && userID in old(rows) && old(rows)[userID].erasedAt.Some? ==> outcome.Done?
      ensures userID != "" && Lives(old(rows), userID) ==>
                && (outcome.ReadFailed? <==> tails.None? || overrides.None?)
                && (outcome.OnCall? <==>
                      && tails.Some? && overrides.Some?
                      && exists id :: Blocks(tails.value, overrides.value, userID, id))
                && (outcome.LastAdmin? <==>
                      && tails.Some? && overrides.Some?
                      && (forall id :: !Blocks(tails.value, overrides.value, userID, id))
                      && old(rows)[userID].admin
                      && (forall v :: v in old(rows) && old(rows)[v].admin && Lives(old(rows), v) ==> v == userID))
      ensures outcome.OnCall? ==>
                && outcome.schedules != [] && SortedOnce(outcome.schedules)
                && (forall id :: Blocks(tails.value, overrides.value, userID, id) <==>
                                   exists r :: r in outcome.schedules && r.scheduleID == id)
                && (forall r :: r in outcome.schedules ==> Justified(tails.value, overrides.value, userID, r))
      ensures rows == if outcome.Done? && old(rows)[userID].erasedAt.None?
                      then old(rows)[userID := UserRow(old(rows)[userID].admin, Some(now))] else old(rows)
      ensures (exists v :: v in old(rows) && old(rows)[v].admin && Lives(old(rows), v)) ==>
                exists v :: v in rows && rows[v].admin && Lives(rows, v)
    {
      if userID == "" || userID !in rows {
        return UserNotFound;
      }
      var user := rows[userID];
      if user.erasedAt.Some? {
        return Done;
      }
      if tails.None? || overrides.None? {
        return ReadFailed;
      }
      var blocking := GuardAssignments(tails.value, overrides.value, userID);
      if |blocking| > 0 {
        assert Blocks(tails.value, overrides.value, userID, blocking[0].scheduleID);
        return OnCall(blocking);
      }
      var last := GuardLastAdmin(user);
      if last {
        OneAdminLeft(rows, userID);
        assert forall v :: v in rows && rows[v].admin && rows[v].erasedAt.None? ==> v in ActiveAdmins(rows);
        return LastAdmin;
      }
      AnotherAdmin(rows, userID);
      ghost var was := rows;
      rows := rows[userID := user.(erasedAt := Some(now))];
      if v :| v in ActiveAdmins(was) && v != userID { assert rows[v].admin && Lives(rows, v); }
      assert (exists v :: v in was && was[v].admin && Lives(was, v)) ==> ActiveAdmins(was) != {} by {
        if v :| v in was && was[v].admin && Lives(was, v) { assert v in ActiveAdmins(was); }
      }
      return Done;
    }

    method GuardLastAdmin(user: UserRow) returns (last: bool)
      ensures last <==> user.admin && |ActiveAdmins(rows)| <= 1
    {
      if !user.admin {
        return false;
      }
      return |ActiveAdmins(rows)| <= 1;
    }
  }

  lemma OneAdminLeft(rows: map<string, UserRow>, u: string)
    requires u in ActiveAdmins(rows) && |ActiveAdmins(rows)| <= 1
    ensures ActiveAdmins(rows) == {u}
  {
    OneElement(ActiveAdmins(rows), u);
  }

  // Of an administrator who is not the last there is another.
  lemma AnotherAdmin(rows: map<string, UserRow>, u: string)
    requires u in rows && (!rows[u].admin || |ActiveAdmins(rows)| > 1)
    ensures ActiveAdmins(rows) != {} ==> exists v :: v in ActiveAdmins(rows) && v != u
  {
    if !rows[u].admin && ActiveAdmins(rows) != {} {
      var v :| v in ActiveAdmins(rows);
      assert v != u;
    }
    if rows[u].admin && |ActiveAdmins(rows)| > 1 {
      if ActiveAdmins(rows) <= {u} { assert |{u}| == 1; FewerOrEqual(ActiveAdmins(rows), u); }
      var v :| v in ActiveAdmins(rows) && v != u;
    }
  }

  lemma FewerOrEqual(s: set<string>, u: string)
    requires s <= {u}
    ensures |s| <= 1
  {
    if u in s { assert s == {u}; } else { assert s == {}; }
  }

  lemma OneElement(s: set<string>, u: string)
    requires u in s && |s| <= 1
    ensures s == {u}
  {
    assert |s - {u}| == |s| - 1;
    assert s == (s - {u}) + {u};
  }

  lemma ErasingOne(rows: map<string, UserRow>, u: string, at: int)
    requires u in rows && rows[u].erasedAt.None?
    ensures var after := rows[u := rows[u].(erasedAt := Some(at))];
            && ActiveAdmins(after) == ActiveAdmins(rows) - {u}
            && |ActiveAdmins(after)| >= |ActiveAdmins(rows)| - (if rows[u].admin then 1 else 0)
  {
    var after := rows[u := rows[u].(erasedAt := Some(at))];
    assert ActiveAdmins(after) == ActiveAdmins(rows) - {u};
    if !rows[u].admin { assert ActiveAdmins(rows) - {u} == ActiveAdmins(rows); }
  }
}
