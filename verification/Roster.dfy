// Who the people named by one plan are, and who is on duty for each of its steps
// (internal/engine/plan.go). The store and the projection may answer differently
// every time they are asked; one plan asks each question once.

module Roster {
  import opened Order

  datatype User = User(id: string, name: string)

  // What the users table holds at one read, by id; None is a read that failed.
  type Table = Option<map<string, string>>

  // A row that was asked for and is not there is remembered as absent.
  type Known = map<string, Option<User>>

  function Missing(known: Known, ids: seq<string>): seq<string> {
    if ids == [] then []
    else (if ids[0] in known then [] else [ids[0]]) + Missing(known, ids[1..])
  }

  function Learned(known: Known, ask: seq<string>, rows: map<string, string>): Known {
    known + map id | id in ask :: if id in rows then Some(User(id, rows[id])) else None
  }

  function Present(known: Known, ids: seq<string>): seq<User> {
    if ids == [] then []
    else (if ids[0] in known && known[ids[0]].Some? then [known[ids[0]].value] else []) + Present(known, ids[1..])
  }

  // One call of roster.people: what is known afterwards, and the answer - None
  // when the read it needed failed.
  function People(known: Known, ids: seq<string>, table: Table): (r: (Known, Option<seq<User>>)) {
    var ask := Missing(known, ids);
    if ask == [] then (known, Some(Present(known, ids)))
    else if table.None? then (known, None)
    else
      var after := Learned(known, ask, table.value);
      (after, Some(Present(after, ids)))
  }

  lemma {:induction false} MissingIsUnknown(known: Known, ids: seq<string>)
    ensures forall id :: id in Missing(known, ids) <==> id in ids && id !in known
  {
    if ids != [] { MissingIsUnknown(known, ids[1..]); }
  }

  lemma {:induction false} NothingMissing(known: Known, ids: seq<string>)
    requires forall id :: id in ids ==> id in known
    ensures Missing(known, ids) == []
  {
    if ids != [] { NothingMissing(known, ids[1..]); }
  }

  lemma {:induction false} PresentIsStable(small: Known, large: Known, ids: seq<string>)
    requires forall id :: id in ids ==> id in small && id in large && large[id] == small[id]
    ensures Present(small, ids) == Present(large, ids)
  {
    if ids != [] {
      assert ids[0] in ids;
      PresentIsStable(small, large, ids[1..]);
    }
  }

  ghost predicate Extends(small: Known, large: Known) {
    forall id :: id in small ==> id in large && large[id] == small[id]
  }

  lemma {:induction false} PeopleGrow(known: Known, ids: seq<string>, table: Table)
    ensures var (after, answer) := People(known, ids, table);
            && Extends(known, after)
            && (answer.Some? ==> answer.value == Present(after, ids) && forall id :: id in ids ==> id in after)
            && (answer.None? ==> after == known)
  {
    MissingIsUnknown(known, ids);
  }

  // ---- a whole plan's worth of calls --------------------------------------------

  datatype Call = Call(ids: seq<string>, table: Table)

  function KnownAfter(calls: seq<Call>): Known {
    if calls == [] then map[]
    else People(KnownAfter(calls[..|calls| - 1]), calls[|calls| - 1].ids, calls[|calls| - 1].table).0
  }

  function AnswerTo(calls: seq<Call>, i: nat): Option<seq<User>>
    requires i < |calls|
  {
    People(KnownAfter(calls[..i]), calls[i].ids, calls[i].table).1
  }

  // The ids the store successfully answered for at call i.
  function FetchedAt(calls: seq<Call>, i: nat): seq<string>
    requires i < |calls|
  {
    if calls[i].table.None? then [] else Missing(KnownAfter(calls[..i]), calls[i].ids)
  }

  lemma {:induction false} KnownGrows(calls: seq<Call>, i: nat, j: nat)
    requires i <= j <= |calls|
    ensures Extends(KnownAfter(calls[..i]), KnownAfter(calls[..j]))
    decreases j - i
  {
    if i < j {
      KnownGrows(calls, i, j - 1);
      assert calls[..j][..j - 1] == calls[..j - 1];
      PeopleGrow(KnownAfter(calls[..j - 1]), calls[j - 1].ids, calls[j - 1].table);
    }
  }

  // Whatever the table turned into between the calls, every answer of one plan is
  // read off one map, the one it ends with...
  lemma {:induction false} OneAnswerPerPerson(calls: seq<Call>, i: nat)
    requires i < |calls| && AnswerTo(calls, i).Some?
    ensures AnswerTo(calls, i).value == Present(KnownAfter(calls), calls[i].ids)
    ensures forall id :: id in calls[i].ids ==> id in KnownAfter(calls)
  {
    var before := KnownAfter(calls[..i]);
    PeopleGrow(before, calls[i].ids, calls[i].table);
    assert calls[..i + 1][..i] == calls[..i] && calls[..|calls|] == calls;
    KnownGrows(calls, i + 1, |calls|);
    PresentIsStable(KnownAfter(calls[..i + 1]), KnownAfter(calls), calls[i].ids);
  }

  // ...and the store settles each person once.
  lemma {:induction false} EachPersonIsFetchedOnce(calls: seq<Call>, i: nat, j: nat, id: string)
    requires i < j < |calls| && id in FetchedAt(calls, i)
    ensures id !in FetchedAt(calls, j)
  {
    KnownOnceFetched(calls, i, id);
    KnownGrows(calls, i + 1, j);
    MissingIsUnknown(KnownAfter(calls[..j]), calls[j].ids);
  }

  lemma {:induction false} KnownOnceFetched(calls: seq<Call>, i: nat, id: string)
    requires i < |calls| && id in FetchedAt(calls, i)
    ensures id in KnownAfter(calls[..i + 1])
  {
    KnownStep(calls, i);
    FetchedIsKnown(KnownAfter(calls[..i]), calls[i].ids, calls[i].table, id);
  }

  lemma KnownStep(calls: seq<Call>, i: nat)
    requires i < |calls|
    ensures KnownAfter(calls[..i + 1]) == People(KnownAfter(calls[..i]), calls[i].ids, calls[i].table).0
  {
    assert calls[..i + 1][..i] == calls[..i];
  }

  lemma {:induction false} FetchedIsKnown(known: Known, ids: seq<string>, table: Table, id: string)
    requires table.Some? && id in Missing(known, ids)
    ensures id in People(known, ids, table).0
  {
  }

  lemma {:induction false} NeverRead(calls: seq<Call>, id: string)
    requires forall j :: 0 <= j < |calls| && id in calls[j].ids ==> calls[j].table.None?
    ensures id !in KnownAfter(calls)
  {
    if calls != [] {
      var n := |calls| - 1;
      NeverRead(calls[..n], id);
      MissingIsUnknown(KnownAfter(calls[..n]), calls[n].ids);
    }
  }

  // What a plan knows of a person is what the table said at the first call that asked
  // for them and was answered: their row, or that there is none. Nothing else is known.
  lemma {:induction false} KnownIsAsFirstRead(calls: seq<Call>, i: nat, id: string)
    requires i < |calls| && id in calls[i].ids && calls[i].table.Some?
    requires forall j :: 0 <= j < i && id in calls[j].ids ==> calls[j].table.None?
    ensures id in KnownAfter(calls)
    ensures KnownAfter(calls)[id] ==
            if id in calls[i].table.value then Some(User(id, calls[i].table.value[id])) else None
  {
    NeverRead(calls[..i], id);
    MissingIsUnknown(KnownAfter(calls[..i]), calls[i].ids);
    KnownStep(calls, i);
    KnownGrows(calls, i + 1, |calls|);
    assert calls[..|calls|] == calls;
  }

  lemma {:induction false} KnownWasRead(calls: seq<Call>, id: string)
    requires id in KnownAfter(calls)
    ensures exists i :: 0 <= i < |calls| && id in calls[i].ids && calls[i].table.Some?
  {
    if forall j :: 0 <= j < |calls| && id in calls[j].ids ==> calls[j].table.None? { NeverRead(calls, id); }
  }

  // A call is answered when the table can be read, or nobody new is asked for.
  lemma {:induction false} AnsweredIff(calls: seq<Call>, i: nat)
    requires i < |calls|
    ensures AnswerTo(calls, i).Some? <==>
              calls[i].table.Some? || forall id :: id in calls[i].ids ==> id in KnownAfter(calls[..i])
  {
    Readable(KnownAfter(calls[..i]), calls[i].ids, calls[i].table);
  }

  lemma {:induction false} Readable(known: Known, ids: seq<string>, table: Table)
    ensures People(known, ids, table).1.Some? <==> table.Some? || forall id :: id in ids ==> id in known
  {
    MissingIsUnknown(known, ids);
    if Missing(known, ids) != [] { assert Missing(known, ids)[0] in Missing(known, ids); }
  }

  // An answer is everybody asked for who has a row, in the order asked.
  lemma {:induction false} PresentAre(known: Known, ids: seq<string>, u: User)
    ensures u in Present(known, ids) <==> exists id :: id in ids && id in known && known[id] == Some(u)
    ensures |Present(known, ids)| <= |ids|
  {
    if ids != [] {
      PresentAre(known, ids[1..], u);
      assert ids == [ids[0]] + ids[1..];
    }
  }

  lemma {:induction false} PresentInOrder(known: Known, ids: seq<string>, more: seq<string>)
    ensures Present(known, ids + more) == Present(known, ids) + Present(known, more)
  {
    if ids == [] {
      assert ids + more == more;
    } else {
      assert (ids + more)[0] == ids[0] && (ids + more)[1..] == ids[1..] + more;
      PresentInOrder(known, ids[1..], more);
    }
  }

  // ---- who is on duty for a step ---------------------------------------------------

  // The people of a layer, when their assignment began and ends, and where the
  // answer came from.
  datatype Layer = Layer(ids: seq<string>, since: int, until: int, source: string)

  datatype OnCall = OnCall(l1: Option<Layer>, l2: Option<Layer>)

  // The team's own answer, read once by the caller and handed in. An unreadable
  // team is not a team without a schedule.
  datatype TeamOnCall = Unreadable | TeamRead(scheduleID: string, onCall: OnCall)

  // What the projection of a schedule by id comes back with. Damage is a fact
  // about stored data: it would be the same on every retry.
  datatype Projection = Projected(onCall: OnCall) | Damaged | Unavailable

  // A read that failed is an answer too, and is remembered like one.
  datatype Resolution = Users(users: seq<User>) | Fails

  datatype Resolver = Resolver(known: Known, teamUsers: Option<Resolution>, byID: map<string, Resolution>)

  // What the two reads a question may need would come back with, now.
  datatype World = World(projection: Projection, table: Table)

  function DutyIDs(onCall: OnCall): seq<string> {
    if onCall.l1.Some? then onCall.l1.value.ids else []
  }

  function Hydrated(known: Known, onCall: OnCall, table: Table): (Known, Resolution) {
    var (after, answer) := People(known, DutyIDs(onCall), table);
    (after, if answer.Some? then Users(answer.value) else Fails)
  }

  function Ask(r: Resolver, team: TeamOnCall, fallback: string, w: World): (Resolver, Resolution) {
    if team.Unreadable? then (r, Fails)
    else if team.scheduleID != "" then
      if r.teamUsers.Some? then (r, r.teamUsers.value)
      else
        var (known, answer) := Hydrated(r.known, team.onCall, w.table);
        (r.(known := known, teamUsers := Some(answer)), answer)
    else if fallback == "" then (r, Users([]))
    else if fallback in r.byID then (r, r.byID[fallback])
    else
      var (known, answer) :=
        match w.projection
        case Unavailable => (r.known, Fails)
        case Damaged => (r.known, Users([]))
        case Projected(onCall) => Hydrated(r.known, onCall, w.table);
      (r.(known := known, byID := r.byID[fallback := answer]), answer)
  }

  // ---- a whole plan's worth of questions -----------------------------------------

  datatype Question = Question(fallback: string, w: World)

  const UNASKED: Resolver := Resolver(map[], None, map[])

  function ResolverAfter(team: TeamOnCall, asked: seq<Question>): Resolver {
    if asked == [] then UNASKED
    else
      var last := asked[|asked| - 1];
      Ask(ResolverAfter(team, asked[..|asked| - 1]), team, last.fallback, last.w).0
  }

  function Resolved(team: TeamOnCall, asked: seq<Question>, i: nat): Resolution
    requires i < |asked|
  {
    Ask(ResolverAfter(team, asked[..i]), team, asked[i].fallback, asked[i].w).1
  }

  // What a later resolver remembers of an earlier one.
  ghost predicate Remembers(early: Resolver, late: Resolver) {
    && Extends(early.known, late.known)
    && (early.teamUsers.Some? ==> late.teamUsers == early.teamUsers)
    && (forall id :: id in early.byID ==> id in late.byID && late.byID[id] == early.byID[id])
  }

  // Everybody an answer names is read off the one map of people.
  ghost predicate AnswersFrom(answer: Resolution, ids: seq<string>, known: Known) {
    answer.Users? ==> answer.users == Present(known, ids) && forall id :: id in ids ==> id in known
  }

  lemma {:induction false} HydratedFromKnown(known: Known, onCall: OnCall, table: Table)
    ensures Extends(known, Hydrated(known, onCall, table).0)
    ensures AnswersFrom(Hydrated(known, onCall, table).1, DutyIDs(onCall), Hydrated(known, onCall, table).0)
  {
    PeopleGrow(known, DutyIDs(onCall), table);
  }

  lemma {:induction false} AnswersLast(answer: Resolution, ids: seq<string>, early: Known, late: Known)
    requires AnswersFrom(answer, ids, early) && Extends(early, late)
    ensures AnswersFrom(answer, ids, late)
  {
    if answer.Users? { PresentIsStable(early, late, ids); }
  }

  lemma {:induction false} AskRemembers(r: Resolver, team: TeamOnCall, fallback: string, w: World)
    ensures Remembers(r, Ask(r, team, fallback, w).0)
  {
    if team.TeamRead? { HydratedFromKnown(r.known, team.onCall, w.table); }
    if w.projection.Projected? { HydratedFromKnown(r.known, w.projection.onCall, w.table); }
  }

  lemma {:induction false} ResolverRemembers(team: TeamOnCall, asked: seq<Question>, i: nat, j: nat)
    requires i <= j <= |asked|
    ensures Remembers(ResolverAfter(team, asked[..i]), ResolverAfter(team, asked[..j]))
    decreases j - i
  {
    if i < j {
      ResolverRemembers(team, asked, i, j - 1);
      assert asked[..j][..j - 1] == asked[..j - 1];
      AskRemembers(ResolverAfter(team, asked[..j - 1]), team, asked[j - 1].fallback, asked[j - 1].w);
    }
  }

  // Asking again gives the answer already given, failures included, whatever the
  // world has become meanwhile, and adds nothing to what is remembered.
  lemma {:induction false} AskedAgain(r: Resolver, team: TeamOnCall, fallback: string, w: World, late: Resolver,
                                      later: World)
    requires Remembers(Ask(r, team, fallback, w).0, late)
    ensures Ask(late, team, fallback, later) == (late, Ask(r, team, fallback, w).1)
  {
  }

  // Within one plan, each schedule resolves to one answer.
  lemma {:induction false} OneAnswerPerSchedule(team: TeamOnCall, asked: seq<Question>, i: nat, j: nat)
    requires i < j < |asked| && asked[i].fallback == asked[j].fallback
    ensures Resolved(team, asked, j) == Resolved(team, asked, i)
  {
    assert asked[..i + 1][..i] == asked[..i];
    ResolverRemembers(team, asked, i + 1, j);
    AskedAgain(ResolverAfter(team, asked[..i]), team, asked[i].fallback, asked[i].w,
               ResolverAfter(team, asked[..j]), asked[j].w);
  }

  lemma {:induction false} PeopleLearn(known: Known, ids: seq<string>, table: Table, id: string)
    requires id in People(known, ids, table).0 && id !in known
    ensures table.Some? && People(known, ids, table).0[id] ==
            if id in table.value then Some(User(id, table.value[id])) else None
  {
    MissingIsUnknown(known, ids);
  }

  // Whatever a plan knows of a person, the table said when some question was asked.
  lemma {:induction false} KnownFromTheTable(team: TeamOnCall, asked: seq<Question>, id: string)
    requires id in ResolverAfter(team, asked).known
    ensures exists i :: 0 <= i < |asked| && SaysOf(asked[i].w.table, id, ResolverAfter(team, asked).known[id])
  {
    var n := |asked| - 1;
    var before, q := ResolverAfter(team, asked[..n]), asked[n];
    AskRemembers(before, team, q.fallback, q.w);
    if id in before.known {
      KnownFromTheTable(team, asked[..n], id);
      var i :| 0 <= i < n && SaysOf(asked[..n][i].w.table, id, before.known[id]);
      assert asked[i] == asked[..n][i];
    } else {
      if team.TeamRead? && team.scheduleID != "" {
        PeopleLearn(before.known, DutyIDs(team.onCall), q.w.table, id);
      } else {
        PeopleLearn(before.known, DutyIDs(q.w.projection.onCall), q.w.table, id);
      }
      assert SaysOf(asked[n].w.table, id, ResolverAfter(team, asked).known[id]);
    }
  }

  predicate SaysOf(table: Table, id: string, what: Option<User>) {
    table.Some? && what == if id in table.value then Some(User(id, table.value[id])) else None
  }

  // Everybody on a layer is known already, or can be read.
  ghost predicate CanBeNamed(known: Known, layer: Option<Layer>, table: Table) {
    layer.None? || table.Some? || forall id :: id in layer.value.ids ==> id in known
  }

  // The first question about a schedule is answered exactly when what it needs can be
  // read: the team; for a team with no schedule of its own, a schedule that was named
  // and can be projected - or is damaged, which is an answer; and the people of its
  // first layer.
  lemma {:induction false} FirstQuestionIsAnswered(team: TeamOnCall, asked: seq<Question>, i: nat)
    requires i < |asked|
    requires forall k :: 0 <= k < i ==> asked[k].fallback != asked[i].fallback
    requires team.TeamRead? && team.scheduleID != "" ==> i == 0
    ensures var q, known := asked[i], ResolverAfter(team, asked[..i]).known;
            Resolved(team, asked, i).Users? <==>
              && team.TeamRead?
              && if team.scheduleID != "" then CanBeNamed(known, team.onCall.l1, q.w.table)
                 else q.fallback == "" || q.w.projection.Damaged?
                      || (q.w.projection.Projected? && CanBeNamed(known, q.w.projection.onCall.l1, q.w.table))
  {
    var q, known := asked[i], ResolverAfter(team, asked[..i]).known;
    NotYetAsked(team, asked, q.fallback, i);
    if team.TeamRead? { Readable(known, DutyIDs(team.onCall), q.w.table); }
    if q.w.projection.Projected? { Readable(known, DutyIDs(q.w.projection.onCall), q.w.table); }
  }

  // A team with a schedule answers every step itself, with one answer.
  lemma {:induction false} TeamAnswersForItself(team: TeamOnCall, asked: seq<Question>, i: nat, j: nat)
    requires team.TeamRead? && team.scheduleID != "" && i <= j < |asked|
    ensures Resolved(team, asked, j) == Resolved(team, asked, i)
    ensures ResolverAfter(team, asked[..j]).byID == map[]
  {
    TeamNeverFallsBack(team, asked[..j]);
    if i < j {
      assert asked[..i + 1][..i] == asked[..i];
      ResolverRemembers(team, asked, i + 1, j);
    }
  }

  lemma {:induction false} TeamNeverFallsBack(team: TeamOnCall, asked: seq<Question>)
    requires team.TeamRead? && team.scheduleID != ""
    ensures ResolverAfter(team, asked).byID == map[]
  {
    if asked != [] { TeamNeverFallsBack(team, asked[..|asked| - 1]); }
  }

  // The team's answer names the team's people as the shared map has them.
  lemma {:induction false} TeamAnswerIsKnown(team: TeamOnCall, asked: seq<Question>)
    requires team.TeamRead? && team.scheduleID != ""
    ensures var r := ResolverAfter(team, asked);
            r.teamUsers.Some? ==> AnswersFrom(r.teamUsers.value, DutyIDs(team.onCall), r.known)
    ensures asked != [] ==> ResolverAfter(team, asked).teamUsers.Some?
  {
    if asked != [] {
      var n := |asked| - 1;
      var before := ResolverAfter(team, asked[..n]);
      TeamAnswerIsKnown(team, asked[..n]);
      HydratedFromKnown(before.known, team.onCall, asked[n].w.table);
    }
  }

  // Every answer of a plan is read off the map the plan ends with: for the team's
  // own schedule with the people the team named, for a schedule read by id with
  // the people its one projection named.
  lemma {:induction false} EveryoneIsOnOneMap(team: TeamOnCall, asked: seq<Question>, i: nat)
    requires i < |asked| && Resolved(team, asked, i).Users?
    ensures AnswersFrom(Resolved(team, asked, i), AskedOf(team, asked, asked[i].fallback),
                        ResolverAfter(team, asked).known)
  {
    assert asked[..|asked|] == asked;
    if team.TeamRead? && team.scheduleID != "" {
      TeamIsOnOneMap(team, asked, i);
    } else {
      var first := FirstAsked(asked, asked[i].fallback);
      FirstAskedIsFirst(asked, i);
      if first < i { OneAnswerPerSchedule(team, asked, first, i); }
      FirstAnswerIsOnOneMap(team, asked, first);
    }
  }

  lemma {:induction false} TeamIsOnOneMap(team: TeamOnCall, asked: seq<Question>, i: nat)
    requires i < |asked| && team.TeamRead? && team.scheduleID != ""
    ensures AnswersFrom(Resolved(team, asked, i), DutyIDs(team.onCall), ResolverAfter(team, asked).known)
  {
    assert asked[..|asked|] == asked && asked[..i + 1][..i] == asked[..i];
    TeamAnswerIsKnown(team, asked[..i + 1]);
    ResolverRemembers(team, asked, i + 1, |asked|);
    AnswersLast(Resolved(team, asked, i), DutyIDs(team.onCall), ResolverAfter(team, asked[..i + 1]).known,
                ResolverAfter(team, asked).known);
  }

  lemma {:induction false} FirstAnswerIsOnOneMap(team: TeamOnCall, asked: seq<Question>, first: nat)
    requires first < |asked| && !(team.TeamRead? && team.scheduleID != "") && Resolved(team, asked, first).Users?
    requires first == FirstAsked(asked, asked[first].fallback)
    requires forall k :: 0 <= k < first ==> asked[k].fallback != asked[first].fallback
    ensures AnswersFrom(Resolved(team, asked, first), AskedOf(team, asked, asked[first].fallback),
                        ResolverAfter(team, asked).known)
  {
    NotYetAsked(team, asked, asked[first].fallback, first);
    var q, before := asked[first], ResolverAfter(team, asked[..first]);
    if q.fallback != "" && q.w.projection.Projected? {
      assert asked[..|asked|] == asked && asked[..first + 1][..first] == asked[..first];
      HydratedFromKnown(before.known, q.w.projection.onCall, q.w.table);
      ResolverRemembers(team, asked, first + 1, |asked|);
      AnswersLast(Resolved(team, asked, first), DutyIDs(q.w.projection.onCall),
                  ResolverAfter(team, asked[..first + 1]).known, ResolverAfter(team, asked).known);
    }
  }

  // The first question about a schedule; |asked| when there is none.
  function FirstAsked(asked: seq<Question>, fallback: string): nat {
    if asked == [] then 0 else if asked[0].fallback == fallback then 0 else 1 + FirstAsked(asked[1..], fallback)
  }

  lemma {:induction false} FirstAskedIsFirst(asked: seq<Question>, i: nat)
    requires i < |asked|
    ensures FirstAsked(asked, asked[i].fallback) <= i
    ensures asked[FirstAsked(asked, asked[i].fallback)].fallback == asked[i].fallback
    ensures forall k :: 0 <= k < FirstAsked(asked, asked[i].fallback) ==> asked[k].fallback != asked[i].fallback
  {
    if asked[0].fallback != asked[i].fallback { FirstAskedIsFirst(asked[1..], i - 1); }
  }

  // Whom the projection behind a schedule's answer named.
  function AskedOf(team: TeamOnCall, asked: seq<Question>, fallback: string): seq<string> {
    if team.TeamRead? && team.scheduleID != "" then DutyIDs(team.onCall)
    else if fallback == "" then []
    else
      var first := FirstAsked(asked, fallback);
      if first < |asked| && asked[first].w.projection.Projected? then DutyIDs(asked[first].w.projection.onCall) else []
  }

  lemma {:induction false} NotYetAsked(team: TeamOnCall, asked: seq<Question>, fallback: string, n: nat)
    requires n <= |asked| && forall k :: 0 <= k < n ==> asked[k].fallback != fallback
    ensures fallback !in ResolverAfter(team, asked[..n]).byID
  {
    if n > 0 {
      NotYetAsked(team, asked, fallback, n - 1);
      assert asked[..n][..n - 1] == asked[..n - 1];
    }
  }

  lemma OneMoreAsked(known: Known, ids: seq<string>, i: nat, ask: seq<string>)
    requires i < |ids|
    ensures ask + Missing(known, ids[i..]) ==
            (if ids[i] in known then ask else ask + [ids[i]]) + Missing(known, ids[i + 1..])
  {
    assert ids[i..][0] == ids[i] && ids[i..][1..] == ids[i + 1..];
  }

  lemma OneMoreCollected(known: Known, ids: seq<string>, i: nat, out: seq<User>)
    requires i < |ids|
    ensures out + Present(known, ids[i..]) ==
            (if ids[i] in known && known[ids[i]].Some? then out + [known[ids[i]].value] else out)
            + Present(known, ids[i + 1..])
  {
    assert ids[i..][0] == ids[i] && ids[i..][1..] == ids[i + 1..];
  }

  // ---- the two memo tables of the source --------------------------------------------

  class RosterTable {
    var known: map<string, Option<User>>

    constructor ()
      ensures known == map[]
    {
      known := map[];
    }

    // The loop that collects who was not asked about yet.
    method Unasked(ids: seq<string>) returns (ask: seq<string>)
      ensures ask == Missing(known, ids)
    {
      ask := [];
      for i := 0 to |ids|
        invariant Missing(known, ids) == ask + Missing(known, ids[i..])
      {
        OneMoreAsked(known, ids, i, ask);
        if ids[i] !in known {
          ask := ask + [ids[i]];
        }
      }
    }

    // The loop that reads the answer off the table.
    method Collected(ids: seq<string>) returns (out: seq<User>)
      ensures out == Present(known, ids)
    {
      out := [];
      for i := 0 to |ids|
        invariant Present(known, ids) == out + Present(known, ids[i..])
      {
        OneMoreCollected(known, ids, i, out);
        if ids[i] in known && known[ids[i]].Some? {
          out := out + [known[ids[i]].value];
        }
      }
    }

    // Everyone asked for is absent until a row says otherwise; rows come back in
    // any order.
    method Fetch(ask: seq<string>, rows: map<string, string>)
      modifies this
      ensures known == Learned(old(known), ask, rows)
    {
      ghost var before := known;
      for i := 0 to |ask|
        invariant Covers(known, before, ask[..i], {}, rows)
      {
        known := known[ask[i] := None];
        assert ask[..i + 1] == ask[..i] + [ask[i]];
      }
      assert ask[..|ask|] == ask;
      Fill(ask, rows, before);
    }

    method Fill(ask: seq<string>, rows: map<string, string>, ghost before: Known)
      requires Covers(known, before, ask, {}, rows)
      modifies this
      ensures known == Learned(before, ask, rows)
    {
      ghost var all := set id | id in ask && id in rows;
      var fetched := set id | id in ask && id in rows;
      while fetched != {}
        invariant fetched <= all && Covers(known, before, ask, all - fetched, rows)
        decreases |fetched|
      {
        var id :| id in fetched;
        CoversOneMore(known, before, ask, all - fetched, rows, id);
        known := known[id := Some(User(id, rows[id]))];
        assert all - (fetched - {id}) == (all - fetched) + {id};
        fetched := fetched - {id};
      }
      CoversAll(known, before, ask, all, rows);
    }

    // table is what the store would answer with, were it asked now.
    method PeopleOf(ids: seq<string>, table: Table) returns (ok: bool, out: seq<User>)
      modifies this
      ensures People(old(known), ids, table) == (known, if ok then Some(out) else None)
    {
      if |ids| == 0 {
        return true, [];
      }
      var ask := Unasked(ids);
      if |ask| > 0 {
        if table.None? {
          return false, [];
        }
        Fetch(ask, table.value);
      }
      ok := true;
      out := Collected(ids);
    }
  }

  // Half way through a fetch: those asked about are absent, those whose row was
  // already seen are present, the rest is as it was.
  ghost predicate Covers(known: Known, before: Known, ask: seq<string>, done: set<string>, rows: map<string, string>) {
    && (forall id :: id in known <==> id in before || id in ask)
    && (forall id :: id in known ==>
          known[id] == if id in done && id in rows then Some(User(id, rows[id]))
                       else if id in ask then None
                       else if id in before then before[id] else None)
  }

  lemma CoversOneMore(known: Known, before: Known, ask: seq<string>, done: set<string>, rows: map<string, string>,
                      id: string)
    requires Covers(known, before, ask, done, rows) && id in ask && id in rows
    ensures Covers(known[id := Some(User(id, rows[id]))], before, ask, done + {id}, rows)
  {
  }

  lemma CoversAll(known: Known, before: Known, ask: seq<string>, done: set<string>, rows: map<string, string>)
    requires Covers(known, before, ask, done, rows)
    requires done == set id | id in ask && id in rows
    ensures known == Learned(before, ask, rows)
  {
  }

  class ScheduleResolver {
    const people: RosterTable
    const team: TeamOnCall
    var teamUsers: Option<Resolution>
    var byID: map<string, Resolution>

    constructor (people: RosterTable, team: TeamOnCall)
      ensures this.people == people && this.team == team && teamUsers == None && byID == map[]
    {
      this.people, this.team := people, team;
      teamUsers, byID := None, map[];
    }

    function Memo(): Resolver
      reads this, people
    {
      Resolver(people.known, teamUsers, byID)
    }

    method Hydrate(onCall: OnCall, w: World) returns (answer: Resolution)
      modifies people
      ensures (people.known, answer) == Hydrated(old(people.known), onCall, w.table)
    {
      if onCall.l1.None? || |onCall.l1.value.ids| == 0 {
        return Users([]);
      }
      var ok, users := people.PeopleOf(onCall.l1.value.ids, w.table);
      return if ok then Users(users) else Fails;
    }

    method UsersFor(fallback: string, w: World) returns (answer: Resolution)
      modifies this, people
      ensures (Memo(), answer) == Ask(old(Memo()), team, fallback, w)
    {
      if team.Unreadable? {
        return Fails;
      }
      if team.scheduleID != "" {
        if teamUsers.None? {
          var users := Hydrate(team.onCall, w);
          teamUsers := Some(users);
        }
        return teamUsers.value;
      }
      if fallback == "" {
        return Users([]);
      }
      if fallback in byID {
        return byID[fallback];
      }
      match w.projection {
        case Unavailable => answer := Fails;
        case Damaged => answer := Users([]);
        case Projected(onCall) => answer := Hydrate(onCall, w);
      }
      byID := byID[fallback := answer];
    }
  }
}
