// Who is on duty, in the form the shift-change detector compares
// (internal/handoff/composition.go).

module Composition {
  import opened Order

  // One layer of a projected schedule.
  datatype Assignment = Assignment(
    source: string, groupID: string, users: seq<string>,
    scheduleRevision: string, overrideRevision: string,
    gridStart: int, start: int, end: int)

  datatype Projected = Projected(scheduleID: string, teamID: string, timezone: string, l1: Option<Assignment>)

  const OVERRIDE := "override"

  // users is sorted, so that one composition has one spelling.
  datatype Duty = Duty(source: string, groupID: string, users: seq<string>)

  const NOBODY: Duty := Duty("", "", [])

  datatype Observation = Observation(duty: Duty, gridStart: int, start: int, end: int, revision: string)

  datatype Kind = Handoff | AddedToActiveShift

  // ---- observing ------------------------------------------------------------------

  // What an observation says of a projection: the people of its first layer in
  // sorted order, whom they stand for, when, and the version of whatever put them
  // there - the override's when an override named them, the schedule's otherwise.
  // Nobody on the first layer is the empty duty, with nothing about it.
  ghost predicate Describes(o: Observation, p: Projected) {
    match p.l1
    case None => Empty(o.duty) && o.gridStart == o.start == o.end == 0 && o.revision == ""
    case Some(l1) =>
      && Sorted(BY_STRING, o.duty.users) && multiset(o.duty.users) == multiset(l1.users)
      && o.duty.source == l1.source && o.duty.groupID == l1.groupID
      && o.gridStart == l1.gridStart && o.start == l1.start && o.end == l1.end
      && (l1.source == OVERRIDE ==> o.revision == l1.overrideRevision)
      && (l1.source != OVERRIDE ==> o.revision == l1.scheduleRevision)
  }

  method Observe(p: Projected) returns (o: Observation)
    ensures Describes(o, p)
  {
    if p.l1.None? {
      return Observation(NOBODY, 0, 0, 0, "");
    }
    var l1 := p.l1.value;
    var users := Sort(BY_STRING, l1.users);
    ByStringIsTotal();
    SortIsSortedPermutation(BY_STRING, l1.users);
    var revision := l1.scheduleRevision;
    if l1.source == OVERRIDE {
      revision := l1.overrideRevision;
    }
    return Observation(Duty(l1.source, l1.groupID, users), l1.gridStart, l1.start, l1.end, revision);
  }

  function Observed(p: Projected): Observation {
    match p.l1
    case None => Observation(NOBODY, 0, 0, 0, "")
    case Some(l1) =>
      Observation(Duty(l1.source, l1.groupID, Sort(BY_STRING, l1.users)), l1.gridStart, l1.start, l1.end,
                  if l1.source == OVERRIDE then l1.overrideRevision else l1.scheduleRevision)
  }

  // There is one description of a projection.
  lemma {:induction false} OneDescription(o: Observation, p: Projected)
    ensures Describes(o, p) <==> o == Observed(p)
  {
    if p.l1.Some? {
      ByStringIsTotal();
      SortIsSortedPermutation(BY_STRING, p.l1.value.users);
      if multiset(o.duty.users) == multiset(p.l1.value.users) && Sorted(BY_STRING, o.duty.users) {
        SortedOnce(o.duty.users, Sort(BY_STRING, p.l1.value.users));
      }
    }
  }

  lemma SortedOnce(a: seq<string>, b: seq<string>)
    requires Sorted(BY_STRING, a) && Sorted(BY_STRING, b) && multiset(a) == multiset(b)
    ensures a == b
  {
    ByStringIsTotal();
    forall x: string, y: string | BY_STRING(x, y) && BY_STRING(y, x) ensures x == y { StrLeAntisymmetric(x, y); }
    SortedUnique(BY_STRING, a, b);
  }

  // The order a projection lists its people in is nowhere in what is compared, nor
  // is anything about the boundaries of the assignment.
  lemma {:induction false} OrderIsNotSeen(p: Projected, q: Projected)
    requires p.l1.Some? && q.l1.Some?
    ensures Observed(p).duty == Observed(q).duty <==>
              && p.l1.value.source == q.l1.value.source && p.l1.value.groupID == q.l1.value.groupID
              && multiset(p.l1.value.users) == multiset(q.l1.value.users)
  {
    var a, b := p.l1.value.users, q.l1.value.users;
    ByStringIsTotal();
    SortIsSortedPermutation(BY_STRING, a);
    SortIsSortedPermutation(BY_STRING, b);
    if multiset(a) == multiset(b) {
      SortedOnce(Sort(BY_STRING, a), Sort(BY_STRING, b));
    }
  }

  predicate Empty(d: Duty) { d.source == "" && d.groupID == "" && |d.users| == 0 }

  method Equal(a: Duty, b: Duty) returns (same: bool)
    ensures same <==> a == b
  {
    if a.source != b.source || a.groupID != b.groupID || |a.users| != |b.users| {
      return false;
    }
    for i := 0 to |a.users|
      invariant a.users[..i] == b.users[..i]
    {
      if a.users[i] != b.users[i] {
        return false;
      }
    }
    assert a.users == a.users[..|a.users|] && b.users == b.users[..|a.users|];
    return true;
  }

  // ---- classifying -----------------------------------------------------------------

  // next minus prev, in next's order.
  function Added(prev: seq<string>, next: seq<string>): seq<string> {
    if next == [] then []
    else Added(prev, next[..|next| - 1]) + if next[|next| - 1] in prev then [] else [next[|next| - 1]]
  }

  method AddedUsers(prev: seq<string>, next: seq<string>) returns (out: seq<string>)
    ensures out == Added(prev, next)
  {
    var was: set<string> := {};
    for i := 0 to |prev|
      invariant was == set id | id in prev[..i]
    {
      assert prev[..i + 1] == prev[..i] + [prev[i]];
      was := was + {prev[i]};
    }
    assert prev[..|prev|] == prev;
    out := [];
    for i := 0 to |next|
      invariant out == Added(prev, next[..i])
    {
      assert next[..i + 1][..i] == next[..i];
      if next[i] !in was {
        out := out + [next[i]];
      }
    }
    assert next[..|next|] == next;
  }

  lemma {:induction false} AddedAre(prev: seq<string>, next: seq<string>, id: string)
    ensures id in Added(prev, next) <==> id in next && id !in prev
  {
    if next != [] { AddedAre(prev, next[..|next| - 1], id); }
  }

  lemma {:induction false} AddedInOrder(prev: seq<string>, next: seq<string>, more: seq<string>)
    ensures Added(prev, next + more) == Added(prev, next) + Added(prev, more)
  {
    if more == [] {
      assert next + more == next;
    } else {
      assert (next + more)[..|next + more| - 1] == next + more[..|more| - 1];
      AddedInOrder(prev, next, more[..|more| - 1]);
    }
  }

  // None is no transition. prev is None for a schedule never observed here.
  function Classified(prev: Option<Duty>, next: Duty): Option<(Kind, seq<string>)> {
    if Empty(next) || prev.None? || prev.value == next then None
    else
      var added := Added(prev.value.users, next.users);
      if prev.value.source != next.source || prev.value.groupID != next.groupID then Some((Handoff, added))
      else if added == [] then None
      else Some((AddedToActiveShift, added))
  }

  method Classify(prev: Option<Duty>, next: Duty) returns (kind: Option<(Kind, seq<string>)>)
    ensures kind == Classified(prev, next)
  {
    if Empty(next) {
      return None;
    }
    if prev.None? {
      return None;
    }
    var same := Equal(prev.value, next);
    if same {
      return None;
    }
    var added := AddedUsers(prev.value.users, next.users);
    if prev.value.source != next.source || prev.value.groupID != next.groupID {
      return Some((Handoff, added));
    }
    if |added| == 0 {
      return None;
    }
    return Some((AddedToActiveShift, added));
  }

  // From one duty to the next there is a transition exactly when somebody is on duty
  // and another source or group put them there, or somebody is new. It is a handoff in
  // the first case, and an addition to the shift under way in the second.
  lemma {:induction false} WhichTransition(prev: Duty, next: Duty)
    ensures var change := Classified(Some(prev), next);
            var (moved, joined) := (prev.source != next.source || prev.groupID != next.groupID,
                                    exists u :: u in next.users && u !in prev.users);
            var someone := next.source != "" || next.groupID != "" || next.users != [];
            && (change.Some? <==> someone && (moved || joined))
            && (change.Some? ==>
                 (change.value.0 == Handoff <==> moved) && (change.value.0 == AddedToActiveShift <==> !moved))
    ensures Classified(None, next).None?
  {
    var added := Added(prev.users, next.users);
    forall u ensures u in added <==> u in next.users && u !in prev.users { AddedAre(prev.users, next.users, u); }
    if added != [] { assert added[0] in added; }
  }

  // Someone is to be told exactly when somebody is on duty who was not, on a
  // schedule that has been observed; and it is exactly those people.
  lemma {:induction false} ToldAreTheNewcomers(prev: Option<Duty>, next: Duty, id: string)
    ensures (Classified(prev, next).Some? && id in Classified(prev, next).value.1) <==>
              prev.Some? && id in next.users && id !in prev.value.users
  {
    if prev.Some? {
      AddedAre(prev.value.users, next.users, id);
      assert prev.value == next || Empty(next) ==> !(id in next.users && id !in prev.value.users);
    }
  }

  lemma {:induction false} AddedTimes(prev: seq<string>, next: seq<string>, id: string)
    ensures multiset(Added(prev, next))[id] == if id in prev then 0 else multiset(next)[id]
  {
    if next != [] {
      AddedTimes(prev, next[..|next| - 1], id);
      assert next == next[..|next| - 1] + [next[|next| - 1]];
    }
  }

  // Each newcomer is to be told as often as the projection lists them. No transition
  // means no newcomer.
  lemma {:induction false} NewcomersTimes(prev: Duty, p: Projected, id: string)
    requires p.l1.Some?
    ensures match Classified(Some(prev), Observed(p).duty)
            case None => id in p.l1.value.users ==> id in prev.users
            case Some((_, told)) =>
              multiset(told)[id] == if id in prev.users then 0 else multiset(p.l1.value.users)[id]
  {
    SortedHolds(p.l1.value.users, id);
    NewcomersAmong(prev, Observed(p).duty, id);
  }

  lemma {:induction false} NewcomersAmong(prev: Duty, next: Duty, id: string)
    ensures match Classified(Some(prev), next)
            case None => id in next.users ==> id in prev.users
            case Some((_, told)) => multiset(told)[id] == if id in prev.users then 0 else multiset(next.users)[id]
  {
    AddedTimes(prev.users, next.users, id);
    AddedAre(prev.users, next.users, id);
  }

  lemma {:induction false} SortedHolds(users: seq<string>, id: string)
    ensures multiset(Sort(BY_STRING, users))[id] == multiset(users)[id]
    ensures id in Sort(BY_STRING, users) <==> id in users
  {
    ByStringIsTotal();
    SortIsSortedPermutation(BY_STRING, users);
    assert id in Sort(BY_STRING, users) <==> id in multiset(users);
  }
}
