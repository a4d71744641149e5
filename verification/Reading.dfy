// Reading an incident's history (internal/store/store.go): the rows come back by
// their instant and then their id, and nothing keeps the order they were written in.

module Reading {
  import opened Order
  import opened Merge
  import opened Apply
  import opened History
  import opened Timeline

  // A stored line. Ids are random and never repeat.
  datatype Row = Row(id: string, event: Event)

  const BY_READING: (Row, Row) -> bool :=
    (a: Row, b: Row) => a.event.at < b.event.at || (a.event.at == b.event.at && StrLe(a.id, b.id))

  function Stored(ids: seq<string>, lines: seq<Event>): seq<Row>
    requires |ids| == |lines|
  {
    seq(|lines|, i requires 0 <= i < |lines| => Row(ids[i], lines[i]))
  }

  function LinesOf(rows: seq<Row>): seq<Event> {
    seq(|rows|, i requires 0 <= i < |rows| => rows[i].event)
  }

  // The history as a reader gets it.
  function ReadOut(rows: seq<Row>): seq<Event> {
    LinesOf(Sort(BY_READING, rows))
  }

  lemma ByReadingIsTotal()
    ensures TotalPreorder(BY_READING)
  {
    forall a: Row, b: Row ensures BY_READING(a, b) || BY_READING(b, a) { StrLeTotal(a.id, b.id); }
    forall a: Row, b: Row, c: Row | BY_READING(a, b) && BY_READING(b, c) ensures BY_READING(a, c) {
      if a.event.at == b.event.at == c.event.at { StrLeTransitive(a.id, b.id, c.id); }
    }
  }

  // ---- which line decides -------------------------------------------------------------

  // The line of f written last, and the one read last.
  ghost predicate WrittenLast(lines: seq<Event>, f: string, i: nat) {
    i < |lines| && lines[i].fingerprint == f && forall j :: i < j < |lines| ==> lines[j].fingerprint != f
  }

  ghost predicate ReadLast(rows: seq<Row>, f: string, i: nat) {
    && i < |rows| && rows[i].event.fingerprint == f
    && forall j :: 0 <= j < |rows| && rows[j].event.fingerprint == f ==> BY_READING(rows[j], rows[i])
  }

  ghost predicate Mentions(lines: seq<Event>, f: string) {
    exists i :: 0 <= i < |lines| && lines[i].fingerprint == f
  }

  // Replaying lines leaves f as the last of them that names it says.
  lemma {:induction false} LastLineDecides(lines: seq<Event>, f: string)
    ensures f in Replay(map[], lines) <==> Mentions(lines, f)
    ensures forall i: nat :: WrittenLast(lines, f, i) ==>
              f in Replay(map[], lines) && Replay(map[], lines)[f] == Says(lines[i].change)
  {
    RepliesToMentions(lines, f);
    forall i: nat | WrittenLast(lines, f, i)
      ensures f in Replay(map[], lines) && Replay(map[], lines)[f] == Says(lines[i].change)
    {
      LastLineSays(lines, f, i);
    }
  }

  lemma ReplayLast(lines: seq<Event>)
    requires lines != []
    ensures var e := lines[|lines| - 1];
            Replay(map[], lines) == Replay(map[], lines[..|lines| - 1])[e.fingerprint := Says(e.change)]
  {
  }

  lemma {:induction false} RepliesToMentions(lines: seq<Event>, f: string)
    ensures f in Replay(map[], lines) <==> Mentions(lines, f)
  {
    if lines != [] {
      RepliesToMentions(lines[..|lines| - 1], f);
      MentionsExtends(lines, f);
      ReplayLast(lines);
    }
  }

  lemma {:induction false} LastLineSays(lines: seq<Event>, f: string, i: nat)
    requires WrittenLast(lines, f, i)
    ensures f in Replay(map[], lines) && Replay(map[], lines)[f] == Says(lines[i].change)
  {
    ReplayLast(lines);
    if i < |lines| - 1 {
      WrittenLastShrinks(lines, f, i);
      LastLineSays(lines[..|lines| - 1], f, i);
    }
  }

  lemma MentionsExtends(lines: seq<Event>, f: string)
    requires lines != []
    ensures Mentions(lines, f) <==> Mentions(lines[..|lines| - 1], f) || lines[|lines| - 1].fingerprint == f
  {
    var front := lines[..|lines| - 1];
    if i :| 0 <= i < |front| && front[i].fingerprint == f { assert lines[i].fingerprint == f; }
    if i :| 0 <= i < |lines| && lines[i].fingerprint == f { assert i < |front| ==> front[i].fingerprint == f; }
  }

  lemma WrittenLastShrinks(lines: seq<Event>, f: string, i: nat)
    requires WrittenLast(lines, f, i) && i < |lines| - 1
    ensures WrittenLast(lines[..|lines| - 1], f, i)
  {
    var front := lines[..|lines| - 1];
    forall j | i < j < |front| ensures front[j].fingerprint != f { assert lines[j].fingerprint != f; }
  }

  lemma {:induction false} SomethingWrittenLast(lines: seq<Event>, f: string) returns (i: nat)
    requires Mentions(lines, f)
    ensures WrittenLast(lines, f, i)
  {
    var n := |lines| - 1;
    if lines[n].fingerprint == f {
      i := n;
    } else {
      var k :| 0 <= k < |lines| && lines[k].fingerprint == f;
      assert lines[..n][k].fingerprint == f;
      i := SomethingWrittenLast(lines[..n], f);
      forall j | i < j < |lines| ensures lines[j].fingerprint != f {
        if j < n { assert lines[..n][j].fingerprint != f; }
      }
    }
  }

  ghost predicate DistinctIds(rows: seq<Row>) {
    forall i, j :: 0 <= i < j < |rows| ==> rows[i].id != rows[j].id
  }

  lemma DistinctRows(rows: seq<Row>)
    requires DistinctIds(rows)
    ensures NoDup(rows)
  {
    forall i, j | 0 <= i < j < |rows| ensures rows[i] != rows[j] { assert rows[i].id != rows[j].id; }
  }

  // Sorting puts the line read last where a replay sees it last.
  lemma {:induction false} ReadLastIsLast(rows: seq<Row>, f: string, i: nat)
    requires DistinctIds(rows) && ReadLast(rows, f, i)
    ensures f in Replay(map[], ReadOut(rows)) && Replay(map[], ReadOut(rows))[f] == Says(rows[i].event.change)
  {
    var sorted := Sort(BY_READING, rows);
    ByReadingIsTotal();
    SortIsSortedPermutation(BY_READING, rows);
    DistinctRows(rows);
    PermutationNoDup(rows, sorted);
    assert rows[i] in sorted;
    var k :| 0 <= k < |sorted| && sorted[k] == rows[i];
    forall j | k < j < |sorted| ensures ReadOut(rows)[j].fingerprint != f { LaterIsAnother(rows, f, i, sorted, k, j); }
    assert WrittenLast(ReadOut(rows), f, k);
    LastLineDecides(ReadOut(rows), f);
  }

  lemma {:induction false} LaterIsAnother(rows: seq<Row>, f: string, i: nat, sorted: seq<Row>, k: nat, j: nat)
    requires DistinctIds(rows) && ReadLast(rows, f, i) && Sorted(BY_READING, sorted) && NoDup(sorted)
    requires (forall x :: x in sorted <==> x in rows) && k < j < |sorted| && sorted[k] == rows[i]
    ensures sorted[j].event.fingerprint != f
  {
    assert BY_READING(sorted[k], sorted[j]) && sorted[j] != sorted[k];
    assert sorted[j] in rows;
    var m :| 0 <= m < |rows| && rows[m] == sorted[j];
    assert rows[m].id != rows[i].id;
    if rows[m].event.fingerprint == f {
      StrLeAntisymmetricIds(rows[m], rows[i]);
    }
  }

  lemma StrLeAntisymmetricIds(a: Row, b: Row)
    requires BY_READING(a, b) && BY_READING(b, a)
    ensures a.id == b.id
  {
    StrLeAntisymmetric(a.id, b.id);
  }

  lemma {:induction false} ReadOutMentions(rows: seq<Row>, f: string)
    ensures Mentions(ReadOut(rows), f) <==> Mentions(LinesOf(rows), f)
  {
    var sorted := Sort(BY_READING, rows);
    ByReadingIsTotal();
    SortIsSortedPermutation(BY_READING, rows);
    forall x ensures x in sorted <==> x in rows { assert x in multiset(sorted) <==> x in multiset(rows); }
    if i :| 0 <= i < |rows| && LinesOf(rows)[i].fingerprint == f {
      assert rows[i] in sorted;
      var k :| 0 <= k < |sorted| && sorted[k] == rows[i];
      assert ReadOut(rows)[k].fingerprint == f;
    }
    if k :| 0 <= k < |sorted| && ReadOut(rows)[k].fingerprint == f {
      assert sorted[k] in rows;
      var i :| 0 <= i < |rows| && rows[i] == sorted[k];
      assert LinesOf(rows)[i].fingerprint == f;
    }
  }

  lemma {:induction false} SomethingReadLast(rows: seq<Row>, f: string) returns (i: nat)
    requires Mentions(LinesOf(rows), f)
    ensures ReadLast(rows, f, i)
  {
    ByReadingIsTotal();
    var n := |rows| - 1;
    var front := rows[..n];
    if !Mentions(LinesOf(front), f) {
      i := n;
      var k :| 0 <= k < |rows| && LinesOf(rows)[k].fingerprint == f;
      forall j | 0 <= j < n ensures rows[j].event.fingerprint != f { assert LinesOf(front)[j] == rows[j].event; }
    } else {
      i := SomethingReadLast(front, f);
      assert rows[i] == front[i];
      forall j | 0 <= j < n && rows[j].event.fingerprint == f
        ensures BY_READING(rows[j], rows[i])
      {
        assert front[j] == rows[j];
      }
      if rows[n].event.fingerprint == f && !BY_READING(rows[n], rows[i]) {
        i := n;
      }
    }
  }

  // ---- whole runs -------------------------------------------------------------------------

  // For every alert, the line read last says what the line written last says.
  ghost predicate ReadAsWritten(rows: seq<Row>) {
    forall f, i: nat, j: nat :: WrittenLast(LinesOf(rows), f, i) && ReadLast(rows, f, j) ==>
      rows[j].event.change == rows[i].event.change
  }

  // Over every run of an incident, whatever clocks its lines were stamped from:
  // reading its history gives the state of every alert exactly when, for each alert,
  // the line with the greatest stamp says what the line written last says.
  lemma {:induction false} TimelineTellsTheIncident(ds: seq<Delivery>, ids: seq<string>)
    requires ds != [] && AllPlain(ds) && |ids| == |Lines(ds)| && NoDup(ids)
    ensures Replay(map[], ReadOut(Stored(ids, Lines(ds)))) == Statuses(Held(Takings(ds))) <==>
              ReadAsWritten(Stored(ids, Lines(ds)))
  {
    var rows := Stored(ids, Lines(ds));
    assert LinesOf(rows) == Lines(ds);
    WrittenOrderTells(ds);
    forall i, j | 0 <= i < j < |rows| ensures rows[i].id != rows[j].id { assert ids[i] != ids[j]; }
    ReadingTells(rows);
  }

  lemma {:induction false} ReadingTells(rows: seq<Row>)
    requires DistinctIds(rows)
    ensures Replay(map[], ReadOut(rows)) == Replay(map[], LinesOf(rows)) <==> ReadAsWritten(rows)
  {
    var read, written := Replay(map[], ReadOut(rows)), Replay(map[], LinesOf(rows));
    forall f ensures f in read <==> f in written {
      ReadOutMentions(rows, f);
      LastLineDecides(ReadOut(rows), f);
      LastLineDecides(LinesOf(rows), f);
    }
    if ReadAsWritten(rows) {
      forall f | f in written ensures read[f] == written[f] { ReadingTellsOne(rows, f); }
    }
    if read == written {
      forall f, i: nat, j: nat | WrittenLast(LinesOf(rows), f, i) && ReadLast(rows, f, j)
        ensures rows[j].event.change == rows[i].event.change
      {
        LastLineDecides(LinesOf(rows), f);
        ReadLastIsLast(rows, f, j);
      }
    }
  }

  lemma {:induction false} ReadingTellsOne(rows: seq<Row>, f: string)
    requires DistinctIds(rows) && ReadAsWritten(rows) && f in Replay(map[], LinesOf(rows))
    ensures f in Replay(map[], ReadOut(rows)) && Replay(map[], ReadOut(rows))[f] == Replay(map[], LinesOf(rows))[f]
  {
    LastLineDecides(LinesOf(rows), f);
    var i := SomethingWrittenLast(LinesOf(rows), f);
    var j := SomethingReadLast(rows, f);
    ReadLastIsLast(rows, f, j);
  }

  // ---- when the clocks do it ------------------------------------------------------------------

  // Each payload's lines are stamped from an instant no earlier than the last stamp
  // already written.
  ghost predicate Spaced(ds: seq<Delivery>) {
    forall k, i :: 0 < k < |ds| && 0 <= i < |Lines(ds[..k])| ==> Lines(ds[..k])[i].at <= ds[k].base
  }

  lemma {:induction false} SpacedLinesAscend(ds: seq<Delivery>)
    requires ds != [] && Spaced(ds)
    ensures forall i, j :: 0 <= i < j < |Lines(ds)| ==> Lines(ds)[i].at < Lines(ds)[j].at
  {
    var k := |ds| - 1;
    if k > 0 {
      var front := ds[..k];
      forall m, i | 0 < m < |front| && 0 <= i < |Lines(front[..m])| ensures Lines(front[..m])[i].at <= front[m].base {
        assert front[..m] == ds[..m];
      }
      SpacedLinesAscend(front);
      var e := Effect(Held(Takings(front)), ds[k].taken.n, ds[k].taken.at);
      EventsAreNumbered(e.relevant, Statuses(Held(Takings(front))), ds[k].base);
    }
  }

  // Then reading is replaying, and the history tells the incident.
  lemma {:induction false} SpacedHistoryTells(ds: seq<Delivery>, ids: seq<string>)
    requires ds != [] && AllPlain(ds) && |ids| == |Lines(ds)| && NoDup(ids) && Spaced(ds)
    ensures Replay(map[], ReadOut(Stored(ids, Lines(ds)))) == Statuses(Held(Takings(ds)))
  {
    var rows := Stored(ids, Lines(ds));
    assert LinesOf(rows) == Lines(ds);
    SpacedLinesAscend(ds);
    forall f, i: nat, j: nat | WrittenLast(LinesOf(rows), f, i) && ReadLast(rows, f, j) ensures i == j {
      assert LinesOf(rows)[j].fingerprint == f;
      assert BY_READING(rows[i], rows[j]);
      assert Lines(ds)[i].at <= Lines(ds)[j].at;
    }
    TimelineTellsTheIncident(ds, ids);
  }

  // ---- when they do not -------------------------------------------------------------------------

  function Pair(f: string, x: Status, g: string): seq<Alert> {
    [Plain(f, x), Plain(g, Firing)]
  }

  function Sent(f: string, x: Status, g: string, at: Instant, base: Instant): Delivery {
    Delivery(Taken(Notification(Pair(f, x, g), true), at), base)
  }

  lemma PairStatuses(f: string, x: Status, g: string, existing: map<string, Status>)
    requires f != g && (x == Firing || f in existing)
    ensures Mergeable(Pair(f, x, g), existing) == Pair(f, x, g)
    ensures Statuses(Pair(f, x, g)) == map[f := x, g := Firing]
  {
    var p := Pair(f, x, g);
    assert p[..1] == [Plain(f, x)] && p[..1][..0] == [];
    assert Mergeable(p[..1], existing) == p[..1];
    assert Latest(p[..1]) == map[f := Plain(f, x)];
    assert Latest(p) == map[f := Plain(f, x), g := Plain(g, Firing)];
  }

  lemma {:induction false} StatusesTurn(held: seq<Alert>, f: string, x: Status, y: Status, g: string, at: Instant)
    requires f != g && Statuses(held) == map[f := x, g := Firing]
    ensures var e := Effect(held, Notification(Pair(f, y, g), true), at);
            Statuses(e.alerts) == map[f := y, g := Firing] && e.relevant == Pair(f, y, g)
  {
    var existing := Statuses(held);
    PairStatuses(f, y, g, existing);
    OneStep(held, Notification(Pair(f, y, g), true), at, existing, Pair(f, y, g));
    Overlay(f, x, y, g);
  }

  lemma {:induction false} OneStep(held: seq<Alert>, n: Notification, at: Instant, existing: map<string, Status>,
                                   relevant: seq<Alert>)
    requires existing == Statuses(held) && relevant == Mergeable(n.alerts, existing)
    ensures Effect(held, n, at).relevant == relevant
    ensures Statuses(Effect(held, n, at).alerts) == existing + Statuses(relevant)
  {
    StatusesAfter(held, n, at);
  }

  lemma Overlay(f: string, x: Status, y: Status, g: string)
    requires f != g
    ensures map[f := x, g := Firing] + map[f := y, g := Firing] == map[f := y, g := Firing]
  {
  }

  // f changes and g keeps firing: one line, one microsecond after its base.
  lemma {:induction false} OneChange(held: seq<Alert>, f: string, x: Status, y: Status, g: string, at: Instant,
                                     base: Instant)
    requires f != g && Statuses(held) == map[f := x, g := Firing] && x != y && Declared(x) && Declared(y)
    ensures NewLines(held, Sent(f, y, g, at, base)) ==
            [Event(if y == Firing then AlertAdded else AlertResolved, f, base + 1)]
    ensures Statuses(Effect(held, Sent(f, y, g, at, base).taken.n, at).alerts) == map[f := y, g := Firing]
  {
    StatusesTurn(held, f, x, y, g, at);
    OneLine(f, x, y, g, base);
    Differ(f, x, y, g);
  }

  lemma Differ(f: string, x: Status, y: Status, g: string)
    requires f != g && x != y
    ensures map[f := x, g := Firing] != map[f := y, g := Firing]
  {
    assert map[f := x, g := Firing][f] != map[f := y, g := Firing][f];
  }

  lemma OneLine(f: string, x: Status, y: Status, g: string, base: Instant)
    requires f != g && x != y && Declared(x) && Declared(y)
    ensures Events(Pair(f, y, g), map[f := x, g := Firing], base) ==
            [Event(if y == Firing then AlertAdded else AlertResolved, f, base + 1)]
  {
    var p, existing := Pair(f, y, g), map[f := x, g := Firing];
    assert p[..1] == [Plain(f, y)] && p[..1][..0] == [];
    assert Events(p[..1], existing, base) == [Event(if y == Firing then AlertAdded else AlertResolved, f, base + 1)];
  }

  lemma {:induction false} OpenedTwo(f: string, g: string, at: Instant, base: Instant)
    requires f != g
    ensures Lines([Sent(f, Firing, g, at, base)]) == [Event(AlertAdded, f, base + 1), Event(AlertAdded, g, base + 2)]
    ensures Statuses(Held(Takings([Sent(f, Firing, g, at, base)]))) == map[f := Firing, g := Firing]
  {
    PairStatuses(f, Firing, g, map[]);
    assert Takings([Sent(f, Firing, g, at, base)]) == [Sent(f, Firing, g, at, base).taken];
  }

  // What is read last contradicts what was written last.
  lemma {:induction false} Misleads(ds: seq<Delivery>, ids: seq<string>, lines: seq<Event>, f: string, i: nat, j: nat)
    requires ds != [] && AllPlain(ds) && lines == Lines(ds) && |ids| == |lines| && NoDup(ids)
    requires WrittenLast(lines, f, i) && ReadLast(Stored(ids, lines), f, j) && lines[i].change != lines[j].change
    ensures Replay(map[], ReadOut(Stored(ids, lines))) != Statuses(Held(Takings(ds)))
  {
    var rows := Stored(ids, lines);
    assert LinesOf(rows) == lines;
    assert rows[j].event.change != rows[i].event.change;
    TimelineTellsTheIncident(ds, ids);
  }

  // The lines of an incident opened with f and g, from which f then clears.
  function Cleared(f: string, g: string, base0: Instant, base1: Instant): seq<Event> {
    [Event(AlertAdded, f, base0 + 1), Event(AlertAdded, g, base0 + 2), Event(AlertResolved, f, base1 + 1)]
  }

  lemma {:induction false} ThenItClears(f: string, g: string, at0: Instant, base0: Instant, at1: Instant,
                                        base1: Instant)
    requires f != g
    ensures var ds := [Sent(f, Firing, g, at0, base0)] + [Sent(f, Resolved, g, at1, base1)];
            Lines(ds) == Cleared(f, g, base0, base1) && Statuses(Held(Takings(ds))) == map[f := Resolved, g := Firing]
  {
    OpenedTwo(f, g, at0, base0);
    OneMoreDelivery([Sent(f, Firing, g, at0, base0)], Sent(f, Resolved, g, at1, base1), f, Firing, Resolved, g, at1,
                    base1);
  }

  lemma {:induction false} OneMoreDelivery(ds: seq<Delivery>, d: Delivery, f: string, x: Status, y: Status, g: string,
                                           at: Instant, base: Instant)
    requires ds != [] && f != g && x != y && Declared(x) && Declared(y) && d == Sent(f, y, g, at, base)
    requires Statuses(Held(Takings(ds))) == map[f := x, g := Firing]
    ensures Lines(ds + [d]) == Lines(ds) + [Event(if y == Firing then AlertAdded else AlertResolved, f, base + 1)]
    ensures Statuses(Held(Takings(ds + [d]))) == map[f := y, g := Firing]
  {
    OneChange(Held(Takings(ds)), f, x, y, g, at, base);
    OneMoreLine(ds, d);
  }

  lemma OneMoreLine(ds: seq<Delivery>, d: Delivery)
    requires ds != []
    ensures Lines(ds + [d]) == Lines(ds) + NewLines(Held(Takings(ds)), d)
    ensures Held(Takings(ds + [d])) == Effect(Held(Takings(ds)), d.taken.n, d.taken.at).alerts
  {
    var more := ds + [d];
    assert more[..|ds|] == ds && more[..|more|] == more;
    HeldNext(more, |ds|);
  }

  lemma AllPlainPairs(ds: seq<Delivery>, f: string, g: string)
    requires f != g && forall i :: 0 <= i < |ds| ==> ds[i].taken.n.alerts in [Pair(f, Firing, g), Pair(f, Resolved, g)]
    ensures AllPlain(ds)
  {
  }

  // A process clock ahead of the database's: the incident was opened with f and g,
  // and f has cleared since. Its history says that f fires.
  function OpenedAhead(f: string, g: string): seq<Delivery> {
    [Sent(f, Firing, g, 5, 100)] + [Sent(f, Resolved, g, 12, 11)]
  }

  lemma {:induction false} AFastProcessClockMisleads(f: string, g: string, ids: seq<string>)
    requires f != g && NoDup(ids) && |ids| == 3
    ensures var ds := OpenedAhead(f, g);
            && AllPlain(ds) && |Lines(ds)| == |ids|
            && Statuses(Held(Takings(ds))) == map[f := Resolved, g := Firing]
            && Replay(map[], ReadOut(Stored(ids, Lines(ds)))) != Statuses(Held(Takings(ds)))
  {
    AllPlainPairs(OpenedAhead(f, g), f, g);
    ThenItClears(f, g, 5, 100, 12, 11);
    OpenedAheadReads(f, g, ids);
    Misleads(OpenedAhead(f, g), ids, Cleared(f, g, 100, 11), f, 2, 0);
  }

  lemma OpenedAheadReads(f: string, g: string, ids: seq<string>)
    requires f != g && |ids| == 3
    ensures WrittenLast(Cleared(f, g, 100, 11), f, 2) && ReadLast(Stored(ids, Cleared(f, g, 100, 11)), f, 0)
  {
    StrLeTotal(ids[0], ids[0]);
  }

  // Two payloads and one lock: the one that says f cleared began later and was taken
  // first, the one that says f fires began earlier and waited. The incident holds f
  // firing. Its history says that f cleared.
  function TakenOutOfTurn(f: string, g: string): seq<Delivery> {
    [Sent(f, Firing, g, 1, 0)] + [Sent(f, Resolved, g, 12, 11)] + [Sent(f, Firing, g, 13, 10)]
  }

  function OutOfTurnLines(f: string, g: string): seq<Event> {
    Cleared(f, g, 0, 11) + [Event(AlertAdded, f, 11)]
  }

  lemma {:induction false} AWaitingPayloadMisleads(f: string, g: string, ids: seq<string>)
    requires f != g && NoDup(ids) && |ids| == 4
    ensures var ds := TakenOutOfTurn(f, g);
            && AllPlain(ds) && |Lines(ds)| == |ids|
            && Statuses(Held(Takings(ds))) == map[f := Firing, g := Firing]
            && Replay(map[], ReadOut(Stored(ids, Lines(ds)))) != Statuses(Held(Takings(ds)))
  {
    OutOfTurnIs(f, g);
    TakenOutOfTurnReads(f, g, ids);
    Misleads(TakenOutOfTurn(f, g), ids, OutOfTurnLines(f, g), f, 3, 2);
  }

  lemma {:induction false} OutOfTurnIs(f: string, g: string)
    requires f != g
    ensures var ds := TakenOutOfTurn(f, g);
            AllPlain(ds) && Lines(ds) == OutOfTurnLines(f, g)
              && Statuses(Held(Takings(ds))) == map[f := Firing, g := Firing]
  {
    AllPlainPairs(TakenOutOfTurn(f, g), f, g);
    ThenItClears(f, g, 1, 0, 12, 11);
    OneMoreDelivery([Sent(f, Firing, g, 1, 0)] + [Sent(f, Resolved, g, 12, 11)], Sent(f, Firing, g, 13, 10),
                    f, Resolved, Firing, g, 13, 10);
  }

  lemma TakenOutOfTurnReads(f: string, g: string, ids: seq<string>)
    requires f != g && |ids| == 4
    ensures var lines := OutOfTurnLines(f, g);
            WrittenLast(lines, f, 3) && ReadLast(Stored(ids, lines), f, 2) && lines[2].change != lines[3].change
  {
    StrLeTotal(ids[2], ids[2]);
  }
}
