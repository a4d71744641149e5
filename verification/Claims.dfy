// Many instances of the detector over one store: the claim an announcement is
// admitted by (internal/store/outbound_store.go, submitHandoff), and what every
// interleaving of their checks keeps.

module Claims {
  import opened Order
  import opened Composition
  import opened Announcing
  import opened Detector

  // The announcement that holds each occurrence.
  type Held = map<Occurrence, Announcement>

  // What a stored announcement and an offered one are compared by.
  type Fingerprint = Announcement -> string

  // ReplyLost: the transaction committed and the caller never heard.
  datatype Weather = Fine | CallFails | ReplyLost

  predicate Deliverable(a: Announcement) {
    forall r :: r in a.recipients ==> r.provider in {"slack", "telegram", "phone"}
  }

  predicate NamesErased(a: Announcement, erased: set<string>) {
    exists r :: r in a.recipients && r.user in erased
  }

  // The claim is looked at first, then the people, then what can be delivered.
  function Decided(held: Held, digest: Fingerprint, a: Announcement, erased: set<string>): (Held, Answer) {
    if a.occurrence in held then
      (held, if digest(held[a.occurrence]) == digest(a) then Existing else Conflict)
    else if NamesErased(a, erased) then (held, RecipientErased)
    else if !Deliverable(a) then (held, NoAnswer)
    else (held[a.occurrence := a], Created)
  }

  function Submitted(held: Held, digest: Fingerprint, a: Announcement, erased: set<string>,
                     weather: Weather): (Held, Answer) {
    match weather
    case CallFails => (held, NoAnswer)
    case Fine => Decided(held, digest, a, erased)
    case ReplyLost => (Decided(held, digest, a, erased).0, NoAnswer)
  }

  // ---- the instances -----------------------------------------------------------------

  // What a check would offer; None when it would not get as far as offering.
  function Proposal(m: Memory, catalog: Catalog, p: Projected, teams: TeamNames, book: Option<Book>,
                    validZone: bool): Option<Announcement> {
    var change := Classified(Cached(m, p.scheduleID), Observed(p).duty);
    if !m.warmedUp || change.None? || change.value.1 == [] then None
    else
      match BuiltOf(catalog, change.value.0, p, change.value.1, Observed(p), TeamName(teams, p.teamID), book, validZone)
      case NotBuilt => None
      case Built(a, _) => Some(a)
  }

  datatype Move =
    // One instance checks one schedule it projected, under its own configuration.
    | Check(instance: nat, catalog: Catalog, p: Projected, teams: TeamNames, book: Option<Book>, validZone: bool,
            erased: set<string>, weather: Weather)
    // One instance completes a tick.
    | Observe(instance: nat)
    // One instance starts again with nothing cached.
    | Restart(instance: nat)

  datatype Entry = Entry(instance: nat, offer: Offer)

  datatype System = System(memories: map<nat, Memory>, held: Held, log: seq<Entry>)

  function MemoryOf(s: System, i: nat): Memory {
    if i in s.memories then s.memories[i] else COLD
  }

  function Do(s: System, digest: Fingerprint, move: Move): System {
    match move
    case Observe(i) => s.(memories := s.memories[i := MemoryOf(s, i).(warmedUp := true)])
    case Restart(i) => s.(memories := s.memories[i := COLD])
    case Check(i, catalog, p, teams, book, validZone, erased, weather) =>
      var m := MemoryOf(s, i);
      var a := Proposal(m, catalog, p, teams, book, validZone);
      var (held, answer) := if a.Some? then Submitted(s.held, digest, a.value, erased, weather) else (s.held, NoAnswer);
      var (after, offer) := Checked(m, catalog, p, teams, Outside(book, validZone, answer));
      System(s.memories[i := after], held, if offer.Some? then s.log + [Entry(i, offer.value)] else s.log)
  }

  function After(digest: Fingerprint, moves: seq<Move>): System {
    if moves == [] then System(map[], map[], [])
    else Do(After(digest, moves[..|moves| - 1]), digest, moves[|moves| - 1])
  }

  // ---- what every interleaving keeps ---------------------------------------------------

  // How many times an occurrence was answered Created, over all instances.
  function Creations(log: seq<Entry>, occ: Occurrence): nat {
    if log == [] then 0
    else
      var last := log[|log| - 1].offer;
      Creations(log[..|log| - 1], occ) + if last.answer.Created? && last.announcement.occurrence == occ then 1 else 0
  }

  // What the skip counters of all instances together hold about an occurrence.
  function Counted(log: seq<Entry>, occ: Occurrence): seq<Skipped> {
    if log == [] then []
    else
      var last := log[|log| - 1].offer;
      Counted(log[..|log| - 1], occ) + if last.announcement.occurrence == occ then MissedBy(Some(last)) else []
  }

  // The people an occurrence's counter may show: those its one creator left out.
  ghost predicate CountedOnce(log: seq<Entry>, occ: Occurrence) {
    if Creations(log, occ) == 0 then Counted(log, occ) == []
    else exists k :: 0 <= k < |log| && log[k].offer.answer.Created? && log[k].offer.announcement.occurrence == occ
              && Counted(log, occ) == log[k].offer.left
  }

  // Each occurrence is created once at most, and counted by whoever created it.
  ghost predicate CreatedOnce(held: Held, log: seq<Entry>) {
    forall occ :: Creations(log, occ) <= (if occ in held then 1 else 0) && CountedOnce(log, occ)
  }

  // A settled announcement is held, a created one as it was offered.
  predicate EntryHolds(held: Held, offer: Offer) {
    && (Settles(offer.answer) ==> offer.announcement.occurrence in held)
    && (offer.answer.Created? ==> held[offer.announcement.occurrence] == offer.announcement)
  }

  ghost predicate Inv(s: System) {
    && CreatedOnce(s.held, s.log)
    && forall k :: 0 <= k < |s.log| ==> EntryHolds(s.held, s.log[k].offer)
  }

  lemma {:induction false} OfferIsTheProposal(m: Memory, catalog: Catalog, p: Projected, teams: TeamNames, o: Outside)
    ensures var offer := Checked(m, catalog, p, teams, o).1;
            offer.Some? ==>
              && Proposal(m, catalog, p, teams, o.book, o.validZone) == Some(offer.value.announcement)
              && offer.value.answer == o.answer && !o.answer.NoAnswer?
  {
  }

  // A held occurrence stays held, by the announcement that took it.
  lemma SubmittedKeeps(held: Held, digest: Fingerprint, a: Announcement, erased: set<string>, weather: Weather)
    ensures var (after, answer) := Submitted(held, digest, a, erased, weather);
            && Keeps(held, after)
            && (answer.Created? ==> a.occurrence !in held && a.occurrence in after && after[a.occurrence] == a)
            && (Settles(answer) ==> a.occurrence in after)
  {
  }

  lemma {:induction false} LogGrows(log: seq<Entry>, e: Entry, occ: Occurrence)
    requires CountedOnce(log, occ)
    requires e.offer.answer.Created? && e.offer.announcement.occurrence == occ ==> Creations(log, occ) == 0
    ensures Creations(log + [e], occ) ==
            Creations(log, occ) + if e.offer.answer.Created? && e.offer.announcement.occurrence == occ then 1 else 0
    ensures CountedOnce(log + [e], occ)
  {
    var more := log + [e];
    assert more[..|log|] == log && more[|log|] == e;
    if Creations(log, occ) > 0 {
      var k :| 0 <= k < |log| && log[k].offer.answer.Created? && log[k].offer.announcement.occurrence == occ
               && Counted(log, occ) == log[k].offer.left;
      assert more[k] == log[k];
      assert Counted(more, occ) == more[k].offer.left;
    }
  }

  lemma {:induction false} DoKeepsInv(s: System, digest: Fingerprint, move: Move)
    requires Inv(s)
    ensures Inv(Do(s, digest, move))
    ensures Keeps(s.held, Do(s, digest, move).held)
  {
    if move.Check? {
      var m := MemoryOf(s, move.instance);
      var a := Proposal(m, move.catalog, move.p, move.teams, move.book, move.validZone);
      if a.Some? {
        var (held, answer) := Submitted(s.held, digest, a.value, move.erased, move.weather);
        SubmittedKeeps(s.held, digest, a.value, move.erased, move.weather);
        OfferIsTheProposal(m, move.catalog, move.p, move.teams, Outside(move.book, move.validZone, answer));
        var offer := Checked(m, move.catalog, move.p, move.teams, Outside(move.book, move.validZone, answer)).1;
        if offer.Some? {
          ExtendKeepsInv(s, held, Entry(move.instance, offer.value), Do(s, digest, move).memories);
        } else {
          HoldKeepsInv(s, held, Do(s, digest, move).memories);
        }
      } else {
        OfferIsTheProposal(m, move.catalog, move.p, move.teams, Outside(move.book, move.validZone, NoAnswer));
      }
    }
  }

  predicate Keeps(before: Held, after: Held) {
    forall occ :: occ in before ==> occ in after && after[occ] == before[occ]
  }

  lemma {:induction false} HoldKeepsInv(s: System, held: Held, memories: map<nat, Memory>)
    requires Inv(s) && Keeps(s.held, held)
    ensures Inv(System(memories, held, s.log))
  {
    forall k | 0 <= k < |s.log| ensures EntryHolds(held, s.log[k].offer) {
      assert EntryHolds(s.held, s.log[k].offer);
    }
    forall occ ensures Creations(s.log, occ) <= (if occ in held then 1 else 0) && CountedOnce(s.log, occ) {
      assert Creations(s.log, occ) <= (if occ in s.held then 1 else 0) && CountedOnce(s.log, occ);
    }
  }

  lemma {:induction false} ExtendKeepsInv(s: System, held: Held, e: Entry, memories: map<nat, Memory>)
    requires Inv(s) && Keeps(s.held, held) && EntryHolds(held, e.offer)
    requires e.offer.answer.Created? ==> e.offer.announcement.occurrence !in s.held
    ensures Inv(System(memories, held, s.log + [e]))
  {
    var log := s.log + [e];
    forall k | 0 <= k < |log| ensures EntryHolds(held, log[k].offer) {
      assert k < |s.log| ==> log[k] == s.log[k] && EntryHolds(s.held, s.log[k].offer);
    }
    ExtendKeepsCreated(s.held, held, s.log, e);
  }

  lemma {:induction false} ExtendKeepsCreated(before: Held, held: Held, log: seq<Entry>, e: Entry)
    requires CreatedOnce(before, log) && Keeps(before, held) && EntryHolds(held, e.offer)
    requires e.offer.answer.Created? ==> e.offer.announcement.occurrence !in before
    ensures CreatedOnce(held, log + [e])
  {
    forall occ ensures Creations(log + [e], occ) <= (if occ in held then 1 else 0) && CountedOnce(log + [e], occ) {
      assert Creations(log, occ) <= (if occ in before then 1 else 0) && CountedOnce(log, occ);
      LogGrows(log, e, occ);
    }
  }

  lemma {:induction false} EveryRunKeepsInv(digest: Fingerprint, moves: seq<Move>)
    ensures Inv(After(digest, moves))
  {
    if moves == [] {
      forall occ: Occurrence ensures Creations([], occ) == 0 && CountedOnce([], occ) {}
    } else {
      EveryRunKeepsInv(digest, moves[..|moves| - 1]);
      DoKeepsInv(After(digest, moves[..|moves| - 1]), digest, moves[|moves| - 1]);
    }
  }

  // Over any number of instances, restarts and lost replies: one shift change is
  // created at most once, and the people it leaves out are counted at most once, by
  // whoever created it.
  lemma {:induction false} OneAnnouncementPerShiftChange(digest: Fingerprint, moves: seq<Move>, occ: Occurrence)
    ensures Creations(After(digest, moves).log, occ) <= 1
    ensures CountedOnce(After(digest, moves).log, occ)
  {
    EveryRunKeepsInv(digest, moves);
    assert CountedOnce(After(digest, moves).log, occ);
  }

  // A lost reply is the one way nobody counts them: the announcement is held, and
  // every later answer about it is Existing or Conflict.
  lemma {:induction false} HeldForGood(digest: Fingerprint, moves: seq<Move>, n: nat, occ: Occurrence)
    requires n <= |moves| && occ in After(digest, moves[..n]).held
    ensures occ in After(digest, moves).held && After(digest, moves).held[occ] == After(digest, moves[..n]).held[occ]
    decreases |moves| - n
  {
    if n < |moves| {
      assert moves[..n + 1][..n] == moves[..n];
      EveryRunKeepsInv(digest, moves[..n]);
      DoKeepsInv(After(digest, moves[..n]), digest, moves[n]);
      HeldForGood(digest, moves, n + 1, occ);
    } else {
      assert moves[..n] == moves;
    }
  }

  // Once an occurrence is held, every answer any instance hears about it, at whatever
  // later move, says whether it is the same announcement: it is never created again
  // and never refused.
  lemma {:induction false} AHeldOccurrenceSettles(digest: Fingerprint, moves: seq<Move>, n: nat, occ: Occurrence,
                                                  k: nat)
    requires n < |moves| && occ in After(digest, moves[..n]).held
    requires |After(digest, moves[..n]).log| <= k < |After(digest, moves).log|
    requires After(digest, moves).log[k].offer.announcement.occurrence == occ
    ensures AnsweredAsHeld(digest, After(digest, moves[..n]).held[occ], After(digest, moves).log[k].offer)
  {
    var m := |moves| - 1;
    var (first, s) := (After(digest, moves[..n]), After(digest, moves[..m]));
    assert moves[..m][..n] == moves[..n];
    LogOnlyGrows(s, digest, moves[m]);
    if n < m && k < |s.log| {
      AHeldOccurrenceSettles(digest, moves[..m], n, occ, k);
    } else {
      assert n == m ==> first == s;
      HeldForGood(digest, moves[..m], n, occ);
      NewEntry(s, digest, moves[m], occ);
    }
  }

  predicate AnsweredAsHeld(digest: Fingerprint, held: Announcement, offer: Offer) {
    offer.answer == if digest(held) == digest(offer.announcement) then Existing else Conflict
  }

  lemma {:induction false} LogOnlyGrows(s: System, digest: Fingerprint, move: Move)
    ensures |s.log| <= |Do(s, digest, move).log| <= |s.log| + 1
    ensures forall k :: 0 <= k < |s.log| ==> Do(s, digest, move).log[k] == s.log[k]
  {
  }

  // What a move writes in the log, if anything, is the answer of the store as it stood.
  lemma {:induction false} NewEntry(s: System, digest: Fingerprint, move: Move, occ: Occurrence)
    requires |Do(s, digest, move).log| == |s.log| + 1 && occ in s.held
    requires Do(s, digest, move).log[|s.log|].offer.announcement.occurrence == occ
    ensures AnsweredAsHeld(digest, s.held[occ], Do(s, digest, move).log[|s.log|].offer)
  {
    var m := MemoryOf(s, move.instance);
    var a := Proposal(m, move.catalog, move.p, move.teams, move.book, move.validZone);
    var answer := if a.Some? then Submitted(s.held, digest, a.value, move.erased, move.weather).1 else NoAnswer;
    OfferIsTheProposal(m, move.catalog, move.p, move.teams, Outside(move.book, move.validZone, answer));
  }

  // An instance checks a schedule once in the tick that warms it up.
  predicate AsTicksGo(s: System, move: Move) {
    move.Check? && !MemoryOf(s, move.instance).warmedUp ==> move.p.scheduleID !in MemoryOf(s, move.instance).cache
  }

  // No instance takes up a shift change that brings somebody on duty before the store
  // holds the announcement of it, by whichever instance.
  lemma {:induction false} NobodyMovesOnUnannounced(digest: Fingerprint, moves: seq<Move>, move: Move, i: nat,
                                                    id: string, u: string)
    requires AsTicksGo(After(digest, moves), move)
    requires Enters(MemoryOf(After(digest, moves), i), MemoryOf(Do(After(digest, moves), digest, move), i), id, u)
    ensures move.Check? && move.instance == i && move.p.scheduleID == id
    ensures var change := Classified(Cached(MemoryOf(After(digest, moves), i), id), Observed(move.p).duty);
            && change.Some? && u in change.value.1
            && OccurrenceOf(change.value.0, move.p, Observed(move.p)) in Do(After(digest, moves), digest, move).held
  {
    var s := After(digest, moves);
    if move.Check? && move.instance == i {
      EntersByItsAnnouncement(s, digest, move, id, u);
    }
  }

  lemma {:induction false} EntersByItsAnnouncement(s: System, digest: Fingerprint, move: Move, id: string, u: string)
    requires move.Check? && AsTicksGo(s, move)
    requires Enters(MemoryOf(s, move.instance), MemoryOf(Do(s, digest, move), move.instance), id, u)
    ensures move.p.scheduleID == id
    ensures var change := Classified(Cached(MemoryOf(s, move.instance), id), Observed(move.p).duty);
            && change.Some? && u in change.value.1
            && OccurrenceOf(change.value.0, move.p, Observed(move.p)) in Do(s, digest, move).held
  {
    var m := MemoryOf(s, move.instance);
    var a := Proposal(m, move.catalog, move.p, move.teams, move.book, move.validZone);
    var answer := if a.Some? then Submitted(s.held, digest, a.value, move.erased, move.weather).1 else NoAnswer;
    var o := Outside(move.book, move.validZone, answer);
    if id != move.p.scheduleID {
      ChecksOnlyItsOwn(m, move.catalog, move.p, move.teams, o, id);
    }
    assert m.warmedUp;
    NamedIffEntered(m, move.catalog, move.p, move.teams, o, id, u);
    OfferIsTheProposal(m, move.catalog, move.p, move.teams, o);
    SubmittedKeeps(s.held, digest, a.value, move.erased, move.weather);
  }

  // What the store says to an announcement. Held already, it is answered by what holds
  // it. Otherwise an erased recipient refuses it, a provider nothing delivers through
  // leaves it unanswered, and else it is created and held. A reply that is lost changes
  // nothing about what is held, and a call that failed holds nothing.
  lemma {:induction false} WhatTheStoreSays(held: Held, digest: Fingerprint, a: Announcement, erased: set<string>,
                                            weather: Weather)
    ensures var (after, answer) := Submitted(held, digest, a, erased, weather);
            var refused := exists r :: r in a.recipients && r.user in erased;
            var carried := forall r :: r in a.recipients ==>
                                         r.provider == "slack" || r.provider == "telegram" || r.provider == "phone";
            && after == (if a.occurrence !in held && !refused && carried && !weather.CallFails?
                         then held[a.occurrence := a] else held)
            && (answer == Existing <==>
                 weather.Fine? && a.occurrence in held && digest(held[a.occurrence]) == digest(a))
            && (answer == Conflict <==>
                 weather.Fine? && a.occurrence in held && digest(held[a.occurrence]) != digest(a))
            && (answer == RecipientErased <==> weather.Fine? && a.occurrence !in held && refused)
            && (answer == Created <==> weather.Fine? && a.occurrence !in held && !refused && carried)
  {
  }

  // A shift change that one instance sees somebody enter, and can build the announcement
  // of, is offered to the store; and the instance takes the change up when it heard that
  // it is held, and only then.
  lemma {:induction false} AShiftChangeIsAnnounced(s: System, digest: Fingerprint, move: Move, a: Announcement)
    requires move.Check? && MemoryOf(s, move.instance).warmedUp && SomebodyIsNew(MemoryOf(s, move.instance), move.p)
    requires Proposal(MemoryOf(s, move.instance), move.catalog, move.p, move.teams, move.book, move.validZone) ==
            Some(a)
    ensures var (t, m) := (Do(s, digest, move), MemoryOf(s, move.instance));
            var (held, answer) := Submitted(s.held, digest, a, move.erased, move.weather);
            && t.held == held
            && MemoryOf(t, move.instance) ==
               (if answer in {Created, Existing, Conflict}
                then Memory(m.cache[move.p.scheduleID := Observed(move.p).duty], true) else m)
            && (if answer.NoAnswer? then t.log == s.log else Heard(s.log, t.log, move.instance, a, answer))
  {
    var m := MemoryOf(s, move.instance);
    SomebodyIsToBeTold(m, move.p);
    var (_, answer) := Submitted(s.held, digest, a, move.erased, move.weather);
    WhatACheckDoes(m, move.catalog, move.p, move.teams, Outside(move.book, move.validZone, answer));
  }

  // One more answer was heard, by that instance and to that announcement.
  predicate Heard(before: seq<Entry>, after: seq<Entry>, instance: nat, a: Announcement, answer: Answer) {
    && |after| == |before| + 1 && before <= after
    && after[|before|].instance == instance
    && after[|before|].offer.announcement == a && after[|before|].offer.answer == answer
  }

  // The announcement an instance offers is that of the transition it saw.
  lemma {:induction false} ProposedIsBuilt(m: Memory, catalog: Catalog, p: Projected, teams: TeamNames,
                                           book: Option<Book>, validZone: bool)
    requires m.warmedUp && SomebodyIsNew(m, p)
    ensures var change := Classified(Some(m.cache[p.scheduleID]), Observed(p).duty);
            && change.Some?
            && match BuiltOf(catalog, change.value.0, p, change.value.1, Observed(p), TeamName(teams, p.teamID),
                             book, validZone)
               case NotBuilt => Proposal(m, catalog, p, teams, book, validZone) == None
               case Built(a, _) => Proposal(m, catalog, p, teams, book, validZone) == Some(a)
  {
    SomebodyIsToBeTold(m, p);
  }
}
