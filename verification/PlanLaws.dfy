// What every plan keeps, whatever the policy, the schedules and the world said.

module PlanLaws {
  import opened Order
  import opened Roster
  import opened Plan

  // ---- a plan is a list of cards, each followed by its satellites ---------------------

  ghost function Joined(cards: seq<Planned>): seq<Planned> {
    if cards == [] then [] else Joined(cards[..|cards| - 1]) + Whole(cards[|cards| - 1])
  }

  // The cards of a policy: one for each message wanted for the first time.
  ghost function FirstCards(items: seq<Item>): seq<Planned> {
    if items == [] then []
    else
      var n := |items| - 1;
      FirstCards(items[..n]) + if First(items, n) then [CardOf(items[n].aim)] else []
  }

  ghost function AllCards(channel: string, items: seq<Item>): seq<Planned> {
    (if channel == "" then [] else [FirehoseCard(channel)]) + FirstCards(items)
  }

  ghost function Promised(channel: string, items: seq<Item>): seq<Planned> {
    FirehosePart(channel) + Cards(items)
  }

  lemma {:induction false} PlanIsItsCards(channel: string, items: seq<Item>)
    ensures Promised(channel, items) == Joined(AllCards(channel, items))
  {
    var cards := AllCards(channel, items);
    if items == [] {
      if channel != "" { assert cards[..0] == [] && Joined(cards) == Joined(cards[..0]) + Whole(cards[0]); }
    } else {
      var n := |items| - 1;
      PlanIsItsCards(channel, items[..n]);
      var rest := AllCards(channel, items[..n]);
      if First(items, n) {
        assert cards == rest + [CardOf(items[n].aim)] && cards[..|cards| - 1] == rest;
        Append(FirehosePart(channel), Cards(items[..n]), Whole(CardOf(items[n].aim)));
      } else {
        assert cards == rest;
      }
    }
  }

  // Which card entry i of a plan belongs to, and where its card stands.
  ghost function Origin(cards: seq<Planned>, i: nat): nat
    requires i < |Joined(cards)|
  {
    var n := |cards| - 1;
    if i < |Joined(cards[..n])| then Origin(cards[..n], i) else n
  }

  ghost function Start(cards: seq<Planned>, k: nat): nat
    requires k <= |cards|
  {
    |Joined(cards[..k])|
  }

  lemma {:induction false} OriginIs(cards: seq<Planned>, i: nat)
    requires i < |Joined(cards)|
    ensures var k := Origin(cards, i);
            && k < |cards| && Start(cards, k) <= i < Start(cards, k) + |Whole(cards[k])|
            && Joined(cards)[i] == Whole(cards[k])[i - Start(cards, k)]
  {
    var n := |cards| - 1;
    if i < |Joined(cards[..n])| {
      OriginIs(cards[..n], i);
      var k := Origin(cards[..n], i);
      assert cards[..n][..k] == cards[..k];
    }
  }

  lemma {:induction false} OriginNeverGoesBack(cards: seq<Planned>, i: nat, j: nat)
    requires i <= j < |Joined(cards)|
    ensures Origin(cards, i) <= Origin(cards, j)
  {
    var n := |cards| - 1;
    if j < |Joined(cards[..n])| {
      OriginNeverGoesBack(cards[..n], i, j);
    } else if i < |Joined(cards[..n])| {
      OriginIs(cards[..n], i);
    }
  }

  lemma {:induction false} JoinedGrows(cards: seq<Planned>, k: nat)
    requires k <= |cards|
    ensures Joined(cards[..k]) <= Joined(cards)
    decreases |cards| - k
  {
    if k == |cards| {
      assert cards[..k] == cards;
    } else {
      assert cards[..k + 1][..k] == cards[..k];
      JoinedGrows(cards, k + 1);
    }
  }

  lemma {:induction false} WholeStands(cards: seq<Planned>, k: nat)
    requires k < |cards|
    ensures Start(cards, k) + |Whole(cards[k])| <= |Joined(cards)|
    ensures forall p :: 0 <= p < |Whole(cards[k])| ==> Joined(cards)[Start(cards, k) + p] == Whole(cards[k])[p]
  {
    JoinedGrows(cards, k + 1);
    assert cards[..k + 1][..k] == cards[..k];
    StandsAt(Joined(cards[..k]), Whole(cards[k]), Joined(cards));
  }

  lemma StandsAt<T>(a: seq<T>, b: seq<T>, c: seq<T>)
    requires a + b <= c
    ensures |a| + |b| <= |c| && forall p :: 0 <= p < |b| ==> c[|a| + p] == b[p]
  {
    forall p | 0 <= p < |b| ensures c[|a| + p] == b[p] {
      assert (a + b)[|a| + p] == c[|a| + p];
    }
  }

  // ---- nothing is promised twice -------------------------------------------------------

  // The card an identity belongs to.
  function Root(id: Identity): Identity {
    if id.target.Satellite() then id.(target := Target(ToChannel, id.target.ref)) else id
  }

  ghost predicate DistinctCards(cards: seq<Planned>) {
    && (forall k :: 0 <= k < |cards| ==> !cards[k].commitment.id.target.Satellite())
    && (forall j, k :: 0 <= j < k < |cards| ==> cards[j].commitment.id != cards[k].commitment.id)
  }

  lemma WholeSharesARoot(card: Planned, p: nat)
    requires p < |Whole(card)| && !card.commitment.id.target.Satellite()
    ensures Root(Whole(card)[p].commitment.id) == card.commitment.id
    ensures Whole(card)[p].commitment.id.target.Satellite() <==> p > 0
    ensures Whole(card)[p].commitment.offset == card.commitment.offset
    ensures forall q :: 0 <= q < p ==> Whole(card)[q].commitment.id != Whole(card)[p].commitment.id
  {
  }

  // The request behind a card of the policy.
  lemma {:induction false} RequestOf(items: seq<Item>, k: nat) returns (j: nat)
    requires k < |FirstCards(items)|
    ensures j < |items| && First(items, j) && FirstCards(items)[k] == CardOf(items[j].aim)
  {
    var n := |items| - 1;
    if k < |FirstCards(items[..n])| {
      j := RequestOf(items[..n], k);
      assert items[..n][j] == items[j];
      assert First(items, j);
    } else {
      j := n;
    }
  }

  lemma {:induction false} FirstCardsDiffer(items: seq<Item>, j: nat, k: nat)
    requires j < k < |FirstCards(items)|
    ensures FirstCards(items)[j].commitment.id != FirstCards(items)[k].commitment.id
  {
    var n := |items| - 1;
    var rest := items[..n];
    if k < |FirstCards(rest)| {
      FirstCardsDiffer(rest, j, k);
    } else {
      var i := RequestOf(rest, j);
      assert items[i] == rest[i];
    }
  }

  // Everything a policy wants is aimed at a channel or a person.
  ghost predicate Aimed(items: seq<Item>) {
    forall k :: 0 <= k < |items| && items[k].Wanted? ==> !items[k].aim.target.Satellite()
  }

  lemma {:induction false} CardsAreDistinct(channel: string, items: seq<Item>)
    requires Aimed(items)
    ensures DistinctCards(AllCards(channel, items))
  {
    var first := FirstCards(items);
    forall k | 0 <= k < |first|
      ensures !first[k].commitment.id.target.Satellite() && first[k].commitment.id.slot.Policy?
    {
      var j := RequestOf(items, k);
    }
    forall j, k | 0 <= j < k < |first| ensures first[j].commitment.id != first[k].commitment.id {
      FirstCardsDiffer(items, j, k);
    }
  }

  // No two commitments of a plan - firehose, cards and satellites together - share
  // slot, provider and recipient.
  lemma {:induction false} NothingIsPromisedTwice(channel: string, items: seq<Item>, i: nat, j: nat)
    requires Aimed(items) && i < j < |Promised(channel, items)|
    ensures Promised(channel, items)[i].commitment.id != Promised(channel, items)[j].commitment.id
  {
    PlanIsItsCards(channel, items);
    CardsAreDistinct(channel, items);
    JoinedDiffer(AllCards(channel, items), i, j);
  }

  lemma {:induction false} JoinedDiffer(cards: seq<Planned>, i: nat, j: nat)
    requires DistinctCards(cards) && i < j < |Joined(cards)|
    ensures Joined(cards)[i].commitment.id != Joined(cards)[j].commitment.id
  {
    OriginIs(cards, i);
    OriginIs(cards, j);
    OriginNeverGoesBack(cards, i, j);
    var a, b := Origin(cards, i), Origin(cards, j);
    WholeSharesARoot(cards[a], i - Start(cards, a));
    WholeSharesARoot(cards[b], j - Start(cards, b));
  }

  // ---- nobody is forgotten ---------------------------------------------------------------

  lemma {:induction false} FirstOfItsKind(items: seq<Item>, k: nat) returns (j: nat)
    requires k < |items| && items[k].Wanted?
    ensures j <= k && First(items, j) && items[j].aim.Id() == items[k].aim.Id()
  {
    if First(items, k) {
      j := k;
    } else {
      var i :| 0 <= i < k && items[i].Wanted? && items[i].aim.Id() == items[k].aim.Id();
      j := FirstOfItsKind(items, i);
    }
  }

  lemma {:induction false} FirstIsACard(items: seq<Item>, j: nat)
    requires j < |items| && First(items, j)
    ensures CardOf(items[j].aim) in FirstCards(items)
  {
    var n := |items| - 1;
    if j < n {
      assert First(items[..n], j);
      FirstIsACard(items[..n], j);
    }
  }

  // Every recipient the policy wants, at every step, is promised the step's message
  // there: by the first step that asked for it.
  lemma {:induction false} EveryRecipientIsPromised(channel: string, items: seq<Item>, k: nat)
    requires k < |items| && items[k].Wanted?
    ensures exists j, i :: 0 <= j <= k && First(items, j) && 0 <= i < |Promised(channel, items)|
              && Promised(channel, items)[i] == CardOf(items[j].aim)
              && Promised(channel, items)[i].commitment.id == items[k].aim.Id()
  {
    var j := FirstOfItsKind(items, k);
    FirstIsACard(items, j);
    var cards := AllCards(channel, items);
    var c :| 0 <= c < |FirstCards(items)| && FirstCards(items)[c] == CardOf(items[j].aim);
    var at := c + |cards| - |FirstCards(items)|;
    assert cards[at] == CardOf(items[j].aim);
    PlanIsItsCards(channel, items);
    WholeStands(cards, at);
    assert Promised(channel, items)[Start(cards, at)] == Whole(cards[at])[0];
  }

  // Cards and notes account for everything asked for, one for one.
  lemma {:induction false} NothingIsLost(items: seq<Item>)
    ensures |FirstCards(items)| + |Notes(items)| == |items|
  {
    if items != [] { NothingIsLost(items[..|items| - 1]); }
  }

  lemma {:induction false} PrefixOfLists(items: seq<Item>, more: seq<Item>)
    ensures FirstCards(items) <= FirstCards(items + more) && Notes(items) <= Notes(items + more)
  {
    if more == [] {
      assert items + more == items;
    } else {
      PrefixOfLists(items, more[..|more| - 1]);
      assert (items + more)[..|items + more| - 1] == items + more[..|more| - 1];
    }
  }

  predicate IsDuplicateOf(note: Unpromised, step: Step, targets: seq<Target>) {
    note.step == step && note.reason == Duplicate && note.target.Some? && note.target.value in targets
  }

  // What is added to the record by the recipients of one step.
  lemma {:induction false} StepNotes(items: seq<Item>, step: Step, offset: int, targets: seq<Target>)
    ensures |Aims(step, offset, targets)| == |targets|
    ensures var all := items + Aims(step, offset, targets);
            forall k :: |Notes(items)| <= k < |Notes(all)| ==> IsDuplicateOf(Notes(all)[k], step, targets)
    ensures Notes(items) <= Notes(items + Aims(step, offset, targets))
  {
    var all := items + Aims(step, offset, targets);
    if targets == [] {
      assert all == items;
    } else {
      var n := |targets| - 1;
      StepNotes(items, step, offset, targets[..n]);
      assert all[..|all| - 1] == items + Aims(step, offset, targets[..n]);
    }
  }

  // A step with no channel or no recipient adds no card and one note that says which
  // it was: its provider delivers nothing here, its schedule has nobody on call, or it
  // names no one. Any other adds one card or Duplicate note for each recipient.
  lemma {:induction false} StepIsAccountedFor(items: seq<Item>, r: Resolver, team: TeamOnCall, step: Step, offset: int,
                                              w: World)
    requires StepItems(r, team, step, offset, w).1.Some?
    ensures var (asked, to) := (StepItems(r, team, step, offset, w).1.value, Recipients(r, team, step, w).1);
            var all := items + asked;
            var cards, notes := |FirstCards(all)| - |FirstCards(items)|, |Notes(all)| - |Notes(items)|;
            if !DeliversThrough(step.provider) || to == Some([]) then
              && cards == 0
              && Notes(all) == Notes(items) + [Unpromised(step,
                    if !DeliversThrough(step.provider) then NoChannel
                    else if step.targetType == "schedule" then NobodyOnCall
                    else NoTarget, None)]
            else
              && cards + notes == |to.value|
              && forall k :: |Notes(items)| <= k < |Notes(all)| ==> IsDuplicateOf(Notes(all)[k], step, to.value)
  {
    var asked := StepItems(r, team, step, offset, w).1.value;
    var all := items + asked;
    NothingIsLost(items);
    NothingIsLost(all);
    if DeliversThrough(step.provider) && Recipients(r, team, step, w).1 != Some([]) {
      StepNotes(items, step, offset, Recipients(r, team, step, w).1.value);
    } else {
      assert all[..|all| - 1] == items;
    }
  }

  // The words and the manner of a promise are the step's. A call has neither words nor
  // edits, is settled by the provider's word, and lapses ten minutes after its step.
  predicate SaysWhatTheStepSays(c: Commitment, step: Step) {
    && c.id.slot == Policy(step.index) && c.id.provider == step.provider
    && (c.stopOnFailure <==> !step.continueOnFailure)
    && (step.provider == PHONE ==> !c.editable && c.message.None? && c.onReceipt && c.expiry == Some(c.offset + 600))
    && (step.provider != PHONE ==>
          && !c.onReceipt && c.expiry.None? && (c.editable <==> step.shape == "channel")
          && (if step.message == "" then c.message.None? else c.message == Some(step.message)))
  }

  lemma CardSays(aim: Aim)
    ensures var c := CardOf(aim).commitment;
            SaysWhatTheStepSays(c, aim.step) && c.id.target == aim.target && c.offset == aim.offset
              && !CardOf(aim).firehose && CardOf(aim).shape == aim.step.shape
  {
  }

  // An entry that is not a satellite is one of the cards.
  lemma {:induction false} EntryIsACard(channel: string, items: seq<Item>, i: nat) returns (k: nat)
    requires Aimed(items) && i < |Promised(channel, items)|
            && !Promised(channel, items)[i].commitment.id.target.Satellite()
    ensures k < |AllCards(channel, items)| && Promised(channel, items)[i] == AllCards(channel, items)[k]
    ensures k == 0 ==> i == 0
  {
    PlanIsItsCards(channel, items);
    CardsAreDistinct(channel, items);
    k := CardAt(AllCards(channel, items), i);
  }

  lemma {:induction false} CardAt(cards: seq<Planned>, i: nat) returns (k: nat)
    requires DistinctCards(cards) && i < |Joined(cards)| && !Joined(cards)[i].commitment.id.target.Satellite()
    ensures k < |cards| && Joined(cards)[i] == cards[k]
    ensures k == 0 ==> i == 0
  {
    OriginIs(cards, i);
    k := Origin(cards, i);
    WholeSharesARoot(cards[k], i - Start(cards, k));
    assert cards[..0] == [];
  }

  ghost predicate IsTheFirehose(p: Planned, channel: string) {
    && p.commitment.id == Identity(Firehose, SLACK, Target(ToChannel, channel))
    && p.commitment.offset == 0 && p.commitment.editable && !p.commitment.stopOnFailure
    && p.commitment.message.None? && p.commitment.expiry.None? && !p.commitment.onReceipt
    && p.shape == "channel" && p.firehose
  }

  // Nothing is promised that was not asked for: a card is the firehose's, or says
  // what some first request's step says, to that request's recipient at its time.
  lemma {:induction false} NothingUnaskedIsPromised(channel: string, items: seq<Item>, i: nat)
    requires Aimed(items) && i < |Promised(channel, items)|
            && !Promised(channel, items)[i].commitment.id.target.Satellite()
    ensures var p := Promised(channel, items)[i];
            if p.firehose then i == 0 && channel != "" && IsTheFirehose(p, channel)
            else
              exists j :: 0 <= j < |items| && First(items, j) && p.commitment.id.target == items[j].aim.target
                && p.commitment.offset == items[j].aim.offset && SaysWhatTheStepSays(p.commitment, items[j].aim.step)
                && p.shape == items[j].aim.step.shape
  {
    var k := EntryIsACard(channel, items, i);
    var at := k - (|AllCards(channel, items)| - |FirstCards(items)|);
    if at >= 0 {
      var j := RequestOf(items, at);
      CardSays(items[j].aim);
      assert First(items, j);
    }
  }

  // ---- timing --------------------------------------------------------------------------------

  lemma {:induction false} AimsAre(step: Step, offset: int, targets: seq<Target>)
    ensures |Aims(step, offset, targets)| == |targets|
    ensures forall k :: 0 <= k < |targets| ==> Aims(step, offset, targets)[k] == Wanted(Aim(step, offset, targets[k]))
  {
    if targets != [] { AimsAre(step, offset, targets[..|targets| - 1]); }
  }

  lemma {:induction false} UsersAreUsers(users: seq<User>)
    ensures |UserTargets(users)| == |users|
    ensures forall k :: 0 <= k < |users| ==> UserTargets(users)[k] == Target(ToUser, users[k].id)
  {
    if users != [] { UsersAreUsers(users[1..]); }
  }

  // Where a wanted message comes from.
  ghost predicate ComesFrom(aim: Aim, steps: seq<Option<Step>>, i: nat) {
    && i < |steps| && steps[i] == Some(aim.step) && aim.offset == Delays(steps[..i + 1])
    && DeliversThrough(aim.step.provider) && !aim.target.Satellite()
  }

  // Each message is due the sum of the delays up to its own step, whether or not
  // the steps before it promised anything.
  lemma {:induction false} DueAfterTheDelays(r: Resolver, team: TeamOnCall, steps: seq<Option<Step>>, ws: seq<World>,
                                             k: nat)
    returns (i: nat)
    requires |ws| == |steps| && Survey(r, team, steps, ws).1.Some?
    requires var items := Survey(r, team, steps, ws).1.value; k < |items| && items[k].Wanted?
    ensures ComesFrom(Survey(r, team, steps, ws).1.value[k].aim, steps, i)
  {
    var n := |steps| - 1;
    var before := Survey(r, team, steps[..n], ws[..n]);
    if k < |before.1.value| {
      i := DueAfterTheDelays(r, team, steps[..n], ws[..n], k);
      assert steps[..n][..i + 1] == steps[..i + 1];
    } else {
      i := n;
      assert steps[..n + 1] == steps;
      StepAims(before.0, team, steps[n].value, Delays(steps), ws[n], k - |before.1.value|);
    }
  }

  lemma {:induction false} StepAims(r: Resolver, team: TeamOnCall, step: Step, offset: int, w: World, k: nat)
    requires StepItems(r, team, step, offset, w).1.Some? && k < |StepItems(r, team, step, offset, w).1.value|
    ensures var item := StepItems(r, team, step, offset, w).1.value[k];
            item.Wanted? ==>
              && item.aim.step == step && item.aim.offset == offset
              && DeliversThrough(step.provider) && !item.aim.target.Satellite()
  {
    if DeliversThrough(step.provider) {
      var to := Recipients(r, team, step, w).1.value;
      AimsAre(step, offset, to);
      if step.targetType == "schedule" { UsersAreUsers(Ask(r, team, step.targetID, w).1.users); }
    }
  }

  ghost predicate Patient(steps: seq<Option<Step>>) {
    forall i :: 0 <= i < |steps| && steps[i].Some? ==> steps[i].value.delay >= 0
  }

  lemma {:induction false} DelaysGrow(steps: seq<Option<Step>>)
    requires Patient(steps)
    ensures Delays(steps) >= 0
    ensures |steps| > 0 ==> Delays(steps[..|steps| - 1]) <= Delays(steps)
  {
    if steps != [] { DelaysGrow(steps[..|steps| - 1]); }
  }

  ghost predicate InOrder(items: seq<Item>) {
    forall j, k :: 0 <= j < k < |items| && items[j].Wanted? && items[k].Wanted? ==>
      items[j].aim.offset <= items[k].aim.offset
  }

  ghost predicate Within(items: seq<Item>, bound: int) {
    forall k :: 0 <= k < |items| && items[k].Wanted? ==> 0 <= items[k].aim.offset <= bound
  }

  lemma {:induction false} SurveyIsInOrder(r: Resolver, team: TeamOnCall, steps: seq<Option<Step>>, ws: seq<World>)
    requires |ws| == |steps| && Patient(steps) && Survey(r, team, steps, ws).1.Some?
    ensures InOrder(Survey(r, team, steps, ws).1.value) && Within(Survey(r, team, steps, ws).1.value, Delays(steps))
  {
    if steps != [] {
      var n := |steps| - 1;
      var (before, items) := Survey(r, team, steps[..n], ws[..n]);
      SurveyIsInOrder(r, team, steps[..n], ws[..n]);
      DelaysGrow(steps);
      if steps[n].Some? {
        var more := StepItems(before, team, steps[n].value, Delays(steps), ws[n]).1.value;
        forall k | 0 <= k < |more| && more[k].Wanted? ensures more[k].aim.offset == Delays(steps) {
          StepAims(before, team, steps[n].value, Delays(steps), ws[n], k);
        }
      }
    }
  }

  lemma {:induction false} CardsInOrder(items: seq<Item>, bound: int)
    requires InOrder(items) && Within(items, bound)
    ensures forall j, k :: 0 <= j < k < |FirstCards(items)| ==>
                             FirstCards(items)[j].commitment.offset <= FirstCards(items)[k].commitment.offset
    ensures forall k :: 0 <= k < |FirstCards(items)| ==> FirstCards(items)[k].commitment.offset >= 0
  {
    if items != [] {
      var n := |items| - 1;
      CardsInOrder(items[..n], bound);
      var first := FirstCards(items[..n]);
      forall j | 0 <= j < |first| && First(items, n) ensures first[j].commitment.offset <= items[n].aim.offset {
        var i := RequestOf(items[..n], j);
        assert items[i] == items[..n][i];
      }
    }
  }

  // With no negative delay, a plan lists its messages in the order they are due.
  lemma {:induction false} PlanIsInOrder(channel: string, r: Resolver, team: TeamOnCall, steps: seq<Option<Step>>,
                                         ws: seq<World>, i: nat, j: nat)
    requires |ws| == |steps| && Patient(steps) && Survey(r, team, steps, ws).1.Some?
    requires i < j < |Promised(channel, Survey(r, team, steps, ws).1.value)|
    ensures var planned := Promised(channel, Survey(r, team, steps, ws).1.value);
            planned[i].commitment.offset <= planned[j].commitment.offset
  {
    var items := Survey(r, team, steps, ws).1.value;
    SurveyIsInOrder(r, team, steps, ws);
    SurveyIsAimed(r, team, steps, ws);
    PlanOfOrderedItems(channel, items, Delays(steps), i, j);
  }

  lemma {:induction false} OffsetIsItsCards(channel: string, items: seq<Item>, i: nat)
    requires Aimed(items) && i < |Promised(channel, items)|
    ensures i < |Joined(AllCards(channel, items))|
    ensures var k := Origin(AllCards(channel, items), i);
            k < |AllCards(channel, items)|
              && Promised(channel, items)[i].commitment.offset == AllCards(channel, items)[k].commitment.offset
  {
    var cards := AllCards(channel, items);
    PlanIsItsCards(channel, items);
    CardsAreDistinct(channel, items);
    OriginIs(cards, i);
    WholeSharesARoot(cards[Origin(cards, i)], i - Start(cards, Origin(cards, i)));
  }

  lemma {:induction false} PlanOfOrderedItems(channel: string, items: seq<Item>, bound: int, i: nat, j: nat)
    requires InOrder(items) && Within(items, bound) && Aimed(items) && i < j < |Promised(channel, items)|
    ensures Promised(channel, items)[i].commitment.offset <= Promised(channel, items)[j].commitment.offset
  {
    CardsInOrder(items, bound);
    OffsetIsItsCards(channel, items, i);
    OffsetIsItsCards(channel, items, j);
    OriginNeverGoesBack(AllCards(channel, items), i, j);
  }

  // What the laws above and below ask of the requests of a policy.
  lemma {:induction false} SurveyIsAimed(r: Resolver, team: TeamOnCall, steps: seq<Option<Step>>, ws: seq<World>)
    requires |ws| == |steps| && Survey(r, team, steps, ws).1.Some?
    ensures Aimed(Survey(r, team, steps, ws).1.value) && AllDelivered(Survey(r, team, steps, ws).1.value)
  {
    var items := Survey(r, team, steps, ws).1.value;
    forall k | 0 <= k < |items| && items[k].Wanted?
      ensures !items[k].aim.target.Satellite() && DeliversThrough(items[k].aim.step.provider)
    {
      var i := DueAfterTheDelays(r, team, steps, ws, k);
    }
  }

  // ---- satellites ---------------------------------------------------------------------------------

  // A card a thread hangs under: a Slack channel's, edited as things change.
  predicate Threads(p: Planned) {
    p.commitment.id.provider == "slack" && p.commitment.id.target.kind.ToChannel? && p.commitment.editable
  }

  // The thread under a card, edited like it, or the reply that closes the thread, said
  // once: in the card's slot, at its time, with nothing else of its own.
  predicate HangsUnder(p: Planned, card: Planned, reply: bool) {
    var (c, of) := (p.commitment, card.commitment);
    && c.id == Identity(of.id.slot, of.id.provider, Target(if reply then ToThreadReply else ToThread, of.id.target.ref))
    && c.offset == of.offset && (c.editable <==> !reply)
    && c.message.None? && c.expiry.None? && !c.onReceipt && !c.stopOnFailure
    && p.shape == (if reply then "thread_reply" else "thread") && (p.firehose <==> card.firehose)
  }

  predicate StandsWithItsCard(planned: seq<Planned>, i: nat)
    requires i < |planned|
  {
    if planned[i].commitment.id.target.Satellite() then
      exists j :: 0 <= j < i && i - 2 <= j && Threads(planned[j]) && HangsUnder(planned[i], planned[j], j == i - 2)
    else Threads(planned[i]) ==>
      && i + 2 < |planned|
      && HangsUnder(planned[i + 1], planned[i], false) && HangsUnder(planned[i + 2], planned[i], true)
  }

  // A satellite stands right after its card, in its slot and at its time.
  lemma {:induction false} SatelliteFollowsItsCard(channel: string, items: seq<Item>, i: nat)
    requires Aimed(items) && i < |Promised(channel, items)|
    ensures StandsWithItsCard(Promised(channel, items), i)
  {
    var card, s := WholeOf(channel, items, i);
    InItsWhole(Promised(channel, items), card, s, i);
  }

  // The card an entry of a plan comes from, and where that card stands.
  lemma {:induction false} WholeOf(channel: string, items: seq<Item>, i: nat) returns (card: Planned, s: nat)
    requires Aimed(items) && i < |Promised(channel, items)|
    ensures !card.commitment.id.target.Satellite() && s <= i < s + |Whole(card)| <= |Promised(channel, items)|
    ensures forall p :: 0 <= p < |Whole(card)| ==> Promised(channel, items)[s + p] == Whole(card)[p]
  {
    PlanIsItsCards(channel, items);
    CardsAreDistinct(channel, items);
    card, s := WholeIn(AllCards(channel, items), i);
  }

  lemma {:induction false} WholeIn(cards: seq<Planned>, i: nat) returns (card: Planned, s: nat)
    requires DistinctCards(cards) && i < |Joined(cards)|
    ensures !card.commitment.id.target.Satellite() && s <= i < s + |Whole(card)| <= |Joined(cards)|
    ensures forall p :: 0 <= p < |Whole(card)| ==> Joined(cards)[s + p] == Whole(card)[p]
  {
    OriginIs(cards, i);
    WholeStands(cards, Origin(cards, i));
    card, s := cards[Origin(cards, i)], Start(cards, Origin(cards, i));
    assert !cards[Origin(cards, i)].commitment.id.target.Satellite();
  }

  // A card and its satellites, standing at s.
  lemma {:induction false} InItsWhole(planned: seq<Planned>, card: Planned, s: nat, i: nat)
    requires !card.commitment.id.target.Satellite() && s <= i < s + |Whole(card)| <= |planned|
    requires forall p :: 0 <= p < |Whole(card)| ==> planned[s + p] == Whole(card)[p]
    ensures StandsWithItsCard(planned, i)
  {
    var p := i - s;
    WholeSharesARoot(card, p);
    assert planned[s] == Whole(card)[0] == card && planned[i] == Whole(card)[p];
    if p == 0 && HasSatellites(card.commitment) {
      assert planned[i + 1] == Whole(card)[1] && planned[i + 2] == Whole(card)[2];
    }
  }

  // ---- what the group records about its policy --------------------------------------------------------

  // The record names the cards and nothing else.
  function Rows(planned: seq<Planned>): seq<Planned> {
    if planned == [] then []
    else (if planned[0].commitment.id.target.Satellite() then [] else [planned[0]]) + Rows(planned[1..])
  }

  lemma OneRowMore(planned: seq<Planned>, i: nat, rows: seq<Planned>)
    requires i < |planned|
    ensures rows + Rows(planned[i..]) ==
            (if planned[i].commitment.id.target.Satellite() then rows else rows + [planned[i]]) + Rows(planned[i + 1..])
  {
    assert planned[i..][0] == planned[i] && planned[i..][1..] == planned[i + 1..];
  }

  method PolicyRows(planned: seq<Planned>) returns (rows: seq<Planned>)
    ensures rows == Rows(planned)
  {
    rows := [];
    for i := 0 to |planned|
      invariant Rows(planned) == rows + Rows(planned[i..])
    {
      OneRowMore(planned, i, rows);
      if !planned[i].commitment.id.target.Satellite() {
        rows := rows + [planned[i]];
      }
    }
  }

  lemma {:induction false} RowsOfConcat(a: seq<Planned>, b: seq<Planned>)
    ensures Rows(a + b) == Rows(a) + Rows(b)
  {
    if a == [] {
      assert a + b == b;
    } else {
      RowsOfConcat(a[1..], b);
      assert (a + b)[0] == a[0] && (a + b)[1..] == a[1..] + b;
      Append(if a[0].commitment.id.target.Satellite() then [] else [a[0]], Rows(a[1..]), Rows(b));
    }
  }

  lemma {:induction false} RowsOfJoined(cards: seq<Planned>)
    requires forall k :: 0 <= k < |cards| ==> !cards[k].commitment.id.target.Satellite()
    ensures Rows(Joined(cards)) == cards
  {
    if cards != [] {
      var n := |cards| - 1;
      RowsOfJoined(cards[..n]);
      RowsOfConcat(Joined(cards[..n]), Whole(cards[n]));
      RowsOfConcat([cards[n]], SatellitesOf(cards[n]));
      RowsOfConcat([SatelliteOf(cards[n], ToThread)], [SatelliteOf(cards[n], ToThreadReply)]);
    }
  }

  // The firehose and then the policy's cards, in order.
  lemma {:induction false} RecordIsTheCards(channel: string, items: seq<Item>)
    requires Aimed(items)
    ensures Rows(Promised(channel, items)) == AllCards(channel, items)
  {
    PlanIsItsCards(channel, items);
    CardsAreDistinct(channel, items);
    RowsOfJoined(AllCards(channel, items));
  }

  // ---- the admission ---------------------------------------------------------------------------------------

  // What the grammar asks of one commitment (internal/outbound/keys/escalation.go)
  // and what the gate asks (internal/outbound/validate.go).
  predicate WellFormed(c: Commitment) {
    && (c.id.slot.Policy? ==> c.id.slot.index >= 0)
    && !(c.id.slot.Firehose? && c.stopOnFailure)
    && c.id.provider != "" && c.id.target.ref != ""
    && (c.id.target.Satellite() ==>
          c.id.provider == SLACK && c.editable == c.id.target.kind.ToThread?
          && c.expiry.None? && c.message.None? && !c.stopOnFailure)
    && c.offset >= 0 && (c.expiry.Some? ==> c.expiry.value >= 0)
  }

  predicate PassesTheGate(c: Commitment) {
    DeliversThrough(c.id.provider) && c.onReceipt == (c.id.provider == PHONE) && !(c.onReceipt && c.editable)
  }

  predicate Admissible(planned: seq<Planned>) {
    && (forall i :: 0 <= i < |planned| ==> WellFormed(planned[i].commitment) && PassesTheGate(planned[i].commitment))
    && (forall i, j :: 0 <= i < j < |planned| ==> planned[i].commitment.id != planned[j].commitment.id)
    && (forall i :: 0 <= i < |planned| && planned[i].commitment.id.target.Satellite() ==>
          exists j :: 0 <= j < |planned| && planned[j].commitment.id == Root(planned[i].commitment.id))
  }

  // A first request that the grammar itself could not name.
  predicate Sound(aim: Aim) {
    aim.step.index >= 0 && aim.offset >= 0 && aim.target.ref != ""
  }

  ghost predicate AllSound(items: seq<Item>) {
    forall k :: 0 <= k < |items| && First(items, k) ==> Sound(items[k].aim)
  }

  ghost predicate AllDelivered(items: seq<Item>) {
    forall k :: 0 <= k < |items| && items[k].Wanted? ==> DeliversThrough(items[k].aim.step.provider)
  }

  lemma CardIsFine(aim: Aim)
    requires DeliversThrough(aim.step.provider) && !aim.target.Satellite()
    ensures PassesTheGate(CardOf(aim).commitment)
    ensures WellFormed(CardOf(aim).commitment) <==> Sound(aim)
  {
  }

  lemma WholeIsFine(card: Planned, p: nat)
    requires p < |Whole(card)| && !card.commitment.id.target.Satellite()
    requires WellFormed(card.commitment) && PassesTheGate(card.commitment)
    ensures WellFormed(Whole(card)[p].commitment) && PassesTheGate(Whole(card)[p].commitment)
  {
  }

  // The admission never refuses a plan for a repeat, a satellite without its card,
  // a call that can be edited or a provider nothing delivers through. It accepts
  // exactly the plans whose steps have an index, a time and a recipient it can
  // name.
  lemma {:induction false} AdmissionAccepts(channel: string, items: seq<Item>)
    requires Aimed(items) && AllDelivered(items)
    ensures Admissible(Promised(channel, items)) <==> AllSound(items)
  {
    if AllSound(items) { SoundPlansPass(channel, items); }
    if Admissible(Promised(channel, items)) {
      forall k | 0 <= k < |items| && First(items, k)
        ensures Sound(items[k].aim)
      {
        OnlySoundPlansPass(channel, items, k);
      }
    }
  }

  lemma {:induction false} EntryIsFine(channel: string, items: seq<Item>, i: nat)
    requires Aimed(items) && AllDelivered(items) && AllSound(items) && i < |Promised(channel, items)|
    ensures WellFormed(Promised(channel, items)[i].commitment) && PassesTheGate(Promised(channel, items)[i].commitment)
  {
    var cards := AllCards(channel, items);
    PlanIsItsCards(channel, items);
    OriginIs(cards, i);
    CardsAreFine(channel, items, Origin(cards, i));
    WholeIsFine(cards[Origin(cards, i)], i - Start(cards, Origin(cards, i)));
  }

  lemma {:induction false} SatelliteHasItsCard(channel: string, items: seq<Item>, i: nat)
    requires Aimed(items) && i < |Promised(channel, items)|
            && Promised(channel, items)[i].commitment.id.target.Satellite()
    ensures var planned := Promised(channel, items);
            exists j :: 0 <= j < |planned| && planned[j].commitment.id == Root(planned[i].commitment.id)
  {
    SatelliteFollowsItsCard(channel, items, i);
    var planned := Promised(channel, items);
    var j :| 0 <= j < i && i - 2 <= j && Threads(planned[j]) && HangsUnder(planned[i], planned[j], j == i - 2);
    assert planned[j].commitment.id == Root(planned[i].commitment.id);
  }

  lemma {:induction false} SoundPlansPass(channel: string, items: seq<Item>)
    requires Aimed(items) && AllDelivered(items) && AllSound(items)
    ensures Admissible(Promised(channel, items))
  {
    var planned := Promised(channel, items);
    forall i | 0 <= i < |planned| ensures WellFormed(planned[i].commitment) && PassesTheGate(planned[i].commitment) {
      EntryIsFine(channel, items, i);
    }
    forall i, j | 0 <= i < j < |planned| ensures planned[i].commitment.id != planned[j].commitment.id {
      NothingIsPromisedTwice(channel, items, i, j);
    }
    forall i | 0 <= i < |planned| && planned[i].commitment.id.target.Satellite()
      ensures exists j :: 0 <= j < |planned| && planned[j].commitment.id == Root(planned[i].commitment.id)
    {
      SatelliteHasItsCard(channel, items, i);
    }
  }

  lemma {:induction false} OnlySoundPlansPass(channel: string, items: seq<Item>, k: nat)
    requires Aimed(items) && AllDelivered(items) && Admissible(Promised(channel, items)) && k < |items|
            && First(items, k)
    ensures Sound(items[k].aim)
  {
    var cards := AllCards(channel, items);
    FirstIsACard(items, k);
    var c :| 0 <= c < |FirstCards(items)| && FirstCards(items)[c] == CardOf(items[k].aim);
    var at := c + |cards| - |FirstCards(items)|;
    PlanIsItsCards(channel, items);
    WholeStands(cards, at);
    assert Promised(channel, items)[Start(cards, at)] == Whole(cards[at])[0] == CardOf(items[k].aim);
    CardIsFine(items[k].aim);
  }

  lemma {:induction false} CardsAreFine(channel: string, items: seq<Item>, k: nat)
    requires Aimed(items) && AllDelivered(items) && AllSound(items) && k < |AllCards(channel, items)|
    ensures var c := AllCards(channel, items)[k].commitment;
            WellFormed(c) && PassesTheGate(c) && !c.id.target.Satellite()
  {
    var cards := AllCards(channel, items);
    var at := k - (|cards| - |FirstCards(items)|);
    if at >= 0 {
      var j := RequestOf(items, at);
      CardIsFine(items[j].aim);
    }
  }
}
