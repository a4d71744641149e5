// Compiling a policy into promises (internal/engine/plan.go): the firehose first,
// then the steps in order, each with the offset the policy gives it, its
// recipients, the satellites of its cards, and a record of everything the policy
// asked for that is not promised.
//
// Offsets and deadlines are whole seconds from the admission.

module Plan {
  import opened Order
  import opened Roster

  datatype Kind = ToChannel | ToUser | ToThread | ToThreadReply

  datatype Target = Target(kind: Kind, ref: string) {
    predicate Satellite() { kind.ToThread? || kind.ToThreadReply? }
  }

  // The slot is the step's own index, not its position in the policy.
  datatype Slot = Firehose | Policy(index: int)

  // What makes two commitments the same commitment.
  datatype Identity = Identity(slot: Slot, provider: string, target: Target)

  datatype Commitment = Commitment(
    id: Identity, editable: bool, message: Option<string>, stopOnFailure: bool,
    offset: int, expiry: Option<int>, onReceipt: bool)

  // A promise, and what the policy called it.
  datatype Planned = Planned(commitment: Commitment, shape: string, firehose: bool)

  datatype Step = Step(
    index: int, provider: string, shape: string, targetType: string, targetID: string,
    delay: int, message: string, continueOnFailure: bool)

  datatype Reason = NoChannel | NobodyOnCall | NoTarget | Duplicate

  datatype Unpromised = Unpromised(step: Step, reason: Reason, target: Option<Target>)

  const SLACK := "slack"
  const PHONE := "phone"
  const CALL_EXPIRY: int := 600

  predicate DeliversThrough(provider: string) {
    provider == SLACK || provider == "telegram" || provider == PHONE
  }

  // ---- the key of a commitment inside one plan -----------------------------------

  function Digits(n: nat): string {
    if n < 10 then [('0' as int + n) as char] else Digits(n / 10) + [('0' as int + n % 10) as char]
  }

  function Decimal(n: int): string {
    if n < 0 then "-" + Digits(-n) else Digits(n)
  }

  function KindName(kind: Kind): string {
    match kind
    case ToChannel => "channel"
    case ToUser => "user"
    case ToThread => "thread"
    case ToThreadReply => "thread_reply"
  }

  function SlotName(slot: Slot): string {
    if slot.Firehose? then "firehose" else "policy"
  }

  function SlotIndex(slot: Slot): int {
    if slot.Firehose? then 0 else slot.index
  }

  function SlotTarget(id: Identity): string {
    var target := KindName(id.target.kind) + ("/" + id.target.ref);
    SlotName(id.slot) + ("/" + (Decimal(SlotIndex(id.slot)) + ("/" + (id.provider + ("/" + target)))))
  }

  predicate SlashFree(s: string) { '/' !in s }

  lemma {:induction false} SplitAtSlash(a: string, x: string, b: string, y: string)
    requires SlashFree(a) && SlashFree(b) && a + ("/" + x) == b + ("/" + y)
    ensures a == b && x == y
  {
    var s, t := a + ("/" + x), b + ("/" + y);
    assert s[0] == t[0];
    if a == "" || b == "" {
      assert a == "" <==> b == "";
      assert s[1..] == x && t[1..] == y;
    } else {
      assert s[1..] == a[1..] + ("/" + x) && t[1..] == b[1..] + ("/" + y);
      SplitAtSlash(a[1..], x, b[1..], y);
      assert a == [a[0]] + a[1..] && b == [b[0]] + b[1..];
    }
  }

  lemma {:induction false} DigitsAreDigits(n: nat)
    ensures |Digits(n)| > 0 && forall c :: c in Digits(n) ==> '0' <= c <= '9'
  {
    if n >= 10 { DigitsAreDigits(n / 10); }
  }

  lemma {:induction false} DigitsTell(m: nat, n: nat)
    requires Digits(m) == Digits(n)
    ensures m == n
  {
    DigitsAreDigits(m / 10);
    DigitsAreDigits(n / 10);
    var s, t := Digits(m), Digits(n);
    assert s[|s| - 1] == t[|t| - 1];
    if m >= 10 && n >= 10 {
      assert s[..|s| - 1] == Digits(m / 10) && t[..|t| - 1] == Digits(n / 10);
      DigitsTell(m / 10, n / 10);
    }
  }

  lemma {:induction false} DecimalTells(m: int, n: int)
    ensures SlashFree(Decimal(m))
    ensures Decimal(m) == Decimal(n) ==> m == n
  {
    var a: nat, b: nat := if m < 0 then -m else m, if n < 0 then -n else n;
    DigitsAreDigits(a);
    DigitsAreDigits(b);
    if Decimal(m) == Decimal(n) {
      assert Decimal(m)[0] == Decimal(n)[0];
      assert Digits(a)[0] in Digits(a) && Digits(b)[0] in Digits(b);
      assert m < 0 ==> Decimal(m)[1..] == Digits(a);
      assert n < 0 ==> Decimal(n)[1..] == Digits(b);
      DigitsTell(a, b);
    }
  }

  // The key tells commitments apart exactly when their identities do, as long as
  // no provider has a slash in its name; a recipient may.
  lemma {:induction false} SlotTargetTells(a: Identity, b: Identity)
    requires SlashFree(a.provider) && SlashFree(b.provider)
    ensures SlotTarget(a) == SlotTarget(b) <==> a == b
  {
    if SlotTarget(a) == SlotTarget(b) {
      var a4, b4 := KindName(a.target.kind) + ("/" + a.target.ref), KindName(b.target.kind) + ("/" + b.target.ref);
      var a3, b3 := a.provider + ("/" + a4), b.provider + ("/" + b4);
      var a2, b2 := Decimal(SlotIndex(a.slot)) + ("/" + a3), Decimal(SlotIndex(b.slot)) + ("/" + b3);
      SplitAtSlash(SlotName(a.slot), a2, SlotName(b.slot), b2);
      DecimalTells(SlotIndex(a.slot), SlotIndex(b.slot));
      DecimalTells(SlotIndex(b.slot), SlotIndex(a.slot));
      SplitAtSlash(Decimal(SlotIndex(a.slot)), a3, Decimal(SlotIndex(b.slot)), b3);
      SplitAtSlash(a.provider, a4, b.provider, b4);
      KindNames(a.target.kind, b.target.kind);
      SplitAtSlash(KindName(a.target.kind), a.target.ref, KindName(b.target.kind), b.target.ref);
      SlotNames(a.slot, b.slot);
    }
  }

  lemma KindNames(a: Kind, b: Kind)
    ensures SlashFree(KindName(a)) && (KindName(a) == KindName(b) ==> a == b)
  {
    if KindName(a) == KindName(b) { assert |KindName(a)| == |KindName(b)|; assert KindName(a)[0] == KindName(b)[0]; }
  }

  lemma SlotNames(a: Slot, b: Slot)
    requires SlotName(a) == SlotName(b) && SlotIndex(a) == SlotIndex(b)
    ensures a == b
  {
    assert |SlotName(a)| == |SlotName(b)|;
  }

  // With a slash in a provider's name two commitments could share a key.
  lemma SlashConfuses()
    ensures exists a: Identity, b: Identity :: a != b && SlotTarget(a) == SlotTarget(b)
  {
    var a := Identity(Firehose, "x", Target(ToUser, "user/u"));
    var b := Identity(Firehose, "x/user", Target(ToUser, "u"));
    assert SlotTarget(a) == "firehose" + ("/" + (Decimal(0) + ("/" + "x/user/user/u"))) by {
      assert "x" + ("/" + ("user" + ("/" + "user/u"))) == "x/user/user/u";
    }
    assert SlotTarget(b) == "firehose" + ("/" + (Decimal(0) + ("/" + "x/user/user/u"))) by {
      assert "x/user" + ("/" + ("user" + ("/" + "u"))) == "x/user/user/u";
    }
  }

  // ---- cards ------------------------------------------------------------------------

  function OptionalText(text: string): Option<string> {
    if text == "" then None else Some(text)
  }

  // A call is one-shot, says its own few words, waits for the provider's word and
  // is owed only for a while after its step.
  function CallOf(c: Commitment): Commitment {
    c.(editable := false, message := None, onReceipt := true, expiry := Some(c.offset + CALL_EXPIRY))
  }

  // One recipient of one step, and when the policy wants them told.
  datatype Aim = Aim(step: Step, offset: int, target: Target) {
    function Id(): Identity { Identity(Policy(step.index), step.provider, target) }
  }

  function CardOf(aim: Aim): Planned {
    var c := Commitment(aim.Id(), aim.step.shape == "channel", OptionalText(aim.step.message),
                        !aim.step.continueOnFailure, aim.offset, None, false);
    Planned(if aim.step.provider == PHONE then CallOf(c) else c, aim.step.shape, false)
  }

  function FirehoseCard(channel: string): Planned {
    Planned(Commitment(Identity(Firehose, SLACK, Target(ToChannel, channel)), true, None, false, 0, None, false),
            "channel", true)
  }

  predicate HasSatellites(c: Commitment) {
    c.id.provider == SLACK && c.id.target.kind.ToChannel? && c.editable
  }

  function SatelliteOf(card: Planned, kind: Kind): Planned {
    var c := card.commitment;
    Planned(Commitment(c.id.(target := Target(kind, c.id.target.ref)), kind.ToThread?, None, false, c.offset, None,
                       false),
            KindName(kind), card.firehose)
  }

  function SatellitesOf(card: Planned): seq<Planned> {
    if HasSatellites(card.commitment) then [SatelliteOf(card, ToThread), SatelliteOf(card, ToThreadReply)] else []
  }

  function Whole(card: Planned): seq<Planned> { [card] + SatellitesOf(card) }

  // ---- what the policy asks for, before anything is promised --------------------------

  function Delays(steps: seq<Option<Step>>): int {
    if steps == [] then 0
    else
      var last := steps[|steps| - 1];
      Delays(steps[..|steps| - 1]) + if last.Some? then last.value.delay else 0
  }

  // They add up, step by step.
  lemma {:induction false} DelaysAddUp(steps: seq<Option<Step>>, more: seq<Option<Step>>)
    ensures Delays(steps + more) == Delays(steps) + Delays(more)
    ensures |more| == 1 ==> Delays(more) == if more[0].Some? then more[0].value.delay else 0
  {
    if more == [] {
      assert steps + more == steps;
    } else {
      assert (steps + more)[..|steps + more| - 1] == steps + more[..|more| - 1];
      DelaysAddUp(steps, more[..|more| - 1]);
    }
  }

  function UserTargets(users: seq<User>): seq<Target> {
    if users == [] then [] else [Target(ToUser, users[0].id)] + UserTargets(users[1..])
  }

  function Recipients(r: Resolver, team: TeamOnCall, step: Step, w: World): (Resolver, Option<seq<Target>>) {
    if step.targetType == "schedule" then
      var (after, answer) := Ask(r, team, step.targetID, w);
      (after, if answer.Users? then Some(UserTargets(answer.users)) else None)
    else if step.targetID == "" then (r, Some([]))
    else (r, Some([Target(if step.targetType == "channel" then ToChannel else ToUser, step.targetID)]))
  }

  datatype Item = Wanted(aim: Aim) | Unable(step: Step, reason: Reason)

  function Aims(step: Step, offset: int, targets: seq<Target>): seq<Item> {
    if targets == [] then []
    else Aims(step, offset, targets[..|targets| - 1]) + [Wanted(Aim(step, offset, targets[|targets| - 1]))]
  }

  // What one step asks for: one line per recipient, or the one reason it has none.
  function StepItems(r: Resolver, team: TeamOnCall, step: Step, offset: int, w: World): (Resolver, Option<seq<Item>>) {
    if !DeliversThrough(step.provider) then (r, Some([Unable(step, NoChannel)]))
    else
      var (after, targets) := Recipients(r, team, step, w);
      if targets.None? then (after, None)
      else if targets.value == [] then
        (after, Some([Unable(step, if step.targetType == "schedule" then NobodyOnCall else NoTarget)]))
      else (after, Some(Aims(step, offset, targets.value)))
  }

  // What a whole policy asks for. ws[i] is what the world would answer at step i;
  // None means a question that decides recipients could not be answered.
  function Survey(r: Resolver, team: TeamOnCall, steps: seq<Option<Step>>,
                  ws: seq<World>): (Resolver, Option<seq<Item>>)
    requires |ws| == |steps|
  {
    if steps == [] then (r, Some([]))
    else
      var n := |steps| - 1;
      var (before, items) := Survey(r, team, steps[..n], ws[..n]);
      if items.None? || steps[n].None? then (before, items)
      else
        var (after, more) := StepItems(before, team, steps[n].value, Delays(steps), ws[n]);
        (after, if more.Some? then Some(items.value + more.value) else None)
  }

  // ---- what is promised ------------------------------------------------------------------

  // The first time the policy asks for this message.
  ghost predicate First(items: seq<Item>, k: nat)
    requires k < |items|
  {
    items[k].Wanted? && forall j :: 0 <= j < k && items[j].Wanted? ==> items[j].aim.Id() != items[k].aim.Id()
  }

  ghost function Cards(items: seq<Item>): seq<Planned> {
    if items == [] then []
    else
      var n := |items| - 1;
      Cards(items[..n]) + if First(items, n) then Whole(CardOf(items[n].aim)) else []
  }

  ghost function Notes(items: seq<Item>): seq<Unpromised> {
    if items == [] then []
    else
      var n := |items| - 1;
      Notes(items[..n]) +
      if items[n].Unable? then [Unpromised(items[n].step, items[n].reason, None)]
      else if First(items, n) then []
      else [Unpromised(items[n].aim.step, Duplicate, Some(items[n].aim.target))]
  }

  function FirehosePart(channel: string): seq<Planned> {
    if channel == "" then [] else Whole(FirehoseCard(channel))
  }

  // ---- the loop of the source ----------------------------------------------------------------

  // Every key of a wanted message so far.
  function Keys(items: seq<Item>): set<string> {
    if items == [] then {}
    else
      var last := items[|items| - 1];
      Keys(items[..|items| - 1]) + if last.Wanted? then {SlotTarget(last.aim.Id())} else {}
  }

  predicate Deliverable(items: seq<Item>) {
    forall k :: 0 <= k < |items| && items[k].Wanted? ==> SlashFree(items[k].aim.step.provider)
  }

  // Some earlier request has this identity.
  ghost predicate Asked(items: seq<Item>, id: Identity) {
    exists j :: 0 <= j < |items| && items[j].Wanted? && items[j].aim.Id() == id
  }

  lemma AskedGrows(items: seq<Item>, id: Identity)
    requires items != []
    ensures var last := items[|items| - 1];
            Asked(items, id) <==> Asked(items[..|items| - 1], id) || (last.Wanted? && last.aim.Id() == id)
  {
    var n := |items| - 1;
    if j :| 0 <= j < |items| && items[j].Wanted? && items[j].aim.Id() == id {
      if j < n { assert items[..n][j] == items[j]; }
    }
    if j :| 0 <= j < n && items[..n][j].Wanted? && items[..n][j].aim.Id() == id { assert items[j] == items[..n][j]; }
  }

  lemma {:induction false} KeysAreOfItems(items: seq<Item>, id: Identity)
    requires Deliverable(items) && SlashFree(id.provider)
    ensures SlotTarget(id) in Keys(items) <==> Asked(items, id)
  {
    if items != [] {
      var n := |items| - 1;
      assert Deliverable(items[..n]) by {
        forall k | 0 <= k < n ensures items[..n][k] == items[k] {}
      }
      KeysAreOfItems(items[..n], id);
      AskedGrows(items, id);
      if items[n].Wanted? { SlotTargetTells(items[n].aim.Id(), id); }
    }
  }

  // One recipient more: promised when its key is new, recorded otherwise.
  lemma {:induction false} OneMore(items: seq<Item>, aim: Aim)
    requires Deliverable(items) && SlashFree(aim.step.provider)
    ensures var seen := SlotTarget(aim.Id()) in Keys(items);
            && Cards(items + [Wanted(aim)]) == Cards(items) + (if seen then [] else Whole(CardOf(aim)))
            && Notes(items + [Wanted(aim)]) ==
               Notes(items) + (if seen then [Unpromised(aim.step, Duplicate, Some(aim.target))] else [])
            && Keys(items + [Wanted(aim)]) == Keys(items) + {SlotTarget(aim.Id())}
            && Deliverable(items + [Wanted(aim)])
  {
    var more := items + [Wanted(aim)];
    assert more[..|more| - 1] == items;
    KeysAreOfItems(items, aim.Id());
    assert First(more, |items|) <==> SlotTarget(aim.Id()) !in Keys(items);
  }

  lemma {:induction false} OneUnable(items: seq<Item>, step: Step, reason: Reason)
    requires Deliverable(items)
    ensures var more := items + [Unable(step, reason)];
            && Cards(more) == Cards(items)
            && Notes(more) == Notes(items) + [Unpromised(step, reason, None)]
            && Keys(more) == Keys(items) && Deliverable(more)
  {
    var more := items + [Unable(step, reason)];
    assert more[..|more| - 1] == items;
  }

  lemma DeliveredProvidersAreSlashFree(provider: string)
    requires DeliversThrough(provider)
    ensures SlashFree(provider)
  {
  }

  method Satellites(card: Planned) returns (out: seq<Planned>)
    ensures out == SatellitesOf(card)
  {
    var c := card.commitment;
    if c.id.provider != SLACK || c.id.target.kind != ToChannel || !c.editable {
      return [];
    }
    out := [];
    var kinds := [ToThread, ToThreadReply];
    for i := 0 to 2
      invariant out == seq(i, (k: int) requires 0 <= k < i => SatelliteOf(card, kinds[k]))
    {
      out := out + [SatelliteOf(card, kinds[i])];
    }
  }

  // One recipient: promised, unless this plan already promised it.
  method PromiseOne(aim: Aim, seen: set<string>, ghost items: seq<Item>)
    returns (more: seq<Planned>, without: seq<Unpromised>, keys: set<string>)
    requires DeliversThrough(aim.step.provider) && Deliverable(items) && seen == Keys(items)
    ensures Cards(items + [Wanted(aim)]) == Cards(items) + more
    ensures Notes(items + [Wanted(aim)]) == Notes(items) + without
    ensures keys == Keys(items + [Wanted(aim)]) && Deliverable(items + [Wanted(aim)])
  {
    DeliveredProvidersAreSlashFree(aim.step.provider);
    OneMore(items, aim);
    var key := SlotTarget(aim.Id());
    if key in seen {
      return [], [Unpromised(aim.step, Duplicate, Some(aim.target))], seen + {key};
    }
    var satellites := Satellites(CardOf(aim));
    return [CardOf(aim)] + satellites, [], seen + {key};
  }

  lemma Append<T>(a: seq<T>, b: seq<T>, c: seq<T>)
    ensures a + (b + c) == (a + b) + c
  {
  }

  // The recipients of one step, in order. items is what was asked for before it.
  method PromiseEach(step: Step, offset: int, targets: seq<Target>, seenBefore: set<string>, ghost items: seq<Item>)
    returns (out: seq<Planned>, unpromised: seq<Unpromised>, seen: set<string>)
    requires DeliversThrough(step.provider) && Deliverable(items) && seenBefore == Keys(items)
    ensures Cards(items + Aims(step, offset, targets)) == Cards(items) + out
    ensures Notes(items + Aims(step, offset, targets)) == Notes(items) + unpromised
    ensures seen == Keys(items + Aims(step, offset, targets)) && Deliverable(items + Aims(step, offset, targets))
  {
    out, unpromised, seen := [], [], seenBefore;
    ghost var now, cards, notes := items, Cards(items), Notes(items);
    for i := 0 to |targets|
      invariant now == items + Aims(step, offset, targets[..i])
      invariant Deliverable(now) && seen == Keys(now)
      invariant Cards(now) == cards + out && Notes(now) == notes + unpromised
    {
      var more, without, keys := PromiseOne(Aim(step, offset, targets[i]), seen, now);
      AimsGrow(step, offset, targets, i);
      Append(items, Aims(step, offset, targets[..i]), [Wanted(Aim(step, offset, targets[i]))]);
      Append(cards, out, more);
      Append(notes, unpromised, without);
      out, unpromised, seen, now :=
        out + more, unpromised + without, keys, now + [Wanted(Aim(step, offset, targets[i]))];
    }
    assert targets[..|targets|] == targets;
  }

  lemma AimsGrow(step: Step, offset: int, targets: seq<Target>, i: nat)
    requires i < |targets|
    ensures Aims(step, offset, targets[..i + 1]) ==
            Aims(step, offset, targets[..i]) + [Wanted(Aim(step, offset, targets[i]))]
  {
    assert targets[..i + 1][..i] == targets[..i];
  }

  method TargetsOf(users: seq<User>) returns (out: seq<Target>)
    ensures out == UserTargets(users)
  {
    out := [];
    for i := 0 to |users|
      invariant UserTargets(users) == out + UserTargets(users[i..])
    {
      assert users[i..][0] == users[i] && users[i..][1..] == users[i + 1..];
      out := out + [Target(ToUser, users[i].id)];
    }
  }

  method RecipientsOf(resolver: ScheduleResolver, step: Step, w: World) returns (targets: Option<seq<Target>>)
    modifies resolver, resolver.people
    ensures (resolver.Memo(), targets) == Recipients(old(resolver.Memo()), resolver.team, step, w)
  {
    if step.targetType == "schedule" {
      var answer := resolver.UsersFor(step.targetID, w);
      if answer.Fails? {
        return None;
      }
      var out := TargetsOf(answer.users);
      return Some(out);
    }
    if step.targetID == "" {
      return Some([]);
    }
    return Some([Target(if step.targetType == "channel" then ToChannel else ToUser, step.targetID)]);
  }

  // The two lists and the keys so far are those of what was asked for so far.
  ghost predicate Keeps(items: seq<Item>, out: seq<Planned>, unpromised: seq<Unpromised>, seen: set<string>) {
    out == Cards(items) && unpromised == Notes(items) && seen == Keys(items) && Deliverable(items)
  }

  // What one step asks for, and where that leaves the resolver.
  ghost predicate Asks(before: Resolver, team: TeamOnCall, step: Step, offset: int, w: World, after: Resolver,
                       asked: Option<seq<Item>>) {
    StepItems(before, team, step, offset, w) == (after, asked)
  }

  // One step of the policy: what it adds to the two lists, or that it could not be
  // decided.
  method CommitStep(resolver: ScheduleResolver, step: Step, offset: int, w: World,
                    before: seq<Planned>, notes: seq<Unpromised>, keys: set<string>, ghost items: seq<Item>)
    returns (ok: bool, out: seq<Planned>, unpromised: seq<Unpromised>, seen: set<string>, ghost asked: seq<Item>)
    requires Keeps(items, before, notes, keys)
    modifies resolver, resolver.people
    ensures Asks(old(resolver.Memo()), resolver.team, step, offset, w, resolver.Memo(),
            if ok then Some(asked) else None)
    ensures ok ==> Keeps(items + asked, out, unpromised, seen)
  {
    ok, out, unpromised, seen, asked := true, before, notes, keys, [];
    if !DeliversThrough(step.provider) {
      OneUnable(items, step, NoChannel);
      asked := [Unable(step, NoChannel)];
      unpromised := unpromised + [Unpromised(step, NoChannel, None)];
      return;
    }
    var targets := RecipientsOf(resolver, step, w);
    if targets.None? {
      ok := false;
      return;
    }
    if targets.value == [] {
      var reason := if step.targetType == "schedule" then NobodyOnCall else NoTarget;
      OneUnable(items, step, reason);
      asked := [Unable(step, reason)];
      unpromised := unpromised + [Unpromised(step, reason, None)];
      return;
    }
    var more, without;
    more, without, seen := PromiseEach(step, offset, targets.value, seen, items);
    asked := Aims(step, offset, targets.value);
    out, unpromised := out + more, unpromised + without;
  }

  lemma SurveyStep(r: Resolver, team: TeamOnCall, steps: seq<Option<Step>>, ws: seq<World>, n: nat)
    requires n < |steps| == |ws|
    ensures var (before, items) := Survey(r, team, steps[..n], ws[..n]);
            Survey(r, team, steps[..n + 1], ws[..n + 1]) ==
            if items.None? || steps[n].None? then (before, items)
            else
              var (after, more) := StepItems(before, team, steps[n].value, Delays(steps[..n + 1]), ws[n]);
              (after, if more.Some? then Some(items.value + more.value) else None)
    ensures Delays(steps[..n + 1]) == Delays(steps[..n]) + if steps[n].Some? then steps[n].value.delay else 0
  {
    assert steps[..n + 1][..n] == steps[..n] && ws[..n + 1][..n] == ws[..n];
  }

  // What the first n steps asked for, and where that leaves the resolver.
  ghost predicate Surveyed(start: Resolver, team: TeamOnCall, steps: seq<Option<Step>>, ws: seq<World>, n: nat,
                           now: Resolver, items: seq<Item>)
    requires n <= |steps| == |ws|
  {
    Survey(start, team, steps[..n], ws[..n]) == (now, Some(items))
  }

  lemma SurveyedNone(start: Resolver, team: TeamOnCall, steps: seq<Option<Step>>, ws: seq<World>, n: nat,
                     now: Resolver, items: seq<Item>)
    requires n < |steps| == |ws| && steps[n].None? && Surveyed(start, team, steps, ws, n, now, items)
    ensures Surveyed(start, team, steps, ws, n + 1, now, items)
  {
    SurveyStep(start, team, steps, ws, n);
  }

  lemma SurveyedSome(start: Resolver, team: TeamOnCall, steps: seq<Option<Step>>, ws: seq<World>, n: nat,
                     before: Resolver, items: seq<Item>,
                     after: Resolver, asked: Option<seq<Item>>)
    requires n < |steps| == |ws| && steps[n].Some? && Surveyed(start, team, steps, ws, n, before, items)
    requires Asks(before, team, steps[n].value, Delays(steps[..n + 1]), ws[n], after, asked)
    ensures asked.Some? ==> Surveyed(start, team, steps, ws, n + 1, after, items + asked.value)
    ensures asked.None? ==> Survey(start, team, steps, ws) == (after, None)
  {
    SurveyStep(start, team, steps, ws, n);
    if asked.None? { SurveyFailsOn(start, team, steps, ws, n + 1); }
  }

  lemma DelaysStep(steps: seq<Option<Step>>, n: nat)
    requires n < |steps|
    ensures Delays(steps[..n + 1]) == Delays(steps[..n]) + if steps[n].Some? then steps[n].value.delay else 0
  {
    assert steps[..n + 1][..n] == steps[..n];
  }

  // What the loop over the steps carries.
  datatype Progress = Progress(offset: int, out: seq<Planned>, unpromised: seq<Unpromised>, seen: set<string>)

  ghost predicate Reached(start: Resolver, team: TeamOnCall, steps: seq<Option<Step>>, ws: seq<World>, n: nat,
                          now: Resolver,
                          items: seq<Item>, p: Progress)
    requires n <= |steps| == |ws|
  {
    && Surveyed(start, team, steps, ws, n, now, items)
    && p.offset == Delays(steps[..n]) && Keeps(items, p.out, p.unpromised, p.seen)
  }

  // One turn of the loop. A step that is not promised still moves the offset.
  method NextStep(resolver: ScheduleResolver, steps: seq<Option<Step>>, ws: seq<World>, n: nat, p: Progress,
                  ghost start: Resolver, ghost items: seq<Item>)
    returns (ok: bool, q: Progress, ghost more: seq<Item>)
    requires n < |steps| == |ws| && Reached(start, resolver.team, steps, ws, n, resolver.Memo(), items, p)
    modifies resolver, resolver.people
    ensures ok ==> Reached(start, resolver.team, steps, ws, n + 1, resolver.Memo(), more, q)
    ensures !ok ==> Survey(start, resolver.team, steps, ws) == (resolver.Memo(), None)
  {
    ok, q, more := true, p, items;
    ghost var before := resolver.Memo();
    DelaysStep(steps, n);
    if steps[n].None? {
      SurveyedNone(start, resolver.team, steps, ws, n, before, items);
      return;
    }
    var offset := p.offset + steps[n].value.delay;
    var out, unpromised, seen;
    ghost var asked;
    ok, out, unpromised, seen, asked :=
      CommitStep(resolver, steps[n].value, offset, ws[n], p.out, p.unpromised, p.seen, items);
    SurveyedSome(start, resolver.team, steps, ws, n, before, items, resolver.Memo(), if ok then Some(asked) else None);
    q, more := Progress(offset, out, unpromised, seen), items + asked;
  }

  // The steps in order. The offset is cumulative from the admission.
  method PromiseSteps(resolver: ScheduleResolver, steps: seq<Option<Step>>, ws: seq<World>)
    returns (ok: bool, out: seq<Planned>, unpromised: seq<Unpromised>, ghost items: seq<Item>)
    requires |ws| == |steps|
    modifies resolver, resolver.people
    ensures Survey(old(resolver.Memo()), resolver.team, steps, ws) ==
            (resolver.Memo(), if ok then Some(items) else None)
    ensures ok ==> out == Cards(items) && unpromised == Notes(items)
  {
    ok, items := true, [];
    ghost var start := resolver.Memo();
    var p := Progress(0, [], [], {});
    for i := 0 to |steps|
      invariant Reached(start, resolver.team, steps, ws, i, resolver.Memo(), items, p)
    {
      ok, p, items := NextStep(resolver, steps, ws, i, p, start, items);
      if !ok {
        return false, [], [], [];
      }
    }
    assert steps[..|steps|] == steps && ws[..|ws|] == ws;
    return true, p.out, p.unpromised, items;
  }

  // policy is None when there is no policy to run. The two lists are exactly the
  // first occurrences of what the policy asks for, and everything else it asked for.
  method Commitments(firehose: string, people: RosterTable, team: TeamOnCall, policy: Option<seq<Option<Step>>>,
                     ws: seq<World>)
    returns (ok: bool, out: seq<Planned>, unpromised: seq<Unpromised>)
    requires policy.Some? ==> |ws| == |policy.value|
    modifies people
    ensures policy.None? ==>
              ok && out == FirehosePart(firehose) && unpromised == [] && people.known == old(people.known)
    ensures policy.Some? ==>
              var (after, items) := Survey(Resolver(old(people.known), None, map[]), team, policy.value, ws);
              && people.known == after.known && ok == items.Some?
              && (ok ==> out == FirehosePart(firehose) + Cards(items.value) && unpromised == Notes(items.value))
  {
    ok, out, unpromised := true, [], [];
    if firehose != "" {
      var satellites := Satellites(FirehoseCard(firehose));
      out := out + [FirehoseCard(firehose)] + satellites;
    }
    if policy.None? {
      return;
    }
    var resolver := new ScheduleResolver(people, team);
    ghost var items;
    var cards, notes;
    ok, cards, notes, items := PromiseSteps(resolver, policy.value, ws);
    if !ok {
      return false, [], [];
    }
    return true, out + cards, notes;
  }

  // A question that could not be answered ends the plan.
  lemma {:induction false} SurveyFailsOn(r: Resolver, team: TeamOnCall, steps: seq<Option<Step>>, ws: seq<World>,
                                         n: nat)
    requires n <= |steps| == |ws| && Survey(r, team, steps[..n], ws[..n]).1.None?
    ensures Survey(r, team, steps, ws) == Survey(r, team, steps[..n], ws[..n])
    decreases |steps| - n
  {
    if n == |steps| {
      assert steps[..n] == steps && ws[..n] == ws;
    } else {
      assert steps[..n + 1][..n] == steps[..n] && ws[..n + 1][..n] == ws[..n];
      SurveyFailsOn(r, team, steps, ws, n + 1);
    }
  }
}
