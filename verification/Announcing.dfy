// Turning a detected shift change into an announcement (internal/handoff/builder.go):
// one recipient per person per provider that can carry it, one reason for each
// person nothing can reach.

module Announcing {
  import opened Order
  import opened Composition

  // A link of a person to an account at a provider. A link may come back nil.
  datatype Link = Link(provider: string, externalID: string)

  type Links = seq<Option<Link>>

  // What each registered provider can be aimed at; None when no catalog is wired.
  type Catalog = Option<map<string, seq<string>>>

  // From the reason that says most to the one that says least.
  datatype Reason = NoDMCapability | UnknownProvider | IdentityIncomplete | NoIdentity

  datatype Recipient = Recipient(provider: string, user: string)

  datatype Skipped = Skipped(user: string, reason: Reason)

  // Every field is identity.
  datatype Occurrence = Occurrence(
    kind: Kind, scheduleID: string, source: string, groupID: string, users: seq<string>, start: int, revision: string)

  datatype Announcement = Announcement(
    occurrence: Occurrence, teamName: string, timezone: string, gridStart: int, end: int, maxAge: int,
    recipients: seq<Recipient>)

  // One hour, in seconds.
  const MAX_AGE: int := 3600

  predicate Registered(catalog: Catalog, provider: string) {
    catalog.Some? && provider in catalog.value
  }

  predicate CarriesDM(catalog: Catalog, provider: string) {
    Registered(catalog, provider) && "dm" in catalog.value[provider]
  }

  predicate Usable(catalog: Catalog, link: Option<Link>) {
    link.Some? && link.value.externalID != "" && CarriesDM(catalog, link.value.provider)
  }

  // ---- who can be reached, and through what -----------------------------------------

  function UsableProviders(catalog: Catalog, linked: Links): seq<string> {
    if linked == [] then []
    else
      var last := linked[|linked| - 1];
      UsableProviders(catalog, linked[..|linked| - 1]) + if Usable(catalog, last) then [last.value.provider] else []
  }

  function Reachable(catalog: Catalog, linked: Links): seq<string> {
    Sort(BY_STRING, UsableProviders(catalog, linked))
  }

  method ReachableThrough(catalog: Catalog, linked: Links) returns (out: seq<string>)
    ensures out == Reachable(catalog, linked)
  {
    out := [];
    for i := 0 to |linked|
      invariant out == UsableProviders(catalog, linked[..i])
    {
      assert linked[..i + 1][..i] == linked[..i];
      if linked[i].None? || linked[i].value.externalID == "" || !CarriesDM(catalog, linked[i].value.provider) {
        continue;
      }
      out := out + [linked[i].value.provider];
    }
    assert linked[..|linked|] == linked;
    out := Sort(BY_STRING, out);
  }

  // The four passes of the source.
  method WhyUnreachable(catalog: Catalog, linked: Links) returns (reason: Reason)
    ensures reason == Why(catalog, linked)
  {
    for i := 0 to |linked|
      invariant forall k :: 0 <= k < i ==> !SaysNoDM(catalog, linked[k])
    {
      if linked[i].Some? && Registered(catalog, linked[i].value.provider)
        && !CarriesDM(catalog, linked[i].value.provider) {
        return NoDMCapability;
      }
    }
    for i := 0 to |linked|
      invariant forall k :: 0 <= k < i ==> !SaysUnknown(catalog, linked[k])
    {
      if linked[i].Some? && !Registered(catalog, linked[i].value.provider) {
        return UnknownProvider;
      }
    }
    for i := 0 to |linked|
      invariant forall k :: 0 <= k < i ==> !SaysIncomplete(linked[k])
    {
      if linked[i].Some? && linked[i].value.externalID == "" {
        return IdentityIncomplete;
      }
    }
    return NoIdentity;
  }

  predicate SaysNoDM(catalog: Catalog, link: Option<Link>) {
    link.Some? && Registered(catalog, link.value.provider) && !CarriesDM(catalog, link.value.provider)
  }

  predicate SaysUnknown(catalog: Catalog, link: Option<Link>) {
    link.Some? && !Registered(catalog, link.value.provider)
  }

  predicate SaysIncomplete(link: Option<Link>) {
    link.Some? && link.value.externalID == ""
  }

  function Why(catalog: Catalog, linked: Links): Reason {
    if exists k :: 0 <= k < |linked| && SaysNoDM(catalog, linked[k]) then NoDMCapability
    else if exists k :: 0 <= k < |linked| && SaysUnknown(catalog, linked[k]) then UnknownProvider
    else if exists k :: 0 <= k < |linked| && SaysIncomplete(linked[k]) then IdentityIncomplete
    else NoIdentity
  }

  // ---- the reason is the person's, not a link's ---------------------------------------

  // What one link on its own says about a person it does not reach.
  function Says(catalog: Catalog, link: Option<Link>): Reason {
    if link.None? then NoIdentity
    else if catalog.None? || link.value.provider !in catalog.value then UnknownProvider
    else if "dm" !in catalog.value[link.value.provider] then NoDMCapability
    else IdentityIncomplete
  }

  function Rank(r: Reason): nat {
    match r
    case NoDMCapability => 0
    case UnknownProvider => 1
    case IdentityIncomplete => 2
    case NoIdentity => 3
  }

  lemma {:induction false} UsableAre(catalog: Catalog, linked: Links, p: string)
    ensures p in UsableProviders(catalog, linked) <==>
              exists k :: 0 <= k < |linked| && Usable(catalog, linked[k]) && linked[k].value.provider == p
  {
    if linked != [] {
      var n := |linked| - 1;
      UsableAre(catalog, linked[..n], p);
      if k :| 0 <= k < |linked| && Usable(catalog, linked[k]) && linked[k].value.provider == p {
        assert k < n ==> linked[..n][k] == linked[k];
      }
    }
  }

  lemma {:induction false} ReachableAre(catalog: Catalog, linked: Links, p: string)
    ensures Sorted(BY_STRING, Reachable(catalog, linked))
    ensures p in Reachable(catalog, linked) <==>
              exists k :: 0 <= k < |linked| && Usable(catalog, linked[k]) && linked[k].value.provider == p
  {
    UsableAre(catalog, linked, p);
    ByStringIsTotal();
    SortIsSortedPermutation(BY_STRING, UsableProviders(catalog, linked));
    assert p in multiset(Reachable(catalog, linked)) <==> p in multiset(UsableProviders(catalog, linked));
  }

  // A provider reaches a person when they have an account there with an id, and the
  // catalog says direct messages can be sent through it.
  lemma {:induction false} WhoIsReached(catalog: Catalog, linked: Links, p: string)
    ensures p in Reachable(catalog, linked) <==>
              && catalog.Some? && p in catalog.value && "dm" in catalog.value[p]
              && exists k :: 0 <= k < |linked| && linked[k].Some? && linked[k].value.provider == p
                             && linked[k].value.externalID != ""
  {
    ReachableAre(catalog, linked, p);
    if k :| 0 <= k < |linked| && linked[k].Some? && linked[k].value.provider == p && linked[k].value.externalID != "" {
      assert CarriesDM(catalog, p) ==> Usable(catalog, linked[k]);
    }
  }

  lemma {:induction false} UnreachableHasNoUsableLink(catalog: Catalog, linked: Links)
    ensures Reachable(catalog, linked) == [] <==> forall k :: 0 <= k < |linked| ==> !Usable(catalog, linked[k])
  {
    ByStringIsTotal();
    SortIsSortedPermutation(BY_STRING, UsableProviders(catalog, linked));
    forall k | 0 <= k < |linked| && Usable(catalog, linked[k]) ensures Reachable(catalog, linked) != [] {
      ReachableAre(catalog, linked, linked[k].value.provider);
    }
    var p := if Reachable(catalog, linked) == [] then "" else Reachable(catalog, linked)[0];
    ReachableAre(catalog, linked, p);
  }

  // The reason given for somebody nothing reaches is the one that says most among
  // all their links, and "no identity" exactly when there is no link at all.
  lemma {:induction false} TheReasonThatSaysMost(catalog: Catalog, linked: Links)
    requires Reachable(catalog, linked) == []
    ensures forall k :: 0 <= k < |linked| ==> Rank(Why(catalog, linked)) <= Rank(Says(catalog, linked[k]))
    ensures Why(catalog, linked) == NoIdentity <==> forall k :: 0 <= k < |linked| ==> linked[k].None?
    ensures Why(catalog, linked) != NoIdentity ==>
              exists k :: 0 <= k < |linked| && Says(catalog, linked[k]) == Why(catalog, linked)
  {
    UnreachableHasNoUsableLink(catalog, linked);
    forall k | 0 <= k < |linked| && linked[k].Some?
      ensures Says(catalog, linked[k]) == IdentityIncomplete ==> SaysIncomplete(linked[k])
      ensures SaysNoDM(catalog, linked[k]) <==> Says(catalog, linked[k]) == NoDMCapability
      ensures SaysUnknown(catalog, linked[k]) <==> Says(catalog, linked[k]) == UnknownProvider
    {
      assert !Usable(catalog, linked[k]);
    }
    if k :| 0 <= k < |linked| && SaysIncomplete(linked[k]) {
      assert Why(catalog, linked) == IdentityIncomplete ==> Says(catalog, linked[k]) == IdentityIncomplete;
    }
  }

  // Neither answer depends on the order the links came back in.
  lemma {:induction false} LinkOrderDoesNotMatter(catalog: Catalog, a: Links, b: Links)
    requires multiset(a) == multiset(b)
    ensures Reachable(catalog, a) == Reachable(catalog, b)
    ensures Why(catalog, a) == Why(catalog, b)
  {
    UsableOfPermutation(catalog, a, b);
    SortOfPermutation(UsableProviders(catalog, a), UsableProviders(catalog, b));
    SameLinks(a, b);
    SameLinks(b, a);
    WhyOfMore(catalog, a, b);
    WhyOfMore(catalog, b, a);
  }

  lemma {:induction false} SortOfPermutation(x: seq<string>, y: seq<string>)
    requires multiset(x) == multiset(y)
    ensures Sort(BY_STRING, x) == Sort(BY_STRING, y)
  {
    ByStringIsTotal();
    SortIsSortedPermutation(BY_STRING, x);
    SortIsSortedPermutation(BY_STRING, y);
    forall p: string, q: string | BY_STRING(p, q) && BY_STRING(q, p) ensures p == q { StrLeAntisymmetric(p, q); }
    SortedUnique(BY_STRING, Sort(BY_STRING, x), Sort(BY_STRING, y));
  }

  lemma {:induction false} SameLinks(a: Links, b: Links)
    requires multiset(a) == multiset(b)
    ensures forall x :: x in a ==> x in b
  {
    forall x | x in a ensures x in b { assert x in multiset(a); }
  }

  // More links never make the reason say less.
  lemma {:induction false} WhyOfMore(catalog: Catalog, a: Links, b: Links)
    requires forall x :: x in a ==> x in b
    ensures Rank(Why(catalog, b)) <= Rank(Why(catalog, a))
  {
    if k :| 0 <= k < |a| && SaysNoDM(catalog, a[k]) { assert a[k] in b; }
    if k :| 0 <= k < |a| && SaysUnknown(catalog, a[k]) { assert a[k] in b; }
    if k :| 0 <= k < |a| && SaysIncomplete(a[k]) { assert a[k] in b; }
  }

  lemma {:induction false} UsableOfPermutation(catalog: Catalog, a: Links, b: Links)
    requires multiset(a) == multiset(b)
    ensures multiset(UsableProviders(catalog, a)) == multiset(UsableProviders(catalog, b))
  {
    forall p ensures multiset(UsableProviders(catalog, a))[p] == multiset(UsableProviders(catalog, b))[p] {
      UsableCount(catalog, a, p);
      UsableCount(catalog, b, p);
      CountOfPermutation(catalog, a, b, p);
    }
  }

  // How many links reach a person through p.
  function Through(catalog: Catalog, linked: Links, p: string): nat {
    if linked == [] then 0
    else
      var last := linked[|linked| - 1];
      Through(catalog, linked[..|linked| - 1], p) + if Usable(catalog, last) && last.value.provider == p then 1 else 0
  }

  lemma {:induction false} UsableCount(catalog: Catalog, linked: Links, p: string)
    ensures multiset(UsableProviders(catalog, linked))[p] == Through(catalog, linked, p)
  {
    if linked != [] { UsableCount(catalog, linked[..|linked| - 1], p); }
  }

  lemma {:induction false} CountOfPermutation(catalog: Catalog, a: Links, b: Links, p: string)
    requires multiset(a) == multiset(b)
    ensures Through(catalog, a, p) == Through(catalog, b, p)
  {
    if a == [] {
      assert |multiset(b)| == 0;
    } else {
      var j := PermutationWithout(a, b);
      CountOfPermutation(catalog, a[..|a| - 1], b[..j] + b[j + 1..], p);
      ThroughWithout(catalog, b, j, p);
    }
  }

  lemma PermutationWithout<T>(a: seq<T>, b: seq<T>) returns (j: nat)
    requires a != [] && multiset(a) == multiset(b)
    ensures j < |b| && b[j] == a[|a| - 1] && multiset(a[..|a| - 1]) == multiset(b[..j] + b[j + 1..])
  {
    var x := a[|a| - 1];
    assert x in multiset(b);
    j :| 0 <= j < |b| && b[j] == x;
    assert a == a[..|a| - 1] + [x] && b == b[..j] + [b[j]] + b[j + 1..];
    assert multiset(a) == multiset(a[..|a| - 1]) + multiset{x};
    assert multiset(b) == multiset(b[..j] + b[j + 1..]) + multiset{x};
    Cancel(multiset(a[..|a| - 1]), multiset(b[..j] + b[j + 1..]), x);
  }

  lemma {:induction false} ThroughWithout(catalog: Catalog, b: Links, j: nat, p: string)
    requires j < |b|
    ensures Through(catalog, b, p) ==
            Through(catalog, b[..j] + b[j + 1..], p) +
              if Usable(catalog, b[j]) && b[j].value.provider == p then 1 else 0
  {
    var upTo := b[..j + 1];
    assert b == upTo + b[j + 1..] && upTo[..|upTo| - 1] == b[..j];
    ThroughOfConcat(catalog, upTo, b[j + 1..], p);
    ThroughOfConcat(catalog, b[..j], b[j + 1..], p);
  }

  lemma {:induction false} ThroughOfConcat(catalog: Catalog, a: Links, b: Links, p: string)
    ensures Through(catalog, a + b, p) == Through(catalog, a, p) + Through(catalog, b, p)
  {
    if b == [] {
      assert a + b == a;
    } else {
      assert (a + b)[..|a + b| - 1] == a + b[..|b| - 1];
      ThroughOfConcat(catalog, a, b[..|b| - 1], p);
    }
  }

  // ---- building ----------------------------------------------------------------------------

  type Book = map<string, Links>

  function LinksOf(book: Book, user: string): Links {
    if user in book then book[user] else []
  }

  function ForProviders(user: string, providers: seq<string>): seq<Recipient> {
    if providers == [] then []
    else ForProviders(user, providers[..|providers| - 1]) + [Recipient(providers[|providers| - 1], user)]
  }

  function Recipients(catalog: Catalog, book: Book, notify: seq<string>): seq<Recipient> {
    if notify == [] then []
    else
      var last := notify[|notify| - 1];
      Recipients(catalog, book, notify[..|notify| - 1]) + ForProviders(last, Reachable(catalog, LinksOf(book, last)))
  }

  function LeftOut(catalog: Catalog, book: Book, notify: seq<string>): seq<Skipped> {
    if notify == [] then []
    else
      var last := notify[|notify| - 1];
      LeftOut(catalog, book, notify[..|notify| - 1]) +
      if Reachable(catalog, LinksOf(book, last)) == [] then [Skipped(last, Why(catalog, LinksOf(book, last)))] else []
  }

  function OccurrenceOf(kind: Kind, p: Projected, next: Observation): Occurrence {
    Occurrence(kind, p.scheduleID, next.duty.source, next.duty.groupID, next.duty.users, next.start, next.revision)
  }

  // What the grammar asks of an announcement (internal/outbound/keys/handoff.go). A
  // zero instant is one that was never set; validZone is the zone's own check.
  predicate Speakable(a: Announcement, validZone: bool) {
    && a.occurrence.scheduleID != "" && a.occurrence.start != 0 && a.end != 0
    && (forall u :: u in a.occurrence.users ==> u != "")
    && (a.recipients != [] ==> validZone && a.gridStart != 0)
    && (forall r :: r in a.recipients ==> r.provider != "" && r.user in a.occurrence.users)
    && (forall i, j :: 0 <= i < j < |a.recipients| ==> a.recipients[i] != a.recipients[j])
  }

  function AnnouncementOf(catalog: Catalog, kind: Kind, p: Projected, notify: seq<string>, next: Observation,
                          teamName: string, book: Book): Announcement {
    Announcement(OccurrenceOf(kind, p, next), teamName, p.timezone, next.gridStart, next.end, MAX_AGE,
                 Recipients(catalog, book, notify))
  }

  datatype Built = Built(announcement: Announcement, left: seq<Skipped>) | NotBuilt

  function BuiltOf(catalog: Catalog, kind: Kind, p: Projected, notify: seq<string>, next: Observation, teamName: string,
                   book: Option<Book>, validZone: bool): Built {
    if book.None? then NotBuilt
    else
      var a := AnnouncementOf(catalog, kind, p, notify, next, teamName, book.value);
      if Speakable(a, validZone) then Built(a, LeftOut(catalog, book.value, notify)) else NotBuilt
  }

  // book is None when the identities could not be read.
  method Build(catalog: Catalog, kind: Kind, p: Projected, notify: seq<string>, next: Observation, teamName: string,
               book: Option<Book>, validZone: bool) returns (built: Built)
    ensures built == BuiltOf(catalog, kind, p, notify, next, teamName, book, validZone)
  {
    if book.None? {
      return NotBuilt;
    }
    var recipients: seq<Recipient> := [];
    var left: seq<Skipped> := [];
    for i := 0 to |notify|
      invariant recipients == Recipients(catalog, book.value, notify[..i])
      invariant left == LeftOut(catalog, book.value, notify[..i])
    {
      assert notify[..i + 1][..i] == notify[..i];
      var linked := LinksOf(book.value, notify[i]);
      var providers := ReachableThrough(catalog, linked);
      if |providers| == 0 {
        var reason := WhyUnreachable(catalog, linked);
        left := left + [Skipped(notify[i], reason)];
        continue;
      }
      var more := EachProvider(notify[i], providers);
      recipients := recipients + more;
    }
    assert notify[..|notify|] == notify;
    var a := Announcement(OccurrenceOf(kind, p, next), teamName, p.timezone, next.gridStart, next.end, MAX_AGE,
                          recipients);
    if !Speakable(a, validZone) {
      return NotBuilt;
    }
    return Built(a, left);
  }

  method EachProvider(user: string, providers: seq<string>) returns (out: seq<Recipient>)
    ensures out == ForProviders(user, providers)
  {
    out := [];
    for i := 0 to |providers|
      invariant out == ForProviders(user, providers[..i])
    {
      assert providers[..i + 1][..i] == providers[..i];
      out := out + [Recipient(providers[i], user)];
    }
    assert providers[..|providers|] == providers;
  }

  // ---- the audience is partitioned -----------------------------------------------------------

  lemma {:induction false} TimesFor(who: string, providers: seq<string>, r: Recipient)
    ensures multiset(ForProviders(who, providers))[r] == if r.user == who then multiset(providers)[r.provider] else 0
  {
    if providers != [] {
      TimesFor(who, providers[..|providers| - 1], r);
      assert providers == providers[..|providers| - 1] + [providers[|providers| - 1]];
    }
  }

  lemma OneMoreTime(notify: seq<string>, user: string, each: nat)
    requires notify != []
    ensures multiset(notify)[user] == multiset(notify[..|notify| - 1])[user] +
            if notify[|notify| - 1] == user then 1 else 0
    ensures multiset(notify)[user] * each ==
            multiset(notify[..|notify| - 1])[user] * each + if notify[|notify| - 1] == user then each else 0
  {
    assert notify == notify[..|notify| - 1] + [notify[|notify| - 1]];
  }

  lemma {:induction false} EnteredTimes(catalog: Catalog, book: Book, notify: seq<string>, r: Recipient)
    ensures multiset(Recipients(catalog, book, notify))[r] ==
            multiset(notify)[r.user] * multiset(Reachable(catalog, LinksOf(book, r.user)))[r.provider]
  {
    if notify != [] {
      var rest, last := notify[..|notify| - 1], notify[|notify| - 1];
      EnteredTimes(catalog, book, rest, r);
      TimesFor(last, Reachable(catalog, LinksOf(book, last)), r);
      OneMoreTime(notify, r.user, multiset(Reachable(catalog, LinksOf(book, r.user)))[r.provider]);
    }
  }

  function TheirReason(catalog: Catalog, linked: Links): Option<Reason> {
    if Reachable(catalog, linked) == [] then Some(Why(catalog, linked)) else None
  }

  lemma {:induction false} LeftOutTimes(catalog: Catalog, book: Book, notify: seq<string>, s: Skipped)
    ensures multiset(LeftOut(catalog, book, notify))[s] ==
            if TheirReason(catalog, LinksOf(book, s.user)) == Some(s.reason) then multiset(notify)[s.user] else 0
  {
    if notify != [] {
      var rest, last := notify[..|notify| - 1], notify[|notify| - 1];
      LeftOutTimes(catalog, book, rest, s);
      OneMoreTime(notify, s.user, 1);
      var one := TheirReason(catalog, LinksOf(book, last));
      OneMoreSkip(LeftOut(catalog, book, rest), last, one, s);
    }
  }

  lemma OneMoreSkip(left: seq<Skipped>, who: string, one: Option<Reason>, s: Skipped)
    ensures multiset(left + if one.Some? then [Skipped(who, one.value)] else [])[s] ==
            multiset(left)[s] + if s.user == who && one == Some(s.reason) then 1 else 0
  {
  }

  // Everybody to be told is entered once for each usable link, at its provider, or
  // left out once with their own reason - as often as they are named. Nobody else is
  // either.
  lemma {:induction false} AudienceIsPartitioned(catalog: Catalog, book: Book, notify: seq<string>, user: string)
    ensures forall p :: multiset(Recipients(catalog, book, notify))[Recipient(p, user)] ==
                        multiset(notify)[user] * multiset(Reachable(catalog, LinksOf(book, user)))[p]
    ensures forall w :: multiset(LeftOut(catalog, book, notify))[Skipped(user, w)] ==
                        if TheirReason(catalog, LinksOf(book, user)) == Some(w) then multiset(notify)[user] else 0
  {
    forall p ensures multiset(Recipients(catalog, book, notify))[Recipient(p, user)] ==
                     multiset(notify)[user] * multiset(Reachable(catalog, LinksOf(book, user)))[p]
    {
      EnteredTimes(catalog, book, notify, Recipient(p, user));
    }
    forall w ensures multiset(LeftOut(catalog, book, notify))[Skipped(user, w)] ==
                     if TheirReason(catalog, LinksOf(book, user)) == Some(w) then multiset(notify)[user] else 0
    {
      LeftOutTimes(catalog, book, notify, Skipped(user, w));
    }
  }

  lemma {:induction false} NoDupMeansOnce<T(!new)>(s: seq<T>)
    ensures NoDup(s) <==> forall x :: multiset(s)[x] <= 1
  {
    if NoDup(s) {
      forall x ensures multiset(s)[x] <= 1 { NoDupCounts(s, x); }
    } else {
      var i, j :| 0 <= i < j < |s| && s[i] == s[j];
      assert s == s[..j] + s[j..] && s[i] in s[..j] && s[i] in s[j..];
      assert multiset(s)[s[i]] == multiset(s[..j])[s[i]] + multiset(s[j..])[s[i]];
    }
  }

  // Nobody is entered twice exactly when everybody who can be reached is named once
  // and has one usable link at each provider. The grammar asks for this, so a person
  // listed twice on a layer, or linked twice to one provider, keeps the announcement
  // from being built at all.
  lemma {:induction false} EnteredOnceEach(catalog: Catalog, book: Book, notify: seq<string>)
    ensures NoDup(Recipients(catalog, book, notify)) <==>
              forall u :: u in notify && Reachable(catalog, LinksOf(book, u)) != [] ==>
                            multiset(notify)[u] == 1 && NoDup(Reachable(catalog, LinksOf(book, u)))
  {
    var all := Recipients(catalog, book, notify);
    NoDupMeansOnce(all);
    if NoDup(all) {
      forall u | u in notify && Reachable(catalog, LinksOf(book, u)) != []
        ensures multiset(notify)[u] == 1 && NoDup(Reachable(catalog, LinksOf(book, u)))
      {
        OnceFor(catalog, book, notify, u);
      }
    } else {
      var r: Recipient :| multiset(all)[r] > 1;
      TwiceFor(catalog, book, notify, r);
    }
  }

  lemma {:induction false} TwiceFor(catalog: Catalog, book: Book, notify: seq<string>, r: Recipient)
    requires multiset(Recipients(catalog, book, notify))[r] > 1
    ensures r.user in notify && Reachable(catalog, LinksOf(book, r.user)) != []
    ensures multiset(notify)[r.user] > 1 || !NoDup(Reachable(catalog, LinksOf(book, r.user)))
  {
    EnteredTimes(catalog, book, notify, r);
    NoDupMeansOnce(Reachable(catalog, LinksOf(book, r.user)));
    TwoOfOne(multiset(notify)[r.user], multiset(Reachable(catalog, LinksOf(book, r.user)))[r.provider]);
  }

  lemma TwoOfOne(m: nat, n: nat)
    requires m * n > 1
    ensures m >= 1 && n >= 1 && (m > 1 || n > 1)
  {
  }

  lemma {:induction false} OnceFor(catalog: Catalog, book: Book, notify: seq<string>, u: string)
    requires u in notify && Reachable(catalog, LinksOf(book, u)) != [] && NoDup(Recipients(catalog, book, notify))
    ensures multiset(notify)[u] == 1 && NoDup(Reachable(catalog, LinksOf(book, u)))
  {
    var providers := Reachable(catalog, LinksOf(book, u));
    NoDupMeansOnce(Recipients(catalog, book, notify));
    forall p ensures multiset(providers)[p] <= 1 {
      EnteredTimes(catalog, book, notify, Recipient(p, u));
      AtMostOne(multiset(notify)[u], multiset(providers)[p]);
    }
    NoDupMeansOnce(providers);
    EnteredTimes(catalog, book, notify, Recipient(providers[0], u));
    AtMostOne(multiset(notify)[u], multiset(providers)[providers[0]]);
  }

  lemma AtMostOne(m: nat, n: nat)
    requires m >= 1 && m * n <= 1
    ensures n <= 1 && (n == 1 ==> m == 1)
  {
    if n >= 1 { assert m * n >= m && m * n >= n; }
  }

  // u is entered once at each provider that reaches them, or left out once with the
  // reason; or, not being new, is neither.
  ghost predicate ToldOnce(a: Announcement, left: seq<Skipped>, u: string, isNew: bool, providers: seq<string>,
                           reason: Option<Reason>) {
    && (forall q :: multiset(a.recipients)[Recipient(q, u)] == if isNew && q in providers then 1 else 0)
    && (forall w :: multiset(left)[Skipped(u, w)] == if isNew && reason == Some(w) then 1 else 0)
  }

  // What is built, for a layer that lists each person once, is for exactly the people
  // who came on duty.
  lemma {:induction false} BuiltIsForTheNewcomers(catalog: Catalog, prev: Duty, p: Projected, teamName: string,
                                                  book: Book, validZone: bool, u: string)
    requires p.l1.Some? && NoDup(p.l1.value.users)
    ensures match Classified(Some(prev), Observed(p).duty)
            case None => u in p.l1.value.users ==> u in prev.users
            case Some((kind, notify)) =>
              match BuiltOf(catalog, kind, p, notify, Observed(p), teamName, Some(book), validZone)
              case NotBuilt => true
              case Built(a, left) =>
                ToldOnce(a, left, u, u in p.l1.value.users && u !in prev.users,
                         Reachable(catalog, LinksOf(book, u)), TheirReason(catalog, LinksOf(book, u)))
  {
    NewcomersTimes(prev, p, u);
    NoDupCounts(p.l1.value.users, u);
    var change := Classified(Some(prev), Observed(p).duty);
    if change.Some?
      && BuiltOf(catalog, change.value.0, p, change.value.1, Observed(p), teamName, Some(book), validZone).Built? {
      BuiltOnce(catalog, book, AnnouncementOf(catalog, change.value.0, p, change.value.1, Observed(p), teamName, book),
                change.value.1, validZone, u);
    }
  }

  // What an announcement says is the shift as it was projected: its schedule, source,
  // group and people, when it began and ends, whose version it is by, and for an hour.
  lemma {:induction false} BuiltSaysTheShift(catalog: Catalog, kind: Kind, p: Projected, notify: seq<string>,
                                             teamName: string, book: Option<Book>, validZone: bool)
    requires p.l1.Some? && BuiltOf(catalog, kind, p, notify, Observed(p), teamName, book, validZone).Built?
    ensures var (a, l1) := (BuiltOf(catalog, kind, p, notify, Observed(p), teamName, book, validZone).announcement,
                            p.l1.value);
            && a.occurrence.kind == kind && a.occurrence.scheduleID == p.scheduleID
            && a.occurrence.source == l1.source && a.occurrence.groupID == l1.groupID
            && Sorted(BY_STRING, a.occurrence.users) && multiset(a.occurrence.users) == multiset(l1.users)
            && a.occurrence.start == l1.start && a.end == l1.end && a.gridStart == l1.gridStart
            && (l1.source == "override" ==> a.occurrence.revision == l1.overrideRevision)
            && (l1.source != "override" ==> a.occurrence.revision == l1.scheduleRevision)
            && a.teamName == teamName && a.timezone == p.timezone && a.maxAge == 3600
  {
    OneDescription(Observed(p), p);
  }

  // It is built exactly when the people's links could be read and the grammar can say
  // it: a schedule and both ends of the shift, nobody without an id, and - when anybody
  // can be reached - a zone, a grid, and everybody entered once, at a provider with a
  // name, on this shift.
  lemma {:induction false} WhenItIsBuilt(catalog: Catalog, kind: Kind, p: Projected, notify: seq<string>,
                                         teamName: string, book: Option<Book>, validZone: bool)
    requires p.l1.Some? && forall u :: u in notify ==> u in p.l1.value.users
    ensures BuiltOf(catalog, kind, p, notify, Observed(p), teamName, book, validZone).Built? <==>
              && book.Some? && p.scheduleID != "" && p.l1.value.start != 0 && p.l1.value.end != 0
              && "" !in p.l1.value.users
              && ((exists u :: u in notify && Reachable(catalog, LinksOf(book.value, u)) != []) ==>
                    validZone && p.l1.value.gridStart != 0)
              && (forall u :: u in notify ==> "" !in Reachable(catalog, LinksOf(book.value, u)))
              && NoDup(Recipients(catalog, book.value, notify))
  {
    if book.Some? {
      RecipientsAre(catalog, book.value, notify);
      SomeRecipients(catalog, book.value, notify);
      forall u ensures u in Observed(p).duty.users <==> u in p.l1.value.users { SortedHolds(p.l1.value.users, u); }
      SpeakableParts(AnnouncementOf(catalog, kind, p, notify, Observed(p), teamName, book.value), p.l1.value.users,
                     validZone);
    }
  }

  lemma SpeakableParts(a: Announcement, users: seq<string>, validZone: bool)
    requires forall u :: u in a.occurrence.users <==> u in users
    requires forall r :: r in a.recipients ==> r.user in users
    ensures Speakable(a, validZone) <==>
              && a.occurrence.scheduleID != "" && a.occurrence.start != 0 && a.end != 0 && "" !in users
              && (a.recipients != [] ==> validZone && a.gridStart != 0)
              && (forall r :: r in a.recipients ==> r.provider != "") && NoDup(a.recipients)
  {
  }

  lemma SomeRecipients(catalog: Catalog, book: Book, notify: seq<string>)
    ensures Recipients(catalog, book, notify) != [] <==>
              exists u :: u in notify && Reachable(catalog, LinksOf(book, u)) != []
    ensures (forall r :: r in Recipients(catalog, book, notify) ==> r.provider != "") <==>
              forall u :: u in notify ==> "" !in Reachable(catalog, LinksOf(book, u))
  {
    var all := Recipients(catalog, book, notify);
    RecipientsAre(catalog, book, notify);
    if u :| u in notify && Reachable(catalog, LinksOf(book, u)) != [] {
      assert Recipient(Reachable(catalog, LinksOf(book, u))[0], u) in all;
    }
    if all != [] { assert all[0] in all; }
    forall u | u in notify && "" in Reachable(catalog, LinksOf(book, u)) ensures Recipient("", u) in all {}
  }

  lemma {:induction false} RecipientsAre(catalog: Catalog, book: Book, notify: seq<string>)
    ensures forall r :: r in Recipients(catalog, book, notify) <==>
                          r.user in notify && r.provider in Reachable(catalog, LinksOf(book, r.user))
  {
    var all := Recipients(catalog, book, notify);
    forall r ensures r in all <==> r.user in notify && r.provider in Reachable(catalog, LinksOf(book, r.user)) {
      EnteredTimes(catalog, book, notify, r);
      var (times, each) := (multiset(notify)[r.user], multiset(Reachable(catalog, LinksOf(book, r.user)))[r.provider]);
      if times > 0 && each > 0 { SomeOfEach(times, each); }
      assert r in all <==> multiset(all)[r] > 0;
    }
  }

  lemma SomeOfEach(m: nat, n: nat)
    requires m > 0 && n > 0
    ensures m * n > 0
  {
  }

  lemma {:induction false} BuiltOnce(catalog: Catalog, book: Book, a: Announcement, notify: seq<string>,
                                     validZone: bool, u: string)
    requires Speakable(a, validZone) && a.recipients == Recipients(catalog, book, notify)
    requires multiset(notify)[u] <= 1
    ensures ToldOnce(a, LeftOut(catalog, book, notify), u, u in notify,
                     Reachable(catalog, LinksOf(book, u)), TheirReason(catalog, LinksOf(book, u)))
  {
    AudienceIsPartitioned(catalog, book, notify, u);
    if u in notify && Reachable(catalog, LinksOf(book, u)) != [] {
      OnceFor(catalog, book, notify, u);
      NoDupMeansOnce(Reachable(catalog, LinksOf(book, u)));
    }
  }
}
