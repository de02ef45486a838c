/** Who is expected to report (bot.py `check_reports`, the eligibility loop
    and the allow-list filter): the members fetched from the channel's guild,
    without bots and without members who cannot read the channel, restricted
    to the allow-list when one is configured. */
module Roster {
  import opened Wrappers
  import opened Seqs

  type MemberId = nat

  /** A guild member as fetched. `readAccess` is the channel's
      `read_messages` permission for the member, or `None` when the
      permission could not be computed (the lookup raised `AttributeError`). */
  datatype Member = Member(id: MemberId, displayName: string, isBot: bool, readAccess: Option<bool>)

  /** The read-permission test: fails closed, so a member whose
      permission cannot be computed is treated as unable to read. */
  function CanRead(m: Member): (ok: bool)
    ensures ok <==> m.readAccess == Some(true)
    ensures m.readAccess.None? ==> !ok
  {
    match m.readAccess
    case None => false
    case Some(readMessages) => readMessages
  }

  /** The eligibility test: not a bot, and able to read the channel. */
  predicate IsEligible(m: Member)
  {
    !m.isBot && CanRead(m)
  }

  /** The eligibility loop over the fetched members, appending each eligible
      one to the list in fetch order. */
  method CollectEligible(fetched: seq<Member>) returns (eligible: seq<Member>)
    ensures eligible == Filter(IsEligible, fetched)
    ensures IsSubsequence(eligible, fetched)
    ensures forall m :: m in eligible <==> m in fetched && !m.isBot && m.readAccess == Some(true)
  {
    eligible := [];
    var i := 0;
    while i < |fetched|
      invariant 0 <= i <= |fetched|
      invariant eligible == Filter(IsEligible, fetched[..i])
    {
      var member := fetched[i];
      FilterSnoc(IsEligible, fetched[..i], member);
      assert fetched[..i + 1] == fetched[..i] + [member];
      if !member.isBot && CanRead(member) {
        eligible := eligible + [member];
      }
      i := i + 1;
    }
    assert fetched[..i] == fetched;
  }

  /** The allow-list's membership test on a member. */
  function AllowedBy(allow: set<MemberId>): Member -> bool
  {
    (m: Member) => m.id in allow
  }

  /** The allow-list filter, applied only when
      the allow-list is non-empty: an empty allow-list restricts nothing. */
  function RestrictToAllowList(members: seq<Member>, allow: set<MemberId>): (r: seq<Member>)
    ensures IsSubsequence(r, members)
    ensures forall m :: m in r <==> m in members && (allow == {} || m.id in allow)
    ensures allow == {} ==> r == members
  {
    if allow == {} then
      SubsequenceOfItself(members);
      members
    else
      Filter(AllowedBy(allow), members)
  }

  /** With a non-empty allow-list, each listed member keeps all its
      occurrences and every other member loses all of them. */
  lemma RestrictKeepsMultiplicity(members: seq<Member>, allow: set<MemberId>, m: Member)
    requires allow != {}
    ensures multiset(RestrictToAllowList(members, allow))[m] ==
      if m.id in allow then multiset(members)[m] else 0
  {
  }

  /** The roster the absentees are drawn from: the eligibility loop followed
      by the allow-list filter. */
  function ResolveRoster(fetched: seq<Member>, allow: set<MemberId>): (roster: seq<Member>)
    ensures forall m :: m in roster <==>
      m in fetched && !m.isBot && m.readAccess == Some(true) && (allow == {} || m.id in allow)
  {
    RestrictToAllowList(Filter(IsEligible, fetched), allow)
  }

  /** Not a bot, can read the channel, and allowed. */
  function OnRoster(allow: set<MemberId>): Member -> bool
  {
    (m: Member) => IsEligible(m) && (allow == {} || m.id in allow)
  }

  /** The two passes are one order-preserving filter over the fetched
      members. */
  lemma ResolveRosterIsOneFilter(fetched: seq<Member>, allow: set<MemberId>)
    ensures ResolveRoster(fetched, allow) == Filter(OnRoster(allow), fetched)
  {
    if allow == {} {
      FilterSame(IsEligible, OnRoster(allow), fetched);
    } else {
      FilterFilter(AllowedBy(allow), IsEligible, OnRoster(allow), fetched);
    }
  }

  lemma {:induction false} FilterSame(p: Member -> bool, q: Member -> bool, s: seq<Member>)
    requires forall m :: p(m) == q(m)
    ensures Filter(p, s) == Filter(q, s)
  {
    if s != [] {
      FilterSame(p, q, s[1..]);
    }
  }

  /** A member whose permission lookup fails is never on the roster,
      whatever the allow-list says. */
  lemma PermissionFailureExcluded(fetched: seq<Member>, allow: set<MemberId>, m: Member)
    requires m.readAccess.None?
    ensures m !in ResolveRoster(fetched, allow)
  {
  }

  /** An allow-list naming every eligible member changes nothing. */
  lemma AllowListCoveringRosterIsNoOp(fetched: seq<Member>, allow: set<MemberId>)
    requires forall m :: m in fetched && IsEligible(m) ==> m.id in allow
    ensures ResolveRoster(fetched, allow) == Filter(IsEligible, fetched)
  {
    var eligible := Filter(IsEligible, fetched);
    if allow != {} {
      FilterKeepsAll(AllowedBy(allow), eligible);
    }
  }
}
