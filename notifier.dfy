/** What the report check sends (bot.py `check_reports`, from the
    non-reporter test on): one channel message, then one direct message per
    absentee. The sends are recorded as a trace of actions; the outcome of
    each direct message is the platform's answer, given as input. */
module Notifier {
  import opened Text
  import opened Roster

  /** The result of sending a reminder: delivered, or one of the three
      exception classes the loop catches (`Forbidden`, `HTTPException`, any
      other `Exception`), each logged as a warning and then skipped. */
  datatype DmOutcome = Delivered | DmForbidden | DmHttpError | DmOtherError

  datatype Action =
    | ChannelPost(text: string)
    | DirectMessage(recipient: MemberId, text: string, outcome: DmOutcome)

  const AllReportedText: string := "✅ 오늘(어제 18시~자정) 주간보고 미제출자는 없습니다!"
  const SummaryHeader: string := "⏰ 아직 주간보고를 작성하지 않은 분들입니다!\n"
  const ReminderText: string := "오늘 18:00~24:00 사이 주간보고가 확인되지 않았습니다. 잊지 말고 작성해주세요!"

  /** `member.mention` for a guild member: `<@id>`. */
  function Mention(id: MemberId): (r: string)
    ensures ' ' !in r
  {
    var digits := Decimal(id);
    assert forall k :: 0 <= k < |digits| ==> IsDigit(digits[k]);
    "<@" + digits + ">"
  }

  /** Different members have different mentions. */
  lemma MentionInjective(a: MemberId, b: MemberId)
    requires Mention(a) == Mention(b)
    ensures a == b
  {
    var da, db := Decimal(a), Decimal(b);
    assert da == Mention(a)[2..|Mention(a)| - 1];
    assert db == Mention(b)[2..|Mention(b)| - 1];
    DecimalValue(a);
    DecimalValue(b);
  }

  function Mentions(absentees: seq<Member>): (r: seq<string>)
    ensures |r| == |absentees|
    ensures forall i :: 0 <= i < |absentees| ==> r[i] == Mention(absentees[i].id)
  {
    seq(|absentees|, i requires 0 <= i < |absentees| => Mention(absentees[i].id))
  }

  /** The absentees' mentions, separated by single spaces. */
  function MentionList(absentees: seq<Member>): string
  {
    Join(Mentions(absentees), " ")
  }

  /** The mention list splits back, at its spaces, into exactly one mention
      per absentee, in order. */
  lemma MentionListSplits(absentees: seq<Member>)
    requires absentees != []
    ensures Split(MentionList(absentees), ' ') == Mentions(absentees)
  {
    SplitJoin(Mentions(absentees), ' ');
  }

  /** Every absentee, and only an absentee, is mentioned in the list. */
  lemma MentionedExactlyAbsentees(absentees: seq<Member>, id: MemberId)
    requires absentees != []
    ensures Mention(id) in Split(MentionList(absentees), ' ') <==>
      exists i :: 0 <= i < |absentees| && absentees[i].id == id
  {
    MentionListSplits(absentees);
    var ms := Mentions(absentees);
    if Mention(id) in ms {
      var i :| 0 <= i < |ms| && ms[i] == Mention(id);
      MentionInjective(absentees[i].id, id);
    }
    if exists i :: 0 <= i < |absentees| && absentees[i].id == id {
      var i :| 0 <= i < |absentees| && absentees[i].id == id;
      assert ms[i] == Mention(id);
    }
  }

  function ReminderFor(member: Member, outcome: DmOutcome): Action
  {
    DirectMessage(member.id, ReminderText, outcome)
  }

  /** The notification plan: the channel confirmation alone when nobody is
      absent; otherwise the summary with all mentions, then one reminder per
      absentee in order, whatever became of the earlier ones. */
  function NotificationPlan(absentees: seq<Member>, outcomes: seq<DmOutcome>): (trace: seq<Action>)
    requires |outcomes| == |absentees|
    ensures |trace| == 1 + |absentees| && trace[0].ChannelPost?
    ensures forall i :: 0 <= i < |absentees| ==>
      trace[i + 1].DirectMessage? && trace[i + 1].recipient == absentees[i].id &&
      trace[i + 1].outcome == outcomes[i]
  {
    if absentees == [] then [ChannelPost(AllReportedText)]
    else
      [ChannelPost(SummaryHeader + MentionList(absentees))] +
      seq(|absentees|, i requires 0 <= i < |absentees| => ReminderFor(absentees[i], outcomes[i]))
  }

  /** The send sequence: one channel send, then the direct-message loop, in
      which a failed send is logged and the loop goes on with the next
      absentee. */
  method Notify(absentees: seq<Member>, outcomes: seq<DmOutcome>) returns (trace: seq<Action>)
    requires |outcomes| == |absentees|
    ensures trace == NotificationPlan(absentees, outcomes)
    ensures |trace| == 1 + |absentees|
    ensures trace[0].ChannelPost?
    ensures forall i :: 0 <= i < |absentees| ==>
      trace[i + 1] == DirectMessage(absentees[i].id, ReminderText, outcomes[i])
  {
    if absentees == [] {
      trace := [ChannelPost(AllReportedText)];
      return;
    }
    trace := [ChannelPost(SummaryHeader + MentionList(absentees))];
    var i := 0;
    while i < |absentees|
      invariant 0 <= i <= |absentees|
      invariant |trace| == 1 + i
      invariant trace[0] == ChannelPost(SummaryHeader + MentionList(absentees))
      invariant forall k :: 0 <= k < i ==> trace[k + 1] == ReminderFor(absentees[k], outcomes[k])
    {
      var member := absentees[i];
      // The send is attempted; its outcome is only logged when it failed,
      // and the loop goes on either way.
      trace := trace + [DirectMessage(member.id, ReminderText, outcomes[i])];
      i := i + 1;
    }
  }

  function CountChannelPosts(trace: seq<Action>): nat
  {
    if trace == [] then 0
    else (if trace[0].ChannelPost? then 1 else 0) + CountChannelPosts(trace[1..])
  }

  /** The recipients of the direct-message attempts, in order. */
  function DmRecipients(trace: seq<Action>): seq<MemberId>
  {
    if trace == [] then []
    else (if trace[0].DirectMessage? then [trace[0].recipient] else []) + DmRecipients(trace[1..])
  }

  function Ids(members: seq<Member>): (r: seq<MemberId>)
    ensures |r| == |members|
    ensures forall i :: 0 <= i < |members| ==> r[i] == members[i].id
  {
    seq(|members|, i requires 0 <= i < |members| => members[i].id)
  }

  /** No direct messages at all: neither posts nor recipients. */
  lemma {:induction false} OnlyReminders(reminders: seq<Action>, recipients: seq<MemberId>)
    requires |reminders| == |recipients|
    requires forall i :: 0 <= i < |reminders| ==>
      reminders[i].DirectMessage? && reminders[i].recipient == recipients[i]
    ensures CountChannelPosts(reminders) == 0
    ensures DmRecipients(reminders) == recipients
  {
    if reminders != [] {
      OnlyReminders(reminders[1..], recipients[1..]);
      assert recipients == [recipients[0]] + recipients[1..];
    }
  }

  /** Exactly one channel message is sent on every run that reaches the
      notification step: the confirmation when nobody is absent, the summary
      otherwise; the summary opens with the header and carries the mention
      list. */
  lemma ExactlyOneChannelPost(absentees: seq<Member>, outcomes: seq<DmOutcome>)
    requires |outcomes| == |absentees|
    ensures CountChannelPosts(NotificationPlan(absentees, outcomes)) == 1
    ensures NotificationPlan(absentees, outcomes)[0] ==
      ChannelPost(if absentees == [] then AllReportedText else SummaryHeader + MentionList(absentees))
  {
    var trace := NotificationPlan(absentees, outcomes);
    OnlyReminders(trace[1..], Ids(absentees));
  }

  /** The channel message is the confirmation exactly when nobody is absent. */
  lemma ConfirmationIffNobodyAbsent(absentees: seq<Member>, outcomes: seq<DmOutcome>)
    requires |outcomes| == |absentees|
    ensures NotificationPlan(absentees, outcomes)[0] == ChannelPost(AllReportedText) <==> absentees == []
  {
    if absentees != [] {
      assert (SummaryHeader + MentionList(absentees))[0] != AllReportedText[0];
    }
  }

  /** Nobody absent: the confirmation alone, and no direct message. */
  lemma AllReportedOnlyConfirms(outcomes: seq<DmOutcome>)
    requires outcomes == []
    ensures NotificationPlan([], outcomes) == [ChannelPost(AllReportedText)]
    ensures DmRecipients(NotificationPlan([], outcomes)) == []
  {
  }

  /** Failure isolation: one reminder is attempted for every absentee, in
      order, whatever the outcomes of the attempts are. Two runs that differ
      only in which sends fail attempt the same recipients and post the same
      channel message. */
  lemma DmFailuresIsolated(absentees: seq<Member>, outcomes: seq<DmOutcome>, others: seq<DmOutcome>)
    requires |outcomes| == |absentees| && |others| == |absentees|
    ensures DmRecipients(NotificationPlan(absentees, outcomes)) == Ids(absentees)
    ensures DmRecipients(NotificationPlan(absentees, others)) == Ids(absentees)
    ensures NotificationPlan(absentees, outcomes)[0] == NotificationPlan(absentees, others)[0]
  {
    var t1, t2 := NotificationPlan(absentees, outcomes), NotificationPlan(absentees, others);
    if absentees != [] {
      OnlyReminders(t1[1..], Ids(absentees));
      OnlyReminders(t2[1..], Ids(absentees));
      assert t1 == [t1[0]] + t1[1..];
      assert t2 == [t2[0]] + t2[1..];
    }
  }
}
