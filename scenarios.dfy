/** Worked runs of the report check on small inputs. */
module Scenarios {
  import opened Wrappers
  import opened ReportWindow
  import opened Seqs
  import opened Text
  import opened AllowList
  import opened Roster
  import opened Attendance
  import opened Notifier

  const A: Member := Member(1, "A", false, Some(true))
  const B: Member := Member(2, "B", false, Some(true))
  const C: Member := Member(3, "C", false, Some(true))
  const D: Member := Member(4, "D", false, Some(true))

  /** Messages from A and B inside the window, roster A, B, C, D: C and D are
      absent. */
  lemma TwoAbsentees(b: Bounds)
    requires b.after + 1 < b.before
    ensures Absentees([A, B, C, D], Reporters([Message(1, b.after + 1), Message(2, b.after + 1)], b)) == [C, D]
  {
    var reporters := Reporters([Message(1, b.after + 1), Message(2, b.after + 1)], b);
    assert 1 in reporters && 2 in reporters && 3 !in reporters && 4 !in reporters by {
      assert InWindow(Message(1, b.after + 1), b) && InWindow(Message(2, b.after + 1), b);
    }
    var absent := NotIn(reporters);
    assert [A, B, C, D][1..] == [B, C, D];
    assert [B, C, D][1..] == [C, D];
    assert [C, D][1..] == [D];
    assert [D][1..] == [];
    assert Filter(absent, [D]) == [D];
    assert Filter(absent, [C, D]) == [C, D];
    assert Filter(absent, [B, C, D]) == [C, D];
  }

  /** The channel message for absentees C and D mentions both, and a reminder
      goes to each, even when the first one fails. */
  lemma TwoAbsenteesNotified()
    ensures MentionList([C, D]) == "<@3> <@4>"
    ensures DmRecipients(NotificationPlan([C, D], [DmForbidden, Delivered])) == [3, 4]
  {
    assert Decimal(3) == ['0' + 3 as char] == "3";
    assert Decimal(4) == ['0' + 4 as char] == "4";
    assert Mention(3) == "<@3>" && Mention(4) == "<@4>";
    var ms := Mentions([C, D]);
    assert ms == ["<@3>", "<@4>"];
    assert ms[1..] == ["<@4>"];
    assert Join(ms, " ") == "<@3>" + " " + "<@4>";
    DmFailuresIsolated([C, D], [DmForbidden, Delivered], [DmForbidden, Delivered]);
    assert Ids([C, D]) == [3, 4];
  }

  /** No message in the window: everyone on the roster is absent. */
  lemma EmptyHistory(b: Bounds)
    ensures Absentees([A, B], Reporters([], b)) == [A, B]
  {
    NoReportersAllAbsent([A, B]);
  }

  /** Allow-list {A, C} over the eligible members A, B, C keeps A and C. */
  lemma AllowListKeepsListed()
    ensures RestrictToAllowList([A, B, C], {1, 3}) == [A, C]
  {
    var allowed := AllowedBy({1, 3});
    assert [A, B, C][1..] == [B, C];
    assert [B, C][1..] == [C];
    assert [C][1..] == [];
    assert Filter(allowed, [C]) == [C];
    assert Filter(allowed, [B, C]) == [C];
  }

  /** A bot and a member whose permission lookup failed are dropped. */
  lemma BotAndUnreadableDropped()
    ensures ResolveRoster([A, Member(5, "bot", true, Some(true)), Member(6, "E", false, None)], {}) == [A]
  {
    var fetched := [A, Member(5, "bot", true, Some(true)), Member(6, "E", false, None)];
    assert fetched[1..][1..] == [Member(6, "E", false, None)];
  }

  /** A non-numeric token is skipped: `"7,abc"` configures member 7 alone. */
  lemma JunkTokenSkipped()
    ensures ParseAllowList("7" + [','] + "abc") == {7}
  {
    SevenParses();
    AbcSkipped();
    ParseConcat("7", "abc");
  }

  lemma SevenParses()
    ensures ParseAllowList("7") == {7}
  {
    assert Decimal(7) == ['0' + 7 as char] == "7";
    ParsePaddedId(7, "");
    assert "" + Decimal(7) == "7";
  }

  lemma AbcSkipped()
    ensures ParseAllowList("abc") == {}
  {
    var abc := "abc";
    StripPadded("", abc, "");
    assert "" + abc + "" == abc;
    assert !IsDigit(abc[0]);
    ParseToken(abc);
  }
}
