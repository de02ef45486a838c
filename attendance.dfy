/** Who reported and who did not (bot.py `check_reports`): the distinct
    authors of the messages posted inside the window, and the roster members
    who are not among them, in roster order. */
module Attendance {
  import opened Seqs
  import opened Roster
  import opened ReportWindow

  /** A message in the report channel: its author and the instant it was
      posted. */
  datatype Message = Message(author: MemberId, postedAt: int)

  /** The history query keeps the messages posted strictly inside the
      bounds. */
  predicate InWindow(m: Message, b: Bounds)
  {
    b.after < m.postedAt < b.before
  }

  /** The set of authors of the messages the history query returns. */
  function Reporters(history: seq<Message>, b: Bounds): (r: set<MemberId>)
    ensures forall id :: id in r <==> exists m :: m in history && InWindow(m, b) && m.author == id
  {
    set m | m in history && InWindow(m, b) :: m.author
  }

  /** Messages outside the window never make anyone a reporter. */
  lemma ReportersIgnoreOutside(history: seq<Message>, extra: seq<Message>, b: Bounds)
    requires forall m :: m in extra ==> !InWindow(m, b)
    ensures Reporters(history + extra, b) == Reporters(history, b)
  {
  }

  /** The reporters of two stretches of history are the union of each's. */
  lemma ReportersAppend(h1: seq<Message>, h2: seq<Message>, b: Bounds)
    ensures Reporters(h1 + h2, b) == Reporters(h1, b) + Reporters(h2, b)
  {
  }

  function NotIn(reporters: set<MemberId>): Member -> bool
  {
    (m: Member) => m.id !in reporters
  }

  /** The non-reporters: every roster
      member without a message in the window, each as often and in the same
      order as on the roster, and no one else. */
  function Absentees(roster: seq<Member>, reporters: set<MemberId>): (r: seq<Member>)
    ensures IsSubsequence(r, roster)
    ensures forall m :: m in r <==> m in roster && m.id !in reporters
    ensures forall m :: multiset(r)[m] == if m.id in reporters then 0 else multiset(roster)[m]
  {
    Filter(NotIn(reporters), roster)
  }

  /** Nobody is absent exactly when every roster member reported. */
  lemma NoAbsenteesIffAllReported(roster: seq<Member>, reporters: set<MemberId>)
    ensures Absentees(roster, reporters) == [] <==> forall m :: m in roster ==> m.id in reporters
  {
    var r := Absentees(roster, reporters);
    if r != [] {
      assert r[0] in r;
    }
  }

  /** An empty roster has no absentees, whoever reported. */
  lemma EmptyRosterNoAbsentees(reporters: set<MemberId>)
    ensures Absentees([], reporters) == []
  {
  }

  /** With no reporters, the whole roster is absent, in order. */
  lemma NoReportersAllAbsent(roster: seq<Member>)
    ensures Absentees(roster, {}) == roster
  {
    FilterKeepsAll(NotIn({}), roster);
  }

  /** Reporting only shrinks the absentee list: more reporters, a
      subsequence of the absentees. */
  lemma {:induction false} MoreReportersFewerAbsentees(roster: seq<Member>, fewer: set<MemberId>, more: set<MemberId>)
    requires fewer <= more
    ensures IsSubsequence(Absentees(roster, more), Absentees(roster, fewer))
  {
    FilterFilter(NotIn(more), NotIn(fewer), NotIn(more), roster);
  }
}
