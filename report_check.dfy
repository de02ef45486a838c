/** One run of the report check (bot.py `check_reports`), from the window to
    the last direct message. The chat platform's answers — the channel, its
    history, its guild's members, whether the bot user is known, and the
    outcome of each direct message — are inputs; each failure the source
    catches ends the run before anything is sent. */
module ReportCheck {
  import opened Wrappers
  import opened Seqs
  import opened ReportWindow
  import opened AllowList
  import opened Roster
  import opened Attendance
  import opened Notifier

  /** The platform exceptions the run catches: `NotFound`, `Forbidden`, and
      any other `HTTPException`. */
  datatype ApiError = NotFound | Forbidden | HttpError

  datatype Guild = Guild(members: Result<seq<Member>, ApiError>)

  /** What `fetch_channel` returns: the channel's full message log (or the
      error the history query raises), and its guild. The window is applied
      to the log by the run. */
  datatype Channel = Channel(history: Result<seq<Message>, ApiError>, guild: Option<Guild>)

  datatype Platform = Platform(
    channel: Result<Channel, ApiError>,
    botUserReady: bool,
    dmResponse: MemberId -> DmOutcome)

  /** Why a run ended early, in the order the source checks. */
  datatype Abort =
    | ChannelUnavailable(channelError: ApiError)
    | HistoryUnavailable(historyError: ApiError)
    | NotInGuild
    | BotUserMissing
    | MembersUnavailable(membersError: ApiError)

  datatype Run = Aborted(reason: Abort) | Completed(trace: seq<Action>)

  /** The actions a run performed. */
  function Sent(run: Run): seq<Action>
  {
    if run.Aborted? then [] else run.trace
  }

  /** The outcome of each absentee's reminder, in list order. */
  function OutcomesFor(p: Platform, absentees: seq<Member>): (r: seq<DmOutcome>)
    ensures |r| == |absentees|
  {
    seq(|absentees|, i requires 0 <= i < |absentees| => p.dmResponse(absentees[i].id))
  }

  /** The run as a function of its inputs. */
  function CheckReports(p: Platform, now: LocalDateTime, customStart: Option<int>, customEnd: Option<int>,
                        targetIds: string): (run: Run)
    requires now.Valid()
    ensures run.Completed? <==>
      && p.channel.Success? && p.channel.value.history.Success? && p.channel.value.guild.Some?
      && p.botUserReady && p.channel.value.guild.value.members.Success?
  {
    var bounds := EffectiveBounds(customStart, customEnd, now);
    match p.channel
    case Failure(e) => Aborted(ChannelUnavailable(e))
    case Success(channel) =>
      match channel.history
      case Failure(e) => Aborted(HistoryUnavailable(e))
      case Success(history) =>
        var reporters := Reporters(history, bounds);
        if channel.guild.None? then Aborted(NotInGuild)
        else if !p.botUserReady then Aborted(BotUserMissing)
        else
          match channel.guild.value.members
          case Failure(e) => Aborted(MembersUnavailable(e))
          case Success(fetched) =>
            var roster := ResolveRoster(fetched, ParseAllowList(targetIds));
            var absentees := Absentees(roster, reporters);
            Completed(NotificationPlan(absentees, OutcomesFor(p, absentees)))
  }

  /** `check_reports`, step by step: the early returns, the eligibility loop,
      the allow-list filter, the absentee list and the sends. */
  method RunCheck(p: Platform, now: LocalDateTime, customStart: Option<int>, customEnd: Option<int>,
                  targetIds: string) returns (run: Run)
    requires now.Valid()
    ensures run == CheckReports(p, now, customStart, customEnd, targetIds)
  {
    var bounds := EffectiveBounds(customStart, customEnd, now);
    if p.channel.Failure? {
      return Aborted(ChannelUnavailable(p.channel.error));
    }
    var channel := p.channel.value;
    if channel.history.Failure? {
      return Aborted(HistoryUnavailable(channel.history.error));
    }
    var reporters := Reporters(channel.history.value, bounds);
    if channel.guild.None? {
      return Aborted(NotInGuild);
    }
    if !p.botUserReady {
      return Aborted(BotUserMissing);
    }
    var fetchedMembers := channel.guild.value.members;
    if fetchedMembers.Failure? {
      return Aborted(MembersUnavailable(fetchedMembers.error));
    }
    var eligible := CollectEligible(fetchedMembers.value);
    var allow := ParseAllowList(targetIds);
    if allow != {} {
      eligible := RestrictToAllowList(eligible, allow);
    }
    var absentees := Absentees(eligible, reporters);
    var trace := Notify(absentees, OutcomesFor(p, absentees));
    run := Completed(trace);
  }

  /** Every failure the source catches stops the run before the first send. */
  lemma FailureSendsNothing(p: Platform, now: LocalDateTime, customStart: Option<int>, customEnd: Option<int>,
                            targetIds: string)
    requires now.Valid()
    requires p.channel.Failure? || p.channel.value.history.Failure? || p.channel.value.guild.None? ||
             !p.botUserReady || p.channel.value.guild.value.members.Failure?
    ensures CheckReports(p, now, customStart, customEnd, targetIds).Aborted?
    ensures Sent(CheckReports(p, now, customStart, customEnd, targetIds)) == []
  {
  }

  /** End to end: a run that gets its answers sends exactly one channel
      message, then attempts one reminder for each fetched member who is not a
      bot, can read the channel, is allowed, and has no message strictly
      inside the window, in fetch order. */
  lemma CompletedRunNotifiesAbsentees(p: Platform, now: LocalDateTime, customStart: Option<int>,
                                      customEnd: Option<int>, targetIds: string, channel: Channel,
                                      history: seq<Message>, fetched: seq<Member>)
    requires now.Valid()
    requires p.channel == Success(channel) && channel.history == Success(history)
    requires channel.guild.Some? && p.botUserReady && channel.guild.value.members == Success(fetched)
    ensures var run := CheckReports(p, now, customStart, customEnd, targetIds);
      var allow := ParseAllowList(targetIds);
      var reporters := Reporters(history, EffectiveBounds(customStart, customEnd, now));
      var absentees := Filter(NotIn(reporters), Filter(OnRoster(allow), fetched));
      && run.Completed?
      && CountChannelPosts(run.trace) == 1
      && DmRecipients(run.trace) == Ids(absentees)
  {
    var allow := ParseAllowList(targetIds);
    var reporters := Reporters(history, EffectiveBounds(customStart, customEnd, now));
    var absentees := Filter(NotIn(reporters), Filter(OnRoster(allow), fetched));
    CompletedRunIsPlan(p, now, customStart, customEnd, targetIds, channel, history, fetched);
    PlanOutline(absentees, OutcomesFor(p, absentees));
  }

  /** A run that gets its answers is the notification plan for the absentees
      of the one-pass roster. */
  lemma CompletedRunIsPlan(p: Platform, now: LocalDateTime, customStart: Option<int>,
                           customEnd: Option<int>, targetIds: string, channel: Channel,
                           history: seq<Message>, fetched: seq<Member>)
    requires now.Valid()
    requires p.channel == Success(channel) && channel.history == Success(history)
    requires channel.guild.Some? && p.botUserReady && channel.guild.value.members == Success(fetched)
    ensures var allow := ParseAllowList(targetIds);
      var reporters := Reporters(history, EffectiveBounds(customStart, customEnd, now));
      var absentees := Filter(NotIn(reporters), Filter(OnRoster(allow), fetched));
      CheckReports(p, now, customStart, customEnd, targetIds) ==
        Completed(NotificationPlan(absentees, OutcomesFor(p, absentees)))
  {
    ResolveRosterIsOneFilter(fetched, ParseAllowList(targetIds));
  }

  /** The two facts about a notification plan the run relies on. */
  lemma PlanOutline(absentees: seq<Member>, outcomes: seq<DmOutcome>)
    requires |outcomes| == |absentees|
    ensures var trace := NotificationPlan(absentees, outcomes);
      CountChannelPosts(trace) == 1 && DmRecipients(trace) == Ids(absentees)
  {
    ExactlyOneChannelPost(absentees, outcomes);
    DmFailuresIsolated(absentees, outcomes, outcomes);
  }
}
