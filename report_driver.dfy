/**
 * The report driver's selection and ordering: from the channel listing and
 * each channel's recent history, one ChannelInfo per channel that is not
 * archived, sorted by name. The Slack calls are inputs: the listing as a
 * Result, the history as a function from channel id to a Result, and the
 * clock readings as the two functions of a Clock.
 */
module ReportDriver {
  import opened Wrappers
  import opened Classifier
  import opened NameSort

  /** A history message; `subtype` is present on joins, topic changes and other system events. */
  datatype Message = Message(subtype: Option<string>, ts: string)

  /**
   * The `error` string of a SlackApiError response. The `except` blocks
   * assert it is non-empty, and a failed assert ends the run, so only
   * errors with a non-empty text are tolerated.
   */
  type ErrorText = s: string | s != [] witness "e"

  /** A SlackApiError whose response passed the `except` blocks' asserts. */
  datatype ApiError = ApiError(error: ErrorText)

  type HistoryResponse = Result<seq<Message>, ApiError>

  type ListResponse = Result<seq<Channel>, ApiError>

  /**
   * The wall clock, read as the source reads it: a message `ts` becomes its
   * local date text and its age in days against the time-zone-aware "now";
   * a channel's `created` becomes its age in days against the naive "now".
   */
  datatype Clock = Clock(messageStamp: string -> MessageStamp, channelAgeDays: int -> int)

  /** A message without a subtype, the only kind that counts as activity. */
  predicate IsActivity(m: Message) { m.subtype.None? }

  /** The position of the first activity in `messages`, or |messages| when there is none. */
  function FirstActivityIndex(messages: seq<Message>): (k: nat)
    ensures k <= |messages|
    ensures forall j | 0 <= j < k :: !IsActivity(messages[j])
    ensures k < |messages| ==> IsActivity(messages[k])
  {
    if messages == [] || IsActivity(messages[0]) then 0
    else 1 + FirstActivityIndex(messages[1..])
  }

  /** The `ts` of the first activity in the order the history returned it. */
  function FirstActivity(messages: seq<Message>): (ts: Option<string>)
    ensures ts.None? <==> forall i | 0 <= i < |messages| :: !IsActivity(messages[i])
  {
    var k := FirstActivityIndex(messages);
    if k < |messages| then Some(messages[k].ts) else None
  }

  /** Nothing after the first activity has any say in the result. */
  lemma FirstActivityIgnoresLater(messages: seq<Message>, later: seq<Message>)
    requires FirstActivity(messages).Some?
    ensures FirstActivity(messages + later) == FirstActivity(messages)
  {
    var k := FirstActivityIndex(messages);
    assert (messages + later)[k] == messages[k];
    assert forall j | 0 <= j < k :: (messages + later)[j] == messages[j];
  }

  /** Scans the history window in order and stops at the first activity. */
  method ScanHistory(messages: seq<Message>) returns (lastUpdate: Option<string>)
    ensures lastUpdate == FirstActivity(messages)
  {
    lastUpdate := None;
    var i := 0;
    while i < |messages|
      invariant 0 <= i <= |messages|
      invariant forall j | 0 <= j < i :: !IsActivity(messages[j])
    {
      var message := messages[i];
      if message.subtype.Some? {
        i := i + 1;
        continue;
      }
      lastUpdate := Some(message.ts);
      break;
    }
  }

  /** The last update of one channel; a failed history call leaves it unknown. */
  function HistoryLastUpdate(history: HistoryResponse): Option<string> {
    match history
    case Success(messages) => FirstActivity(messages)
    case Failure(_) => None
  }

  /** What the classifier is given for one channel. */
  function ChannelStamp(channel: Channel, fetchHistory: string -> HistoryResponse, clock: Clock): (stamp: Option<MessageStamp>)
    ensures fetchHistory(channel.id).Failure? ==> stamp.None?
    ensures fetchHistory(channel.id).Success? ==>
      var messages := fetchHistory(channel.id).value;
      && (stamp.None? <==> forall i | 0 <= i < |messages| :: !IsActivity(messages[i]))
      && (stamp.Some? ==> stamp.value == clock.messageStamp(messages[FirstActivityIndex(messages)].ts))
  {
    match HistoryLastUpdate(fetchHistory(channel.id))
    case None => None
    case Some(ts) => Some(clock.messageStamp(ts))
  }

  /** The channels that are not archived, in listing order. */
  function Survivors(channels: seq<Channel>): (r: seq<Channel>)
    ensures |r| <= |channels|
    ensures forall i | 0 <= i < |r| :: !r[i].isArchived
    ensures forall c | c in r :: c in channels
    ensures forall c | c in channels && !c.isArchived :: c in r
  {
    if channels == [] then []
    else
      var init, last := channels[..|channels| - 1], channels[|channels| - 1];
      assert channels == init + [last];
      Survivors(init) + (if last.isArchived then [] else [last])
  }

  /** `infos` holds, in order, one summary of each channel that is not archived. */
  predicate Summarizes(infos: seq<ChannelInfo>, channels: seq<Channel>, fetchHistory: string -> HistoryResponse, clock: Clock) {
    var survivors := Survivors(channels);
    && |infos| == |survivors|
    && forall k | 0 <= k < |infos| ::
         infos[k].Describes(survivors[k], ChannelStamp(survivors[k], fetchHistory, clock),
                            clock.channelAgeDays(survivors[k].created))
  }

  lemma SurvivorsSnoc(channels: seq<Channel>, i: nat)
    requires i < |channels|
    ensures Survivors(channels[..i + 1]) ==
      Survivors(channels[..i]) + (if channels[i].isArchived then [] else [channels[i]])
  {
    assert channels[..i + 1][..i] == channels[..i];
  }

  lemma SummarizesAppend(infos: seq<ChannelInfo>, channels: seq<Channel>, i: nat,
                         fetchHistory: string -> HistoryResponse, clock: Clock, info: ChannelInfo)
    requires i < |channels| && !channels[i].isArchived
    requires Summarizes(infos, channels[..i], fetchHistory, clock)
    requires info.Describes(channels[i], ChannelStamp(channels[i], fetchHistory, clock),
                            clock.channelAgeDays(channels[i].created))
    ensures Summarizes(infos + [info], channels[..i + 1], fetchHistory, clock)
  {
    SurvivorsSnoc(channels, i);
  }

  /**
   * One channel that is not archived: scan its history for the last update
   * (none when the history call fails) and classify it.
   */
  method ClassifyChannel(channel: Channel, fetchHistory: string -> HistoryResponse, clock: Clock)
    returns (info: ChannelInfo)
    ensures info.Describes(channel, ChannelStamp(channel, fetchHistory, clock), clock.channelAgeDays(channel.created))
  {
    var lastUpdate: Option<string> := None;
    match fetchHistory(channel.id) {
      case Success(messages) =>
        lastUpdate := ScanHistory(messages);
      case Failure(_) =>
        // logged; the channel is kept with no last update
    }
    var stamp := if lastUpdate.Some? then Some(clock.messageStamp(lastUpdate.value)) else None;
    info := new ChannelInfo(channel, stamp, clock.channelAgeDays(channel.created));
  }

  /** The loop over the listing: skip archived channels, classify and append the rest. */
  method CollectChannelInfos(channels: seq<Channel>, fetchHistory: string -> HistoryResponse, clock: Clock)
    returns (channelList: seq<ChannelInfo>)
    ensures Summarizes(channelList, channels, fetchHistory, clock)
  {
    channelList := [];
    for i := 0 to |channels|
      invariant Summarizes(channelList, channels[..i], fetchHistory, clock)
    {
      var channel := channels[i];

      // Skip archived channels
      if channel.isArchived {
        SurvivorsSnoc(channels, i);
        continue;
      }

      var info := ClassifyChannel(channel, fetchHistory, clock);
      SummarizesAppend(channelList, channels, i, fetchHistory, clock, info);
      channelList := channelList + [info];
    }
    assert channels[..|channels|] == channels;
  }

  /**
   * A kept channel whose history call failed still has its summary in the
   * list, with the last update unknown and the icon chosen as for a channel
   * without activity.
   */
  lemma FailedHistoryKept(infos: seq<ChannelInfo>, channels: seq<Channel>, fetchHistory: string -> HistoryResponse,
                          clock: Clock, c: Channel)
    requires Summarizes(infos, channels, fetchHistory, clock)
    requires c in channels && !c.isArchived
    requires fetchHistory(c.id).Failure?
    ensures exists k | 0 <= k < |infos| ::
      && infos[k].Describes(c, None, clock.channelAgeDays(c.created))
      && infos[k].lastUpdate == UNKNOWN
      && infos[k].icon == FinalIcon(None, clock.channelAgeDays(c.created))
  {
    var survivors := Survivors(channels);
    var k :| 0 <= k < |survivors| && survivors[k] == c;
    assert infos[k].Describes(c, None, clock.channelAgeDays(c.created));
  }

  lemma SummarizedNotArchived(infos: seq<ChannelInfo>, channels: seq<Channel>, fetchHistory: string -> HistoryResponse, clock: Clock, info: ChannelInfo)
    requires Summarizes(infos, channels, fetchHistory, clock)
    requires info in multiset(infos)
    ensures !info.isArchived
  {
    var k :| 0 <= k < |infos| && infos[k] == info;
    assert !Survivors(channels)[k].isArchived;
  }

  /**
   * The report's list: a failed listing is re-raised; otherwise the summaries
   * of the channels that are not archived, stably sorted by name.
   * `collected` is the list before the sort.
   */
  method SummarizeChannels(listing: ListResponse, fetchHistory: string -> HistoryResponse, clock: Clock)
    returns (report: Result<seq<ChannelInfo>, ApiError>, ghost collected: seq<ChannelInfo>)
    ensures listing.Failure? ==> report == Failure(listing.error)
    ensures listing.Success? ==>
      && Summarizes(collected, listing.value, fetchHistory, clock)
      && report == Success(SortByName(collected))
    ensures report.Success? ==>
      && SortedByName(report.value)
      && multiset(report.value) == multiset(collected)
      && forall info | info in report.value :: !info.isArchived
  {
    collected := [];
    match listing {
      case Failure(e) =>
        return Failure(e), collected;
      case Success(channels) =>
        var channelList := CollectChannelInfos(channels, fetchHistory, clock);
        collected := channelList;
        var a := new ChannelInfo[|channelList|](i requires 0 <= i < |channelList| => channelList[i]);
        assert a[..] == channelList;
        SortInPlace(a);
        report := Success(a[..]);
        SortByNameSorted(channelList);
        SortByNamePermutes(channelList);
        forall info | info in report.value ensures !info.isArchived {
          assert info in multiset(report.value);
          SummarizedNotArchived(channelList, channels, fetchHistory, clock, info);
        }
    }
  }
}
