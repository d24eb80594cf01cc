/**
 * The channel classifier: `ChannelInfo` turns one channel record and the
 * time of its last message into the fields the report template shows.
 *
 * The wall clock is not modelled. The age of the last message and the age
 * of the channel arrive as whole day counts (Python's timedelta.days, which
 * is negative for a time in the future), and the last message's date
 * arrives already formatted as text.
 */
module Classifier {
  import opened Wrappers
  import opened JsonText
  import opened IntFormat

  /** A channel as the channel listing returns it; `topic` and `purpose` are their `value` strings. */
  datatype Channel = Channel(
    id: string,
    name: string,
    created: int,
    isArchived: bool,
    numMembers: int,
    topic: string,
    purpose: string)

  /** The last non-system message: its date as '%Y-%m-%d' text and its age in whole days. */
  datatype MessageStamp = MessageStamp(date: string, ageDays: int)

  const NOT_SET := "未設定"
  const UNKNOWN := "不明"
  const DAYS_AGO_SUFFIX := " 日前)"

  const ICON_SLACK := ":slack:"
  const ICON_QUESTION := ":question:"
  const ICON_SUNRISE := ":sunrise_over_mountains:"
  const ICON_SUNNY := ":sunny:"
  const ICON_SUN_SMALL_CLOUD := ":sun_small_cloud:"
  const ICON_SUN_BEHIND_CLOUD := ":sun_behind_cloud:"
  const ICON_CLOUD := ":cloud:"
  const ICON_RAIN_CLOUD := ":rain_cloud:"
  const ICON_THUNDER := ":thunder_cloud_and_rain:"

  /** The recency icons, from the freshest bucket to the stalest. */
  const RECENCY_ICONS: seq<string> :=
    [ICON_SUNNY, ICON_SUN_SMALL_CLOUD, ICON_SUN_BEHIND_CLOUD, ICON_CLOUD, ICON_RAIN_CLOUD, ICON_THUNDER]

  /** The first day count of each bucket after the first. */
  const AGE_THRESHOLDS: seq<int> := [10, 20, 30, 45, 60]

  /** Every icon a finished summary can carry. */
  const DISPLAY_ICONS: set<string> :=
    {ICON_QUESTION, ICON_SUNRISE, ICON_SUNNY, ICON_SUN_SMALL_CLOUD, ICON_SUN_BEHIND_CLOUD,
     ICON_CLOUD, ICON_RAIN_CLOUD, ICON_THUNDER}

  /** A channel younger than this many days is shown as new. */
  const NEW_CHANNEL_DAYS := 14

  /**
   * Purpose or topic text: the placeholder when the value is empty, else
   * the JSON-escaped value with the enclosing quotes removed.
   */
  function DisplayText(value: string): (text: string)
    ensures value == [] ==> text == NOT_SET
    ensures value != [] ==> text == Escape(value) && Unescape(text) == Some(value)
    ensures value != [] && IsPlain(value) ==> text == value
    ensures text != []
  {
    if value != [] then
      var d := Dumps(value);
      var t := d[1..|d| - 1];
      assert t == Escape(value);
      EscapeRoundTrip(value);
      if IsPlain(value) then EscapePlain(value); t else t
    else
      NOT_SET
  }

  lemma StripDumps(value: string)
    requires value != []
    ensures Strip(Dumps(value), QUOTE) == StripTrailing(Escape(value), QUOTE)
  {
    var e := Escape(value);
    var d := Dumps(value);
    assert d[1..] == e + [QUOTE];
    assert (e + [QUOTE])[0] == e[0];
    assert StripLeading(d, QUOTE) == e + [QUOTE];
    assert (e + [QUOTE])[..|e|] == e;
  }

  /** Escaping a value that ends in a double quote ends in backslash, quote. */
  lemma EscapeTrailingQuote(init: string)
    ensures Escape(init + [QUOTE]) == Escape(init) + [BACKSLASH, QUOTE]
    ensures StripTrailing(Escape(init + [QUOTE]), QUOTE) == Escape(init) + [BACKSLASH]
  {
    EscapeSnoc(init, QUOTE);
    var front := Escape(init) + [BACKSLASH];
    assert Escape(init) + [BACKSLASH, QUOTE] == front + [QUOTE];
    StripTrailingOnce(front, QUOTE);
  }

  /** Escaping a value that does not end in a double quote does not end in one either. */
  lemma EscapeNoTrailingQuote(init: string, last: char)
    requires last != QUOTE
    ensures StripTrailing(Escape(init + [last]), QUOTE) == Escape(init + [last])
  {
    EscapeSnoc(init, last);
    var tail := EscapeChar(last);
    var e := Escape(init) + tail;
    assert e[|e| - 1] == tail[|tail| - 1];
  }

  /** Purpose or topic text as the source computes it, with `.strip('"')`. */
  function AsWrittenText(value: string): (text: string)
    ensures value == [] ==> text == NOT_SET
  {
    if value != [] then Strip(Dumps(value), QUOTE) else NOT_SET
  }

  /**
   * For a value that does not end in a double quote, the source's text is
   * the escaped value, the same as the corrected text.
   */
  lemma AsWrittenOtherEnd(init: string, last: char)
    requires last != QUOTE
    ensures AsWrittenText(init + [last]) == Escape(init + [last]) == DisplayText(init + [last])
  {
    StripDumps(init + [last]);
    EscapeNoTrailingQuote(init, last);
  }

  /**
   * For a value ending in a double quote, `.strip('"')` also removes the
   * quote of the value's own escape `\"`. The text left ends in a lone
   * backslash, which no JSON decoder accepts, while the corrected text
   * decodes back to the value.
   */
  lemma AsWrittenQuoteEnd(init: string)
    ensures AsWrittenText(init + [QUOTE]) == Escape(init) + [BACKSLASH]
    ensures AsWrittenText(init + [QUOTE]) != DisplayText(init + [QUOTE])
    ensures Unescape(AsWrittenText(init + [QUOTE])) == None
    ensures Unescape(DisplayText(init + [QUOTE])) == Some(init + [QUOTE])
  {
    StripDumps(init + [QUOTE]);
    EscapeTrailingQuote(init);
    UnescapeEscapeThen(init, [BACKSLASH]);
    assert Unescape([BACKSLASH]) == None;
  }

  /** How many of the thresholds `ts` the day count has reached. */
  function ThresholdsReached(ts: seq<int>, days: int): (n: nat)
    ensures n <= |ts|
  {
    if ts == [] then 0 else (if ts[0] <= days then 1 else 0) + ThresholdsReached(ts[1..], days)
  }

  /** The recency bucket table of the source. */
  function BucketIcon(days: int): (icon: string)
    ensures icon in RECENCY_ICONS
    ensures icon == ICON_SUNNY <==> days < 10
    ensures icon == ICON_THUNDER <==> days >= 60
  {
    if days < 10 then ICON_SUNNY
    else if days < 20 then ICON_SUN_SMALL_CLOUD
    else if days < 30 then ICON_SUN_BEHIND_CLOUD
    else if days < 45 then ICON_CLOUD
    else if days < 60 then ICON_RAIN_CLOUD
    else ICON_THUNDER
  }

  /**
   * The bucket is the number of thresholds the age has reached, and a
   * threshold is reached on the day itself: each boundary belongs to the
   * higher bucket.
   */
  lemma BucketByThresholds(days: int)
    ensures ThresholdsReached(AGE_THRESHOLDS, days) < |RECENCY_ICONS|
    ensures BucketIcon(days) == RECENCY_ICONS[ThresholdsReached(AGE_THRESHOLDS, days)]
    ensures forall i | 0 <= i < |AGE_THRESHOLDS| ::
      AGE_THRESHOLDS[i] <= days <==> i < ThresholdsReached(AGE_THRESHOLDS, days)
  {
    var ts := AGE_THRESHOLDS;
    assert ThresholdsReached([60], days) == if 60 <= days then 1 else 0 by {
      assert [60][1..] == [];
    }
    assert ThresholdsReached([45, 60], days) == (if 45 <= days then 1 else 0) + ThresholdsReached([60], days) by {
      assert [45, 60][1..] == [60];
    }
    assert ThresholdsReached([30, 45, 60], days) == (if 30 <= days then 1 else 0) + ThresholdsReached([45, 60], days) by {
      assert [30, 45, 60][1..] == [45, 60];
    }
    assert ThresholdsReached([20, 30, 45, 60], days) == (if 20 <= days then 1 else 0) + ThresholdsReached([30, 45, 60], days) by {
      assert [20, 30, 45, 60][1..] == [30, 45, 60];
    }
    assert ThresholdsReached(ts, days) == (if 10 <= days then 1 else 0) + ThresholdsReached([20, 30, 45, 60], days) by {
      assert ts[1..] == [20, 30, 45, 60];
    }
  }

  lemma {:induction false} ThresholdsReachedMonotone(ts: seq<int>, d1: int, d2: int)
    requires d1 <= d2
    ensures ThresholdsReached(ts, d1) <= ThresholdsReached(ts, d2)
  {
    if ts != [] {
      ThresholdsReachedMonotone(ts[1..], d1, d2);
    }
  }

  /** An older message never gets a fresher icon. */
  lemma BucketMonotone(d1: int, d2: int)
    requires d1 <= d2
    ensures exists i, j | 0 <= i <= j < |RECENCY_ICONS| ::
      BucketIcon(d1) == RECENCY_ICONS[i] && BucketIcon(d2) == RECENCY_ICONS[j]
  {
    BucketByThresholds(d1);
    BucketByThresholds(d2);
    ThresholdsReachedMonotone(AGE_THRESHOLDS, d1, d2);
    var i := ThresholdsReached(AGE_THRESHOLDS, d1);
    var j := ThresholdsReached(AGE_THRESHOLDS, d2);
    assert BucketIcon(d1) == RECENCY_ICONS[i] && BucketIcon(d2) == RECENCY_ICONS[j];
  }

  /** The icon the last-update test chooses, before the new-channel rule. */
  function RecencyIcon(stamp: Option<MessageStamp>): (icon: string)
    ensures icon == ICON_QUESTION <==> stamp.None?
    ensures icon in DISPLAY_ICONS - {ICON_SUNRISE}
  {
    match stamp
    case None => ICON_QUESTION
    case Some(m) => BucketIcon(m.ageDays)
  }

  /** The icon a summary ends with. */
  function FinalIcon(stamp: Option<MessageStamp>, channelAgeDays: int): (icon: string)
    ensures icon in DISPLAY_ICONS && icon != ICON_SLACK
    ensures icon == ICON_SUNRISE <==> channelAgeDays < NEW_CHANNEL_DAYS
    ensures channelAgeDays >= NEW_CHANNEL_DAYS ==> icon == RecencyIcon(stamp)
  {
    if channelAgeDays < NEW_CHANNEL_DAYS then ICON_SUNRISE else RecencyIcon(stamp)
  }

  /** '"%s (%d 日前)" % (date, days)' when the last message is known, else the placeholder. */
  function LastUpdateText(stamp: Option<MessageStamp>): (text: string)
    ensures stamp.None? <==> text == UNKNOWN
    ensures stamp.Some? ==>
      var date := stamp.value.date;
      |text| >= |date| + 2 + |DAYS_AGO_SUFFIX| + 1
      && text[..|date|] == date
      && text[|date|..|date| + 2] == " ("
      && text[|text| - |DAYS_AGO_SUFFIX|..] == DAYS_AGO_SUFFIX
      && text[|date| + 2..|text| - |DAYS_AGO_SUFFIX|] == FormatInt(stamp.value.ageDays)
      && ParseInt(text[|date| + 2..|text| - |DAYS_AGO_SUFFIX|]) == Some(stamp.value.ageDays)
  {
    match stamp
    case None => UNKNOWN
    case Some(m) =>
      var days := FormatInt(m.ageDays);
      var text := m.date + " (" + days + DAYS_AGO_SUFFIX;
      FormatIntRoundTrip(m.ageDays);
      assert text[|m.date| + 2..|text| - |DAYS_AGO_SUFFIX|] == days;
      text
  }

  /** One channel's summary, as the report template reads it. */
  class ChannelInfo {
    const id: string
    const name: string
    const created: int
    const isArchived: bool
    const numMembers: int
    const purpose: string
    const topic: string
    const lastUpdate: string
    const icon: string

    /** The summary holds what the classifier derives from these inputs. */
    predicate Describes(channel: Channel, stamp: Option<MessageStamp>, channelAgeDays: int) {
      && id == channel.id
      && name == channel.name
      && created == channel.created
      && isArchived == channel.isArchived
      && numMembers == channel.numMembers
      && purpose == DisplayText(channel.purpose)
      && topic == DisplayText(channel.topic)
      && lastUpdate == LastUpdateText(stamp)
      && icon == FinalIcon(stamp, channelAgeDays)
    }

    constructor (channel: Channel, stamp: Option<MessageStamp>, channelAgeDays: int)
      ensures Describes(channel, stamp, channelAgeDays)
      ensures purpose != [] && topic != [] && lastUpdate != []
      ensures icon in DISPLAY_ICONS && icon != ICON_SLACK
    {
      id := channel.id;
      name := channel.name;
      created := channel.created;
      isArchived := channel.isArchived;
      numMembers := channel.numMembers;
      icon := ICON_SLACK;

      purpose := DisplayText(channel.purpose);
      topic := DisplayText(channel.topic);

      // Icon from the age of the last message
      if stamp.Some? {
        lastUpdate := stamp.value.date + " (" + FormatInt(stamp.value.ageDays) + DAYS_AGO_SUFFIX;
        icon := BucketIcon(stamp.value.ageDays);
      } else {
        lastUpdate := UNKNOWN;
        icon := ICON_QUESTION;
      }

      // Icon from the age of the channel
      if channelAgeDays < NEW_CHANNEL_DAYS {
        icon := ICON_SUNRISE;
      }
    }
  }
}
