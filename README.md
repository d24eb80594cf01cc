# Channel weather report: verified model

This project models the two pieces of logic in the Slack channel summary
report that carry real behaviour.

- **The classifier** (`ChannelInfo`). It turns one channel record and the
  time of the channel's last real message into a display record:
  - the copied fields;
  - purpose and topic text, with the "未設定" placeholder when empty;
  - the last-update text (`"<date> (<N> 日前)"`, or "不明" when unknown);
  - a weather icon. The icon comes from the age of the last message in days
    (thresholds 10, 20, 30, 45 and 60, each belonging to the higher bucket).
    A channel younger than 14 days is then forced to
    `:sunrise_over_mountains:`.
- **The report driver's selection and ordering** (the loop of `main`).
  - A failed channel listing is re-raised.
  - Archived channels are skipped.
  - Each remaining channel's history window is scanned in the order
    returned. The `ts` of the first message without a `subtype` is taken and
    the scan stops there.
  - A failed history call leaves that channel's last update unknown, and the
    channel is kept.
  - There is one summary per kept channel, and the list is stably sorted by
    name.

Modules, one per concern:

- `Wrappers`: `Option` and `Result`.
- `JsonText`: `json.dumps(s, ensure_ascii=False)` for a string, following
  the escapes of section 7 of RFC 8259 as Python writes them. It also holds
  `str.strip` and a JSON string decoder, which serves as the inverse of the
  escaping.
- `IntFormat`: Python's `%d`, with a parser as its inverse.
- `Classifier`: the `ChannelInfo` class and the pure functions its
  constructor is specified by.
- `NameOrder`: Python's `<` on `str`, proved a strict total order.
- `NameSort`: the stable sort, as a function with its lemmas and as an
  in-place insertion sort on an array.
- `ReportDriver`: the message scan, the per-channel loop and the whole list
  step.

How the model represents the source:

- `ChannelInfo`'s fields are `const`. The constructor still assigns `icon`
  three times (`:slack:`, then the recency icon, then perhaps the sunrise
  icon), as the source does. Nothing changes a summary after it is built.
- The clock is an input. A message `ts` becomes a `MessageStamp`: the date
  text and the age in whole days against the time-zone-aware "now". A
  channel's `created` becomes its age in whole days against the naive "now".
  The two ages stay separate, as they are in the source. Day counts are
  `timedelta.days`, so a timestamp in the future gives a negative count.
- The Slack API calls are inputs: the listing is a `Result`, and the history
  is a function from channel id to a `Result`.
- The last-update text has one space before the parenthesis, as `"%s (%d 日前)"` writes it.

## Model

| member | source | states |
|---|---|---|
| `JsonText.EscapeChar` | channel_info.py:28-31 | each character's escape is non-empty and never starts with a quote. It ends in a quote exactly when the character is a quote. A character other than quote, backslash or a control character is kept as itself. |
| `JsonText.Escape` | channel_info.py:28-31 | the escaped text is at least as long as the value and does not start with a quote. |
| `JsonText.Dumps` | channel_info.py:28-31 | `json.dumps` of a string is enclosed in one quote at each end. |
| `JsonText.StripLeading` | channel_info.py:31 | `lstrip`: the result is a suffix of the input, does not start with the stripped character, and only that character was removed. |
| `JsonText.StripTrailing` | channel_info.py:31 | `rstrip`: the result is a prefix of the input, does not end with the stripped character, and only that character was removed. |
| `JsonText.Strip` | channel_info.py:31 | `strip`: the result neither starts nor ends with the stripped character, and it is a contiguous piece of the input with only that character on either side. |
| `JsonText.EscapeRoundTrip` | channel_info.py:28-31 | decoding the escaped text gives back the original value, so the escaping loses nothing. |
| `JsonText.UnescapeEscapeThen` | channel_info.py:28-31 | decoding an escaped prefix followed by any text gives the original prefix followed by whatever the rest decodes to. |
| `JsonText.EscapePlain` | channel_info.py:28-31 | a value with no quote, backslash or control character is not changed by escaping. |
| `JsonText.EscapeSnoc` | channel_info.py:28-31 | escaping works character by character: escaping `s + [c]` gives the escape of `s` followed by the escape of `c`. |
| `IntFormat.NatDigits` | channel_info.py:46 | `%d` of a natural number is non-empty, all digits, and has a leading zero only for 0. |
| `IntFormat.FormatInt` | channel_info.py:46 | `%d` of an integer starts with a minus sign exactly when it is negative, is digits after that, and has no leading zero except for 0 itself. |
| `IntFormat.NegativeRoundTrip` | channel_info.py:46 | a minus sign followed by the digits of a positive number parses back to the negative number. |
| `IntFormat.FormatIntRoundTrip` | channel_info.py:46 | the `%d` text of any integer, negative included, parses back to the same integer. |
| `Classifier.DisplayText` | channel_info.py:27-41 | an empty purpose or topic gives exactly "未設定". A non-empty value gives its JSON escape without the enclosing quotes. That text decodes back to the value, and is the value unchanged when it is plain. The text is never empty. |
| `Classifier.AsWrittenText` | channel_info.py:27-41 | the source's `.strip('"')` form gives exactly "未設定" for an empty value. What it gives for other values is stated by the two lemmas below. |
| `Classifier.StripDumps` | channel_info.py:28-31 | for a non-empty value, stripping `"` from both ends of `json.dumps` leaves the escaped value minus any trailing quotes. The leading quote is the only one removed at the front. |
| `Classifier.EscapeTrailingQuote` | channel_info.py:28-31 | the escape of a value ending in `"` ends in backslash then quote. `rstrip('"')` of it keeps that backslash. |
| `Classifier.EscapeNoTrailingQuote` | channel_info.py:28-31 | the escape of a value not ending in `"` has no trailing quote for `rstrip` to remove. |
| `Classifier.AsWrittenOtherEnd` | channel_info.py:28-39 | for a value whose last character is not `"`, the source's text is the escaped value, and equals the corrected text. |
| `Classifier.AsWrittenQuoteEnd` | channel_info.py:28-39 | for a value ending in `"`, the source's text is the escaped value with its final quote removed. It differs from the corrected text and does not decode, while the corrected text decodes back to the value. |
| `Classifier.ThresholdsReached` | channel_info.py:47-58 | the count of thresholds reached is at most the number of thresholds. |
| `Classifier.BucketIcon` | channel_info.py:47-58 | the bucket chain gives one of the six recency icons. It gives `:sunny:` exactly below 10 days and the thunder icon exactly from 60 days on. |
| `Classifier.BucketByThresholds` | channel_info.py:47-58 | the recency icon is the bucket indexed by the number of thresholds (10, 20, 30, 45, 60) the age has reached. A threshold is reached on its own day, so each boundary belongs to the higher bucket, and any age below 10 (negative ones too) is `:sunny:`. |
| `Classifier.ThresholdsReachedMonotone` | channel_info.py:47-58 | a larger age reaches at least as many thresholds. |
| `Classifier.BucketMonotone` | channel_info.py:47-58 | an older message never gets an icon that comes earlier in the bucket order. |
| `Classifier.RecencyIcon` | channel_info.py:44-61 | the icon before the new-channel rule is `:question:` exactly when there is no last message. It is never the sunrise icon. |
| `Classifier.FinalIcon` | channel_info.py:25-66 | the final icon is one of the 8 display icons and never `:slack:`. It is the sunrise icon exactly when the channel is younger than 14 days, and otherwise the recency icon. |
| `Classifier.LastUpdateText` | channel_info.py:44-60 | the text is exactly "不明" when there is no last message. Otherwise it is the date, then " (", then the `%d` text of the age in days, then " 日前)". The number between them parses back to the age. |
| `Classifier.ChannelInfo.constructor` | channel_info.py:18-66 | id, name, created, archived flag and member count are copied unchanged. Purpose, topic, last-update text and icon follow the functions above. The texts are non-empty, and the icon is one of the 8 and never `:slack:`. |
| `NameOrder.BelowIrreflexive` | slack_post_channel_summary.py:123 | no name sorts before itself. |
| `NameOrder.BelowTransitive` | slack_post_channel_summary.py:123 | the name order is transitive. |
| `NameOrder.BelowTrichotomy` | slack_post_channel_summary.py:123 | any two names are equal or one sorts before the other. |
| `NameOrder.AtMostTransitive` | slack_post_channel_summary.py:123 | "sorts no later than" chains. |
| `NameSort.Insert` | slack_post_channel_summary.py:123 | insertion adds one entry, and the inserted entry is in the result. Where it goes is stated by the lemmas below. |
| `NameSort.SortByName` | slack_post_channel_summary.py:123 | the sort by name keeps the list's length. The lemmas below give the order, the permutation and the stability. |
| `NameSort.InsertPermutes` | slack_post_channel_summary.py:123 | inserting an entry adds exactly that entry. |
| `NameSort.SortByNamePermutes` | slack_post_channel_summary.py:123 | the sorted list is a permutation of the input list. |
| `NameSort.InsertSorted` | slack_post_channel_summary.py:123 | inserting into a list sorted by name keeps it sorted. |
| `NameSort.SortByNameSorted` | slack_post_channel_summary.py:123 | the sorted list is ordered non-decreasingly by name, with code-point lexicographic order. |
| `NameSort.InsertWithName` | slack_post_channel_summary.py:123 | insertion keeps the relative order of the entries with any given name. |
| `NameSort.SortByNameStable` | slack_post_channel_summary.py:123 | stability: for every name, the entries with that name appear in the same order before and after the sort. |
| `NameSort.InsertSplit` | slack_post_channel_summary.py:123 | when every entry from some position on sorts strictly above the new entry and the one before does not, insertion puts the new entry at that position. |
| `NameSort.OpenGap` | slack_post_channel_summary.py:123 | the shifting loop of one insertion step moves right by one exactly the entries after the gap that sort strictly above the new entry. Entries before the gap and beyond the prefix are untouched. |
| `NameSort.InsertAt` | slack_post_channel_summary.py:123 | one insertion step in place: the prefix up to the moved entry becomes `Insert(old prefix, entry)`, and the rest of the array is untouched. |
| `NameSort.SortInPlace` | slack_post_channel_summary.py:123 | the in-place sort leaves the array equal to `SortByName` of its old contents. |
| `ReportDriver.FirstActivityIndex` | slack_post_channel_summary.py:89-102 | the index is the first message without a subtype, or the window length when there is none. Every earlier message has a subtype. |
| `ReportDriver.FirstActivity` | slack_post_channel_summary.py:78-102 | the last update is absent exactly when every message in the window has a subtype, the empty window included. |
| `ReportDriver.FirstActivityIgnoresLater` | slack_post_channel_summary.py:102 | once an activity is found, messages after it have no effect on the result (the `break`). |
| `ReportDriver.ScanHistory` | slack_post_channel_summary.py:78-102 | the scanning loop with `continue` and `break` returns exactly `FirstActivity` of the window. |
| `ReportDriver.ChannelStamp` | slack_post_channel_summary.py:97-100 | the stamp handed to the classifier is absent when the history call failed or no message of the window is activity. Otherwise it is the clock's reading of the `ts` of the first activity. |
| `ReportDriver.ClassifyChannel` | slack_post_channel_summary.py:77-113 | the summary of one channel describes it with the first activity of its history as last update, or none when the history call failed. |
| `ReportDriver.FailedHistoryKept` | slack_post_channel_summary.py:81-114 | a non-archived channel whose history call failed still has a summary in the list. That summary describes the channel with no last update, so its last-update text is "不明" and its icon is the one chosen for a channel without activity. |
| `ReportDriver.Survivors` | slack_post_channel_summary.py:69-75 | every kept channel is a non-archived channel of the listing, and every non-archived channel of the listing is kept. The order is given by `SurvivorsSnoc`. |
| `ReportDriver.SurvivorsSnoc` | slack_post_channel_summary.py:69-75 | one more channel of the listing adds itself to the kept channels exactly when it is not archived. |
| `ReportDriver.SummarizesAppend` | slack_post_channel_summary.py:111-114 | appending the summary of the next non-archived channel keeps the list one summary per kept channel, in order. |
| `ReportDriver.CollectChannelInfos` | slack_post_channel_summary.py:69-114 | the accumulated list holds, in listing order, exactly one summary for each non-archived channel. Each summary describes its channel with that channel's own last update, and is kept even when the history call failed. |
| `ReportDriver.SummarizedNotArchived` | slack_post_channel_summary.py:72-75 | no entry of the accumulated list comes from an archived channel. |
| `ReportDriver.SummarizeChannels` | slack_post_channel_summary.py:61-123 | a failed listing gives that error and no list. Otherwise the result is the stable name sort of the accumulated summaries. It is sorted by name, is a permutation of them, and contains no archived channel. |

## Left out

- Argument parsing, logging and verbosity flags: process set-up with no behaviour to state.
- Slack client construction, the `SLACK_BOT_TOKEN` lookup and the API calls themselves: network I/O. Their results are the inputs `listing` and `fetchHistory`.
- The Jinja template load and render, and the `chat_postMessage` call: a foreign library, a file read and network I/O.
- `sys.exit(-1)` on failure: process plumbing. The re-raise is modelled as a `Failure` result.
- `datetime.now`, pytz time zones, `fromtimestamp(float(ts))` and `strftime`: wall clock, time zones and floats. They are replaced by the `Clock` inputs. The formatted date is an opaque string, and the ages are whole day counts.
- The clock is read once per run: the model's `Clock` is one fixed pair of functions. The source calls `datetime.now` again inside every `ChannelInfo` (channel_info.py:45 and 64), so ages computed a moment apart could differ across a day boundary. The model does not capture that.
- The `assert e.response[...]` checks in the `except` blocks (slack_post_channel_summary.py:104-105 and 117-118): in the source, an error whose `ok` is not `False` or whose `error` is empty fails the assert, and the resulting `AssertionError` ends the whole run, even for a history call. The model keeps only errors that pass: `ApiError.error` is a non-empty `ErrorText`, and the response's `ok` field is not modelled, so every error is taken to have `ok` equal to `False`. The aborted run on a failing assert is not modelled.
- `JsonText.Unescape`: surrogate-pair `\u` escapes are not decoded. The escaping never produces them, because `ensure_ascii=False` writes such characters as themselves.
- `NameSort.SortInPlace`: Python's sort is Timsort. The model uses insertion sort, which gives the same result because both are stable sorts by the same key.

## Findings

| source | as written | input that shows it | evidently intended | confidence | as-written member | corrected member |
|---|---|---|---|---|---|---|
| channel_info.py:28-39 | `json.dumps(v, ensure_ascii=False).strip('"')` removes every trailing `"`. That includes the quote of the escape `\"` when the value itself ends in `"`. | purpose `a"`: `json.dumps` gives `"a\""`, and the strip leaves `a\`, a dangling backslash that no JSON decoder accepts | remove only the pair of quotes `json.dumps` added, which leaves `a\"` | high (not executed) | `Classifier.AsWrittenText`, `Classifier.AsWrittenQuoteEnd` | `Classifier.DisplayText` (used by `ChannelInfo`), with its round-trip `ensures` |
