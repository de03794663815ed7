# Daily snapshot bot: a verified model of its pipeline

The daily snapshot bot gathers the last 24 hours of posts from a fixed list of
Telegram channels. For each channel it has a language model write a briefing and
sends the briefings to one chat. It does this every morning at 07:00 Korea
Standard Time (KST), and also whenever someone types `/report`. Apart from the
clients it drives, the bot is a small, sequential pipeline:

1. **Collect.** The channels are scanned one by one, newest message first. A
   channel's scan stops at its first message older than 24 hours. Messages
   without text are skipped, and each kept message gets a `https://t.me/` link.
   - There are two collectors. `telegram_collector.py` is the one the bot uses.
     `test_collector.py` is a variant whose link is optional.
   - `naver_collector.py` reads blog RSS feeds the same way. The difference is
     that a stale entry is skipped rather than ending the scan.
2. **Summarise.** Up to 100 texts of one source are joined by blank lines into
   a prompt. The generator's answer is the summary (`source_summarizer.py`).
3. **Report.**
   - The items are grouped by source, in first-seen order.
   - Each group's summary is framed under the channel's label. In the morning
     run the summary is first cut to 1000 characters.
   - Every message sent is cut to 4000 characters.
   - The next run waits until the next 07:00 KST (`bot_runner.py`).

## Modelling choices

- **Time.** An instant is an `int` counting microseconds since the Unix epoch,
  the resolution of Python's `datetime`.
  - KST is the fixed offset `Config.KST_OFFSET`, nine hours.
  - Converting an instant to KST (`astimezone`) does not change it, so dates
    are compared directly.
  - The clock reading `datetime.now(KST)` is a parameter, `now`.
- **External sources.**
  - Message streams are the parameter `history: string -> seq<Message>`.
    `history(channel)` is what `client.iter_messages(channel)` yields, newest
    first.
  - RSS feeds are `fetch: string -> seq<Entry>`, keyed by the feed URL, so the
    URL the collector builds is part of what is proved.
  - The OpenAI call is `generate: string -> string`, a function of the prompt.
- **Message fields.**
  - A message's text is `""` when Telethon gives `None` or `""`. Both are
    falsy in Python.
  - A missing chat is `chat == None`. A chat without a public name has
    `username == None`.
- **Missing chat in `telegram_collector.py`.** That collector reads
  `message.chat.username` without a guard. A kept message without a chat
  raises `AttributeError` and ends the whole call. This is modelled as
  `Failure(ChatMissing)`. A missing username is rendered as the text `None`,
  as an f-string renders it.
- **Sending.** What the `/report` handler and the daily loop send is the
  returned list of message texts, in sending order.
- **Strings.** A string is `seq<char>`, one `char` per Unicode code point, as
  Python's `str` indexes it. So `s[:n]` keeps `n` code points.
  - `str.strip` uses the exact `str.isspace()` set (`Text.IsSpace`).
- **Loops.** Each loop of the source is a Dafny method with the same loops,
  `break` and `continue`. The method is proved equal to a function of its
  inputs, and the properties are lemmas about that function.
  - The scan shared by both Telegram collectors is defined once, in module
    `ChannelScan`.
  - The `defaultdict` grouping is module `Grouping`.
- **Labels.** `generate_reports` reads `CHANNEL_LABELS` directly. The model's
  per-group method `FormatGroup` takes the label table as a parameter;
  `GenerateReports` passes `Config.CHANNEL_LABELS`.

## Model

| member | source | states |
|---|---|---|
| ChannelScan.Fresh | telegram_collector.py:11-15 | the messages a channel's scan reaches are a prefix of its history; every one is at or after the cutoff, and the first message not reached is older than the cutoff |
| ChannelScan.FreshAt | telegram_collector.py:11-15 | a scan that stops at the first message older than the cutoff, or at the end, has read exactly the fresh prefix |
| ChannelScan.FreshKeepsBoundary | telegram_collector.py:14-15 | every message before the first stale one is reached, one dated exactly at the cutoff included, because the test is strict `<` |
| ChannelScan.FreshStopsAtStale | telegram_collector.py:11-15 | a message older than the cutoff hides every later message of the same channel, however new |
| ChannelScan.ScannedNotStale | telegram_collector.py:6-15 | no post reached by the scan is older than now − 24 h |
| ChannelScan.ScannedFromHistory | telegram_collector.py:10-11 | every post reached comes from the history of the channel it is tagged with, and that channel is in the list |
| ChannelScan.ScannedAppend | telegram_collector.py:10-15 | channels are scanned independently: scanning two lists of channels is scanning each and concatenating |
| ChannelScan.ScannedComplete | telegram_collector.py:10-15 | every message in a channel's fresh prefix is reached whatever the other channels hold: `break` ends only the inner loop |
| ChannelScan.PostedSubseq | telegram_collector.py:10-18 | the posts kept are a subsequence of the channel histories taken channel by channel: channel order, then iteration order |
| ChannelScan.PostKeep | telegram_collector.py:17-23 | reading one more message with text appends exactly that message, tagged with its channel, to the posts kept |
| ChannelScan.PostSkip | telegram_collector.py:17 | reading one more message without text leaves the posts kept unchanged |
| ChannelScan.Permalink | telegram_collector.py:22 | a link starts with `https://t.me/` and is longer than the prefix plus the username |
| ChannelScan.PermalinkRoundTrip | telegram_collector.py:22 | username and message id can be read back from the link (for usernames without `/`) |
| Text.Digits | telegram_collector.py:22 | the decimal text of the message id is non-empty, all digits, and has no leading zero |
| Text.DigitsRoundTrip | telegram_collector.py:22 | the decimal text of an id parses back to the id |
| TelegramCollector.FormatOptional | telegram_collector.py:22 | an f-string renders a present username as itself and a missing one as `None` |
| TelegramCollector.CollectTelegram | telegram_collector.py:5-25 | the nested loop with `break` returns exactly the items of `Run` at cutoff now − 24 h, or raises `ChatMissing` exactly when `Run` does |
| TelegramCollector.Items | telegram_collector.py:18-23 | one item per kept post, in order, with the channel as source, the message's date and text, and the permalink |
| TelegramCollector.Run | telegram_collector.py:5-25 | the call fails exactly when some kept message has no chat; otherwise it returns at most one item per scanned message |
| TelegramCollector.RunRaises | telegram_collector.py:17-22 | a fresh message with text but no chat, in any channel, makes the whole call fail |
| TelegramCollector.RunNotStale | telegram_collector.py:6-15 | every item's date is at or after now − 24 h |
| TelegramCollector.RunSound | telegram_collector.py:17-23 | every item's source is a listed channel; its text is non-empty and copied unchanged from a message of that channel, whose date it carries; its link is that message's permalink |
| TelegramCollector.RunComplete | telegram_collector.py:10-23 | every message with text in any channel's fresh prefix yields its item, whatever the other channels hold |
| TelegramCollector.RunOrder | telegram_collector.py:10-18 | the items are made one each, in order, from a subsequence of the channel histories taken channel by channel |
| TestCollector.CollectTelegram | test_collector.py:5-29 | the nested loop with `break` and `continue` returns exactly `Run` at cutoff now − 24 h |
| TestCollector.Items | test_collector.py:19-27 | one item per kept post, in order, with the channel as source, the text, and the link rule |
| TestCollector.LinkOf | test_collector.py:19-21 | the link is present exactly when the message has a chat with a non-empty username, and is then its permalink |
| TestCollector.Run | test_collector.py:5-29 | at most one item per scanned message, and every item has non-empty text |
| TestCollector.RunNotStale | test_collector.py:6-14 | no kept message is older than now − 24 h |
| TestCollector.RunSound | test_collector.py:16-27 | every item's source is a listed channel and its text is the unchanged non-empty text of a fresh message of that channel; the link is present exactly when that message has a chat with a non-empty username, and is then its permalink |
| TestCollector.RunComplete | test_collector.py:10-27 | every message with text in any channel's fresh prefix yields its item: an empty message is skipped with `continue` and the channel's scan goes on |
| TestCollector.RunOrder | test_collector.py:9-10 | output order is channel order, then iteration order: the items come from a subsequence of the channel histories |
| NaverCollector.FeedUrl | naver_collector.py:11 | the feed URL is `https://rss.blog.naver.com/`, then the blog id, then `.xml` |
| NaverCollector.FeedUrlInjective | naver_collector.py:11 | distinct blog ids are read from distinct feed URLs `https://rss.blog.naver.com/<id>.xml` |
| NaverCollector.CollectNaver | naver_collector.py:6-29 | the nested loop with both `continue`s returns exactly `Run` at cutoff now − 24 h, reading each blog's feed at its URL |
| NaverCollector.Items | naver_collector.py:23-27 | one item per recent entry, in order: source the blog id, text `title + "\n" + summary`, link the entry's link |
| NaverCollector.Run | naver_collector.py:6-29 | there are never more items than entries in all the feeds |
| NaverCollector.RunNotStale | naver_collector.py:15-21 | every item comes from an entry that has a publication time, at or after the cutoff |
| NaverCollector.RunSound | naver_collector.py:10-27 | every item's source is a listed blog id, and the item is built from a recent entry of that blog's feed with text `title + "\n" + summary` and the entry's link |
| NaverCollector.ListedComplete | naver_collector.py:10-14 | every entry of every listed blog's feed is examined |
| NaverCollector.RunComplete | naver_collector.py:14-27 | every recent entry of every listed blog's feed yields its item, whatever precedes it in the feed |
| NaverCollector.SkipsOnlyItself | naver_collector.py:14-21 | an undated or stale entry drops only itself: the entries after it in the same feed are still judged and kept |
| NaverCollector.LabelsIgnored | naver_collector.py:10 | relabelling the blogs while keeping their ids does not change the output |
| NaverCollector.RunBounded | naver_collector.py:10-23 | there are at most as many items as entries in all the feeds, and the kept entries are a subsequence of all entries in blog order then feed order |
| NaverCollector.TextRoundTrip | naver_collector.py:25 | a title without a newline and the summary can be read back from the item text |
| SourceSummarizer.Payload | source_summarizer.py:11 | an empty message list gives the empty payload; otherwise the payload starts with the first message |
| Text.Join | source_summarizer.py:11 | joining no strings gives `""`; joining one or more starts with the first |
| Text.JoinSnoc | source_summarizer.py:11 | appending one more string to a non-empty join adds the separator and that string |
| SourceSummarizer.PayloadIgnoresOverflow | source_summarizer.py:11 | only the first 100 messages reach the payload: anything after them is dropped |
| SourceSummarizer.PayloadSingle | source_summarizer.py:11 | a single message is the whole payload |
| SourceSummarizer.PayloadSnoc | source_summarizer.py:11 | below the cap, one more message extends the payload by a blank line and that message, in order |
| SourceSummarizer.PromptEmbedsPayload | source_summarizer.py:13-39 | the prompt is the fixed head ending in the `메시지:` line, then the payload verbatim, then a newline |
| SourceSummarizer.PromptInjective | source_summarizer.py:13-39 | different payloads give different prompts |
| SourceSummarizer.SummarizeSource | source_summarizer.py:10-46 | the summary is the generator's answer, unchanged, to the fixed head followed by the payload and a newline |
| SourceSummarizer.SummaryIsGeneratorOutput | source_summarizer.py:10-46 | the source name never reaches the generator: summaries of the same messages under two names answer the same prompt |
| Grouping.SourceOrder | bot_runner.py:36-38 | the group keys are distinct and are exactly the sources that occur among the items |
| Grouping.GroupBySource | bot_runner.py:36-38 | the `defaultdict` loop produces key order `SourceOrder(items)` and the dictionary `Grouped(items)` |
| Grouping.FileNew | bot_runner.py:37-38 | an item from a new source adds that source as the last key, with a list holding its text |
| Grouping.FileKnown | bot_runner.py:37-38 | an item from a known source appends its text to that source's list and leaves the key order alone |
| Grouping.TextsPresent | bot_runner.py:36-38 | a source has a non-empty group exactly when it occurs among the items: no empty group exists |
| Grouping.GroupingPartitions | bot_runner.py:36-38 | the groups together hold exactly as many texts as there are items |
| Grouping.TextFiledUnderSource | bot_runner.py:37-38 | every item's text is in the group keyed by its own source |
| Grouping.FirstSeenOrder | bot_runner.py:36-42 | groups come in first-seen order: for groups i < j, an item of group i comes before every item of group j |
| BotRunner.Truncate | bot_runner.py:46 | `s[:n]` is the prefix of `s` of exactly `min(n, len(s))` characters: all of `s` when it has at most `n`, its first `n` otherwise |
| BotRunner.TruncateAppend | bot_runner.py:73 | whatever follows the first `n` characters never reaches the cut text |
| BotRunner.Compacted | bot_runner.py:45-46 | in compact mode the summary is cut to its first `min(1000, len)` characters; otherwise it is unchanged |
| BotRunner.Label | bot_runner.py:48 | the label is the table entry when the source has one, and `📡 ` + source otherwise |
| BotRunner.LabelsCoverChannels | bot_runner.py:48 | every configured channel has its own label of at most 100 characters, so the fallback never applies to it |
| Text.RStrip | bot_runner.py:58 | `rstrip` keeps the longest prefix that does not end in whitespace, and removes only whitespace |
| Text.LStrip | bot_runner.py:58 | `lstrip` keeps the longest suffix that does not start with whitespace, and removes only whitespace |
| Text.Strip | bot_runner.py:58 | a stripped string is no longer than the input and neither starts nor ends with whitespace |
| Text.StripOuterSpace | bot_runner.py:58 | a stripped string is the slice of the input that ends where its right strip ends, with only whitespace before and after it |
| Text.StripSlice | bot_runner.py:58 | right-stripping then left-stripping removes only outer whitespace of the original |
| Text.RStripUnique | bot_runner.py:58 | the right strip is the only prefix that ends in a non-space and leaves only whitespace behind |
| BotRunner.StripFramed | bot_runner.py:50-58 | stripping a block framed by a newline, a blank line and a closing newline leaves the block, then the body without trailing whitespace (nothing of it if blank) |
| BotRunner.FormatReport | bot_runner.py:50-58 | `formatted.strip()` is the report as it reads: title block, then an empty line and the right-stripped summary unless it is blank |
| BotRunner.FormatShape | bot_runner.py:50-58 | each report is the title block (rule, `*label*`, rule), then, unless the summary is blank, an empty line and the summary with its trailing whitespace removed |
| BotRunner.CompactBound | bot_runner.py:45-58 | in compact mode a report is at most the title block plus 1002 characters |
| BotRunner.CompactReportUnclipped | bot_runner.py:45-58 | a compact report of a configured channel is never cut by the 4000-character send limit |
| BotRunner.Reports | bot_runner.py:40-60 | there is exactly one report per group |
| BotRunner.FormatGroup | bot_runner.py:43-58 | one pass of the report loop returns the stripped, framed report of the group's (compacted) summary under its label |
| BotRunner.SummarizeGroups | bot_runner.py:40-60 | the report loop yields exactly one report per group, in key order, each the framed report of that group |
| BotRunner.GenerateReports | bot_runner.py:29-60 | `generate_reports` returns the reports of the collected items grouped in first-seen order, or passes on the collector's exception |
| BotRunner.ReportsCoverItems | bot_runner.py:36-58 | every collected message's text is handed to the summary of its own source's report |
| BotRunner.Clip | bot_runner.py:73 | each sent text is its report's first `min(4000, len)` characters, in report order |
| BotRunner.SendReports | bot_runner.py:71-75 | the sending loop sends each report cut to 4000 characters, in order |
| BotRunner.ManualReport | bot_runner.py:66-77 | `/report` sends the progress notice, every full report cut to 4000 characters, then `✅ 완료`; if collection raises, only the notice is sent; nothing sent exceeds 4000 characters |
| BotRunner.BoundedSends | bot_runner.py:67-77 | the two notices around clipped reports keep every message within 4000 characters |
| BotRunner.DailyRound | bot_runner.py:84-116 | one daily round waits until 07:00 KST, then sends the morning header, each compact report cut to 4000 characters and the closing line; nothing is sent if collection raises |
| BotRunner.DailyReportsUnclipped | bot_runner.py:98-111 | in the morning run the 4000-character send cut never shortens a report |
| BotRunner.CompactReportsUnclipped | bot_runner.py:98-111 | compact reports of items from configured channels all pass the send cut unchanged |
| BotRunner.NextRunWait | bot_runner.py:85-91 | the wait until 07:00 KST today, or tomorrow once that has passed, is positive and at most one day |
| BotRunner.NextRunWaitCorrect | bot_runner.py:85-91 | the wait is positive and at most one day, ends exactly at 07:00 KST, and no earlier 07:00 KST falls inside it |
| BotRunner.DayRemainder | bot_runner.py:86 | the position within a KST day is the same however the instant is split into whole days and a remainder |

## Left out

- Telethon session start and disconnect, and the Bot API calls: these are
  network I/O. Message histories and feeds are inputs; what is sent is the
  returned list of texts.
- The Markdown `parse_mode` of the sends. With it, the Bot API rejects a text
  with an unclosed `*` or `_`, which the 4000-character cut can produce; the
  send then raises, `/report` stops before `✅ 완료` and the daily loop's task
  ends. In the model every send succeeds.
- OpenAI `responses.create`: an opaque foreign call, modelled as the function
  parameter `generate`. Its exceptions are not modelled, and a Dafny function
  is deterministic while the real call is not: the model's summaries are the
  generator's answer to a prompt, not a fixed text.
- `asyncio.sleep`, `create_task`, `run_polling`, `post_init`, `main` and the
  `while True` of `daily_loop`: timers and concurrency.
  - One loop iteration is `BotRunner.DailyRound`.
  - The clock reading after the sleep is its parameter `woke`, because the
    wake-up time comes from the event loop.
  - The loop ending when collection raises is the `Failure` case of the round.
- BotRunner.DailyRound: the wait is an exact integer of microseconds, not
  the float seconds of `total_seconds()`. The computation is exact, so
  rounding is not captured.
- `client.iter_messages(channel)` raises for an unknown or private channel or
  on a flood wait, which aborts `collect_telegram` and everything that called
  it. `history` is total, so the model has no such failure.
- An RSS entry without `title`, `summary` or `link` makes `collect_naver`
  raise `AttributeError`. Every `Entry` of the model has all three.
- `print` calls and dotenv / environment loading: they have no effect on the
  pipeline's data.
- `naver_collector.py` reads `published_parsed` in the host's local time zone.
  The result depends on the machine, so entries carry an instant.
  - An entry with the attribute present but `None` would raise; only the
    missing attribute (`published == None`) is modelled.
  - Sub-second precision of a feed timestamp is not captured.
- The top-level scripts (`daily_snapshot.py`, `collect_messages.py`,
  `send_reports.py`, `test_source_summary.py`, `test_read_channel.py`,
  `test_telethon.py`, `test_bot.py`) are import-time I/O. Their only logic
  repeats the collector scan or the grouping modelled here.
- `config.py` is transcribed (`Config`), not verified. `NAVER_BLOGS` is not
  part of this model, because no modelled function reads it.
  `NaverCollector.CollectNaver` takes the blog list as a parameter.
