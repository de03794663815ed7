/**
 * The bot's own logic (bot_runner.py): turning the collected Telegram items
 * into one framed report per source, the messages the `/report` command and
 * the 07:00 daily round send, and the wait until the next 07:00 in Korea
 * Standard Time. The Bot API, the Telethon session and the event loop stay
 * outside: what a handler sends is returned as the list of texts, in order.
 */
module BotRunner {
  import opened Wrappers
  import opened Text
  import Config
  import opened ChannelScan
  import opened TelegramCollector
  import opened Grouping
  import opened SourceSummarizer

  /** `summary[:1000]` in compact mode. */
  const COMPACT_LIMIT: nat := 1000
  /** `report_text[:4000]` before each send. */
  const SEND_LIMIT: nat := 4000

  /** The rule drawn above and below each report's title: 18 copies of U+2501. */
  const RULE: string := "━━━━━━━━━━━━━━━━━━"

  const PROGRESS_TEXT: string := "📊 채널별 리포트 생성 중..."
  const DONE_TEXT: string := "✅ 완료"
  const MORNING_HEADER: string := "🗞\U{FE0F} *Morning Snapshot*\n최근 24시간 채널 요약입니다."
  const MORNING_CLOSING: string := "☀\U{FE0F} 좋은 하루 보내세요."

  // ----- formatting -----

  /** `s[:n]`: the first `n` characters, or all of `s` when it is shorter. */
  function Truncate(s: string, n: nat): (r: string)
    ensures |r| <= n && |r| <= |s| && r == s[..|r|]
    ensures |s| <= n <==> r == s
    ensures |s| > n ==> |r| == n
  {
    if |s| <= n then s else s[..n]
  }

  /** Whatever follows the first `n` characters never reaches the cut text. */
  lemma TruncateAppend(s: string, t: string, n: nat)
    requires |s| >= n
    ensures Truncate(s + t, n) == Truncate(s, n)
  {
    assert (s + t)[..n] == s[..n];
  }

  /** `CHANNEL_LABELS.get(source, f"📡 {source}")`, for the label table `labels`. */
  function Label(labels: map<string, string>, source: string): (r: string)
    ensures source in labels ==> r == labels[source]
    ensures source !in labels ==> r == "📡 " + source
  {
    if source in labels then labels[source] else "📡 " + source
  }

  /** Every configured channel has a label of its own, so the fallback is never used for them. */
  lemma LabelsCoverChannels(source: string)
    requires source in Config.TELEGRAM_CHANNELS
    ensures source in Config.CHANNEL_LABELS
    ensures Label(Config.CHANNEL_LABELS, source) == Config.CHANNEL_LABELS[source]
    ensures |Label(Config.CHANNEL_LABELS, source)| <= 100
  {
  }

  /** The triple-quoted f-string, before `.strip()`. */
  function Frame(name: string, summary: string): string {
    "\n" + RULE + "\n*" + name + "*\n" + RULE + "\n\n" + summary + "\n"
  }

  /** The title block every report opens with. */
  function Title(name: string): string {
    RULE + "\n*" + name + "*\n" + RULE
  }

  /** `formatted.strip()`. */
  function FormatReport(name: string, summary: string): (r: string)
    ensures r == Report(name, summary)
  {
    FormatShape(name, summary);
    Strip(Frame(name, summary))
  }

  /**
   * A report as it reads: the title block followed, unless the summary is
   * blank, by an empty line and the summary without its trailing whitespace.
   */
  function Report(name: string, summary: string): string {
    Title(name) + (if AllSpace(summary) then "" else "\n\n" + RStrip(summary))
  }

  /**
   * Stripping a block framed by a leading newline, a blank line and a final
   * newline leaves the block, then the body without its trailing whitespace
   * (nothing of it when the body is blank).
   */
  lemma StripFramed(title: string, body: string)
    requires title != [] && !IsSpace(title[0]) && !IsSpace(title[|title| - 1])
    ensures Strip("\n" + title + ("\n\n" + body + "\n"))
         == title + (if AllSpace(body) then "" else "\n\n" + RStrip(body))
  {
    RStripFramed(title, body);
    LStripNewline(title, if AllSpace(body) then "" else "\n\n" + RStrip(body));
  }

  lemma RStripFramed(title: string, body: string)
    requires title != [] && !IsSpace(title[|title| - 1])
    ensures RStrip("\n" + title + ("\n\n" + body + "\n"))
         == "\n" + title + (if AllSpace(body) then "" else "\n\n" + RStrip(body))
  {
    var head := "\n" + title;
    assert head[|head| - 1] == title[|title| - 1];
    RStripAfterSolid(head, "\n\n" + body + "\n");
    RStripBlankLine(body);
  }

  /** A blank line, a body and a newline right-strip to nothing or to the blank line and the stripped body. */
  lemma RStripBlankLine(body: string)
    ensures RStrip("\n\n" + body + "\n") == if AllSpace(body) then "" else "\n\n" + RStrip(body)
  {
    RStripAppendSpace("\n\n" + body, "\n");
    if AllSpace(body) {
      RStripAppendSpace("\n\n", body);
      RStripUnique("\n\n", []);
    } else {
      RStripAppendSolid("\n\n", body);
    }
  }

  lemma LStripNewline(title: string, rest: string)
    requires title != [] && !IsSpace(title[0])
    ensures LStrip("\n" + title + rest) == title + rest
  {
    assert ("\n" + title + rest)[1..] == title + rest;
    LStripSolid(title + rest);
  }

  /**
   * Stripping the framed text yields the report as it reads: the title block,
   * then the summary's trailing whitespace dropped and its leading whitespace
   * kept, since `.strip()` only reaches the outer ends.
   */
  lemma FormatShape(name: string, summary: string)
    ensures Strip(Frame(name, summary)) == Report(name, summary)
  {
    var title := Title(name);
    assert title[0] == '━' && title[|title| - 1] == '━';
    assert Frame(name, summary) == "\n" + title + ("\n\n" + summary + "\n");
    StripFramed(title, summary);
  }

  /** In compact mode a report holds at most 1000 characters of summary. */
  lemma CompactBound(name: string, summary: string)
    ensures |Report(name, Truncate(summary, COMPACT_LIMIT))| <= |Title(name)| + 2 + COMPACT_LIMIT
  {
  }

  /** The summary as it enters the frame. */
  function Compacted(summary: string, compact: bool): (r: string)
    ensures compact ==> |r| <= COMPACT_LIMIT && |r| <= |summary| && r == summary[..|r|]
    ensures compact ==> |r| == if |summary| <= COMPACT_LIMIT then |summary| else COMPACT_LIMIT
    ensures !compact ==> r == summary
  {
    if compact then Truncate(summary, COMPACT_LIMIT) else summary
  }

  /** One pass of the `for source, messages in grouped.items()` loop. */
  function ReportFor(labels: map<string, string>, source: string, messages: seq<string>, compact: bool,
                     generate: string -> string): string
  {
    Report(Label(labels, source), Compacted(SummarizeSource(source, messages, generate), compact))
  }

  /**
   * Compact reports of configured channels are short enough that the 4000
   * character cap applied at sending never cuts them.
   */
  lemma CompactReportUnclipped(source: string, messages: seq<string>, generate: string -> string)
    requires source in Config.TELEGRAM_CHANNELS
    ensures Truncate(ReportFor(Config.CHANNEL_LABELS, source, messages, true, generate), SEND_LIMIT)
         == ReportFor(Config.CHANNEL_LABELS, source, messages, true, generate)
  {
    LabelsCoverChannels(source);
    CompactBound(Label(Config.CHANNEL_LABELS, source), SummarizeSource(source, messages, generate));
  }

  // ----- generate_reports -----

  /** The reports for a list of collected items: one per source, in first-seen order. */
  function Reports(items: seq<TelegramItem>, compact: bool, generate: string -> string): (r: seq<string>)
    ensures |r| == |SourceOrder(items)|
  {
    var order := SourceOrder(items);
    seq(|order|, j requires 0 <= j < |order| =>
      ReportFor(Config.CHANNEL_LABELS, order[j], TextsOf(items, order[j]), compact, generate))
  }

  /** `generate_reports(compact)` run with the clock at `now`; an exception of the collector is passed on. */
  function Generated(compact: bool, now: int, history: string -> seq<Message>, generate: string -> string)
    : Result<seq<string>, Error>
  {
    match Run(Config.TELEGRAM_CHANNELS, now - Config.DAY, history)
    case Success(items) => Success(Reports(items, compact, generate))
    case Failure(e) => Failure(e)
  }

  /** The body of the `for source, messages in grouped.items()` loop: one group's report. */
  method FormatGroup(labels: map<string, string>, source: string, messages: seq<string>, compact: bool,
                     generate: string -> string)
    returns (report: string)
    ensures report == ReportFor(labels, source, messages, compact, generate)
  {
    var summary := SummarizeSource(source, messages, generate);
    if compact {
      summary := Truncate(summary, COMPACT_LIMIT);
    }
    var name := Label(labels, source);
    var formatted := Frame(name, summary);
    report := Strip(formatted);
    FormatShape(name, summary);
  }

  /**
   * The `for source, messages in grouped.items()` loop: one report per group,
   * in the dictionary's key order `order`.
   */
  method SummarizeGroups(order: seq<string>, grouped: map<string, seq<string>>, labels: map<string, string>,
                         compact: bool, generate: string -> string)
    returns (results: seq<string>)
    requires forall j :: 0 <= j < |order| ==> order[j] in grouped
    ensures |results| == |order|
    ensures forall j :: 0 <= j < |order| ==>
      results[j] == ReportFor(labels, order[j], grouped[order[j]], compact, generate)
  {
    ghost var expected := seq(|order|, j requires 0 <= j < |order| =>
      ReportFor(labels, order[j], grouped[order[j]], compact, generate));
    results := [];
    for k := 0 to |order|
      invariant |results| == k
      invariant forall j :: 0 <= j < k ==> results[j] == expected[j]
    {
      var source := order[k];
      var report := FormatGroup(labels, source, grouped[source], compact, generate);
      assert report == expected[k];
      results := results + [report];
    }
  }

  /** `generate_reports`: collect, group by source, then summarise and frame each group. */
  method GenerateReports(compact: bool, now: int, history: string -> seq<Message>, generate: string -> string)
    returns (r: Result<seq<string>, Error>)
    ensures r == Generated(compact, now, history, generate)
  {
    var data := CollectTelegram(Config.TELEGRAM_CHANNELS, now, history);
    if data.Failure? {
      return Failure(data.error);
    }
    var items := data.value;
    var order, grouped := GroupBySource(items);
    var results := SummarizeGroups(order, grouped, Config.CHANNEL_LABELS, compact, generate);
    assert results == Reports(items, compact, generate);
    return Success(results);
  }

  /**
   * Every collected message is summarised: its text is among the messages
   * handed over for the report of its own source.
   */
  lemma ReportsCoverItems(items: seq<TelegramItem>, compact: bool, generate: string -> string, k: nat)
    requires k < |items|
    ensures items[k].text in TextsOf(items, items[k].source)
    ensures exists j :: 0 <= j < |SourceOrder(items)| && SourceOrder(items)[j] == items[k].source
                     && Reports(items, compact, generate)[j]
                        == ReportFor(Config.CHANNEL_LABELS, items[k].source, TextsOf(items, items[k].source),
                                     compact, generate)
  {
    TextFiledUnderSource(items, k);
    var order := SourceOrder(items);
    var j :| 0 <= j < |order| && order[j] == items[k].source;
  }

  // ----- sending -----

  /** Each report as it is sent: cut to 4000 characters. */
  function Clip(reports: seq<string>): (r: seq<string>)
    ensures |r| == |reports|
    ensures forall j :: 0 <= j < |r| ==>
      |r[j]| <= SEND_LIMIT && |r[j]| <= |reports[j]| && r[j] == reports[j][..|r[j]|]
    ensures forall j :: 0 <= j < |r| ==>
      |r[j]| == if |reports[j]| <= SEND_LIMIT then |reports[j]| else SEND_LIMIT
  {
    seq(|reports|, j requires 0 <= j < |reports| => Truncate(reports[j], SEND_LIMIT))
  }

  /** The `for report_text in reports` sending loop: each report cut to 4000 characters, in order. */
  method SendReports(reports: seq<string>) returns (sent: seq<string>)
    ensures sent == Clip(reports)
  {
    sent := [];
    for k := 0 to |reports|
      invariant |sent| == k
      invariant forall j :: 0 <= j < k ==> sent[j] == Truncate(reports[j], SEND_LIMIT)
    {
      sent := sent + [Truncate(reports[k], SEND_LIMIT)];
    }
  }

  /**
   * The `/report` command: the progress notice, each full report cut to 4000
   * characters, then the closing notice. When collection raises, only the
   * progress notice has gone out.
   */
  method ManualReport(now: int, history: string -> seq<Message>, generate: string -> string)
    returns (sent: seq<string>)
    ensures match Generated(false, now, history, generate)
      case Success(reports) => sent == [PROGRESS_TEXT] + Clip(reports) + [DONE_TEXT]
      case Failure(_) => sent == [PROGRESS_TEXT]
    ensures forall j :: 0 <= j < |sent| ==> |sent[j]| <= SEND_LIMIT
  {
    sent := [PROGRESS_TEXT];
    var reports := GenerateReports(false, now, history, generate);
    if reports.Failure? {
      return;
    }
    var clipped := SendReports(reports.value);
    BoundedSends(PROGRESS_TEXT, clipped, DONE_TEXT);
    sent := sent + clipped + [DONE_TEXT];
  }

  /** Framing clipped reports with two short notices keeps every message within the limit. */
  lemma BoundedSends(head: string, clipped: seq<string>, tail: string)
    requires |head| <= SEND_LIMIT && |tail| <= SEND_LIMIT
    requires forall j :: 0 <= j < |clipped| ==> |clipped[j]| <= SEND_LIMIT
    ensures var sent := [head] + clipped + [tail];
      forall j :: 0 <= j < |sent| ==> |sent[j]| <= SEND_LIMIT
  {
    var sent := [head] + clipped + [tail];
    forall j | 0 <= j < |sent|
      ensures |sent[j]| <= SEND_LIMIT
    {
      if 0 < j < |sent| - 1 {
        assert sent[j] == clipped[j - 1];
      }
    }
  }

  /**
   * One pass of `daily_loop` that starts at `now`: the wait until the next
   * 07:00 KST, then, with the clock reading `woke` once the sleep is over,
   * the morning header, each compact report cut to 4000 characters and the
   * closing line. When collection raises nothing is sent and the loop ends.
   */
  method DailyRound(now: int, woke: int, history: string -> seq<Message>, generate: string -> string)
    returns (wait: int, sent: seq<string>)
    ensures wait == NextRunWait(now)
    ensures 0 < wait <= Config.DAY && AtSevenKst(now + wait)
    ensures match Generated(true, woke, history, generate)
      case Success(reports) => sent == [MORNING_HEADER] + Clip(reports) + [MORNING_CLOSING]
      case Failure(_) => sent == []
  {
    wait := NextRunWait(now);
    NextRunWaitCorrect(now);
    sent := [];
    var reports := GenerateReports(true, woke, history, generate);
    if reports.Failure? {
      return;
    }
    sent := [MORNING_HEADER];
    var clipped := SendReports(reports.value);
    sent := sent + clipped + [MORNING_CLOSING];
  }

  /**
   * The morning reports are never cut when sent: every source is a configured
   * channel, and a compact report of one stays under 4000 characters.
   */
  lemma DailyReportsUnclipped(woke: int, history: string -> seq<Message>, generate: string -> string)
    requires Generated(true, woke, history, generate).Success?
    ensures Clip(Generated(true, woke, history, generate).value) == Generated(true, woke, history, generate).value
  {
    var cutoff := woke - Config.DAY;
    var items := Run(Config.TELEGRAM_CHANNELS, cutoff, history).value;
    forall k | 0 <= k < |items|
      ensures items[k].source in Config.TELEGRAM_CHANNELS
    {
      RunSound(Config.TELEGRAM_CHANNELS, cutoff, history, k);
    }
    CompactReportsUnclipped(items, generate);
  }

  /** Compact reports over items from configured channels only pass the 4000 cap unchanged. */
  lemma CompactReportsUnclipped(items: seq<TelegramItem>, generate: string -> string)
    requires forall k :: 0 <= k < |items| ==> items[k].source in Config.TELEGRAM_CHANNELS
    ensures Clip(Reports(items, true, generate)) == Reports(items, true, generate)
  {
    var reports := Reports(items, true, generate);
    var order := SourceOrder(items);
    forall j | 0 <= j < |reports|
      ensures Truncate(reports[j], SEND_LIMIT) == reports[j]
    {
      var source := order[j];
      assert source in order;
      var k :| 0 <= k < |items| && items[k].source == source;
      assert reports[j] == ReportFor(Config.CHANNEL_LABELS, source, TextsOf(items, source), true, generate);
      CompactReportUnclipped(source, TextsOf(items, source), generate);
    }
  }

  // ----- the 07:00 schedule -----

  /** The instant falls on 07:00:00.000000 of some day in Korea Standard Time. */
  predicate AtSevenKst(t: int) {
    (t + Config.KST_OFFSET) % Config.DAY == 7 * Config.HOUR
  }

  /**
   * The wait computed in `daily_loop`: 07:00 KST on today's KST date, or on
   * the next day once that moment has been reached.
   */
  function NextRunWait(now: int): (r: int)
    ensures 0 < r <= Config.DAY
  {
    var local := now + Config.KST_OFFSET;
    var midnight := local - local % Config.DAY - Config.KST_OFFSET;
    var target := midnight + 7 * Config.HOUR;
    if now >= target then target + Config.DAY - now else target - now
  }

  /** Euclidean remainder by one day, recognised from any decomposition. */
  lemma DayRemainder(x: int, q: int, e: int)
    requires x == q * Config.DAY + e && 0 <= e < Config.DAY
    ensures x % Config.DAY == e
  {
    var r := x % Config.DAY;
    assert x == (x / Config.DAY) * Config.DAY + r;
    assert (q - x / Config.DAY) * Config.DAY == r - e;
  }

  /**
   * The wait is positive, at most a day, ends exactly at 07:00 KST and skips
   * no earlier 07:00 KST: the round runs at the first 07:00 strictly after `now`.
   */
  lemma NextRunWaitCorrect(now: int)
    ensures 0 < NextRunWait(now) <= Config.DAY
    ensures AtSevenKst(now + NextRunWait(now))
    ensures forall t :: now < t < now + NextRunWait(now) ==> !AtSevenKst(t)
  {
    var local := now + Config.KST_OFFSET;
    var m := local % Config.DAY;
    var q := local / Config.DAY;
    assert local == q * Config.DAY + m;
    var wait := NextRunWait(now);
    if m < 7 * Config.HOUR {
      assert wait == 7 * Config.HOUR - m;
      DayRemainder(now + wait + Config.KST_OFFSET, q, 7 * Config.HOUR);
    } else {
      assert wait == Config.DAY + 7 * Config.HOUR - m;
      DayRemainder(now + wait + Config.KST_OFFSET, q + 1, 7 * Config.HOUR);
    }
    forall t | now < t < now + wait
      ensures !AtSevenKst(t)
    {
      var e := t + Config.KST_OFFSET - q * Config.DAY;
      if e < Config.DAY {
        DayRemainder(t + Config.KST_OFFSET, q, e);
      } else {
        DayRemainder(t + Config.KST_OFFSET, q + 1, e - Config.DAY);
      }
    }
  }
}
