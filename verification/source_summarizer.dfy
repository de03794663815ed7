/**
 * source_summarizer.py: `summarize_source(source_name, messages)`. The
 * first 100 messages are joined by blank lines into the payload, the payload
 * is placed at the end of a fixed Korean briefing prompt, and the text the
 * generator returns for that prompt is the summary. The generator (an OpenAI
 * `responses.create` call) is the parameter `generate`.
 */
module SourceSummarizer {
  import opened Text

  /** `messages[:100]`. */
  const MESSAGE_CAP: nat := 100

  const SEPARATOR: string := "\n\n"

  /** The prompt template up to and including the `메시지:` line. */
  const PROMPT_HEAD: string :=
        "\n"
      + "아래는 텔레그램 채널의 최근 24시간 메시지다.\n"
      + "\n"
      + "직관적인 브리핑 구조로 정리하라.\n"
      + "\n"
      + "형식:\n"
      + "\n"
      + "🔥 **핵심 테마 1**\n"
      + "• bullet 3~4개\n"
      + "\n"
      + "📉 **핵심 테마 2**\n"
      + "• bullet 2~4개\n"
      + "\n"
      + "📌 **기타 포인트**\n"
      + "• bullet 2~3개\n"
      + "\n"
      + "조건:\n"
      + "- 채널 특성 설명 금지\n"
      + "- 문단형 서술 금지\n"
      + "- 구조 중심\n"
      + "- 800~1200자\n"
      + "- 이모지는 섹션 제목에만 사용\n"
      + "- 뉴스 나열 금지, 공통 주제로 묶기\n"
      + "\n"
      + "메시지:\n"

  function Min(a: nat, b: nat): nat {
    if a <= b then a else b
  }

  /** `"\n\n".join(messages[:100])`. */
  function Payload(messages: seq<string>): (r: string)
    ensures messages == [] ==> r == ""
    ensures messages != [] ==> |messages[0]| <= |r| && r[..|messages[0]|] == messages[0]
  {
    Join(messages[..Min(MESSAGE_CAP, |messages|)], SEPARATOR)
  }

  /** The f-string prompt: the fixed head, the payload, a final newline. */
  function Prompt(messages: seq<string>): string {
    PROMPT_HEAD + Payload(messages) + "\n"
  }

  /** `summarize_source`: the generator's output for the prompt, returned as it is. */
  function SummarizeSource(sourceName: string, messages: seq<string>, generate: string -> string): (r: string)
    ensures r == generate(PROMPT_HEAD + Payload(messages) + "\n")
  {
    generate(Prompt(messages))
  }

  /** Only the first 100 messages reach the payload: whatever follows them is dropped. */
  lemma PayloadIgnoresOverflow(messages: seq<string>, extra: seq<string>)
    requires |messages| >= MESSAGE_CAP
    ensures Payload(messages + extra) == Payload(messages)
  {
    assert (messages + extra)[..MESSAGE_CAP] == messages[..MESSAGE_CAP];
  }

  /** A single message is the whole payload. */
  lemma PayloadSingle(m: string)
    ensures Payload([m]) == m
  {
  }

  /** Below the cap, one more message extends the payload by a blank line and that message. */
  lemma PayloadSnoc(messages: seq<string>, m: string)
    requires 0 < |messages| < MESSAGE_CAP
    ensures Payload(messages + [m]) == Payload(messages) + SEPARATOR + m
  {
    assert (messages + [m])[..|messages| + 1] == messages[..|messages|] + [m];
    JoinSnoc(messages[..|messages|], m, SEPARATOR);
  }

  /** The prompt is the fixed head, ending in the `메시지:` line, then the payload verbatim, then a newline. */
  lemma PromptEmbedsPayload(messages: seq<string>)
    ensures PROMPT_HEAD[|PROMPT_HEAD| - 5..] == "메시지:\n"
    ensures var p := Prompt(messages);
      && |p| == |PROMPT_HEAD| + |Payload(messages)| + 1
      && p[..|PROMPT_HEAD|] == PROMPT_HEAD
      && p[|PROMPT_HEAD|..|p| - 1] == Payload(messages)
      && p[|p| - 1] == '\n'
  {
  }

  /** Different payloads make different prompts: the generator sees the payload unaltered. */
  lemma PromptInjective(a: seq<string>, b: seq<string>)
    requires Prompt(a) == Prompt(b)
    ensures Payload(a) == Payload(b)
  {
    PromptEmbedsPayload(a);
    PromptEmbedsPayload(b);
  }

  /**
   * The source name never reaches the generator: summaries of the same messages
   * under two names are the generator's answers to one and the same prompt.
   */
  lemma SummaryIsGeneratorOutput(a: string, b: string, messages: seq<string>, generate: string -> string)
    ensures SummarizeSource(a, messages, generate) == SummarizeSource(b, messages, generate)
    ensures SummarizeSource(a, messages, generate) == generate(PROMPT_HEAD + Payload(messages) + "\n")
  {
  }
}
