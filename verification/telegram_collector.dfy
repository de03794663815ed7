/**
 * telegram_collector.py: `collect_telegram(client, channels)`, the collector
 * the bot runs. Every kept message gets a permalink built from
 * `message.chat.username`, read without a guard.
 */
module TelegramCollector {
  import opened Wrappers
  import opened Seqs
  import opened ChannelScan
  import Config

  /** One `results` entry: `{"source", "date", "text", "link"}`. */
  datatype TelegramItem = TelegramItem(source: string, date: int, text: string, link: string)

  /** The `AttributeError` raised by `message.chat.username` when `message.chat` is `None`. */
  datatype Error = ChatMissing

  /** How an f-string renders an optional string: `None` becomes the text "None". */
  function FormatOptional(u: Option<string>): (r: string)
    ensures u.Some? ==> r == u.value
    ensures u.None? ==> r == "None"
  {
    match u
    case Some(s) => s
    case None => "None"
  }

  /** The post can be turned into an item without raising. */
  predicate HasChat(p: Post) {
    p.1.chat.Some?
  }

  predicate AllHaveChat(ps: seq<Post>) {
    forall p | p in ps :: HasChat(p)
  }

  function ItemOf(p: Post): TelegramItem
    requires HasChat(p)
  {
    TelegramItem(p.0, p.1.date, p.1.text, Permalink(FormatOptional(p.1.chat.value.username), p.1.id))
  }

  function Items(ps: seq<Post>): (r: seq<TelegramItem>)
    requires AllHaveChat(ps)
    ensures |r| == |ps| && forall k :: 0 <= k < |ps| ==> r[k] == ItemOf(ps[k])
  {
    seq(|ps|, k requires 0 <= k < |ps| => ItemOf(ps[k]))
  }

  /** What one run returns: the items of every posted message, or the error of the first without a chat. */
  function Run(channels: seq<string>, cutoff: int, history: string -> seq<Message>): (r: Result<seq<TelegramItem>, Error>)
    ensures r.Failure? <==> exists p :: p in Posted(channels, cutoff, history) && p.1.chat.None?
    ensures r.Success? ==> |r.value| <= |Scanned(channels, cutoff, history)|
  {
    var ps := Posted(channels, cutoff, history);
    if AllHaveChat(ps) then Success(Items(ps)) else Failure(ChatMissing)
  }

  lemma ItemsSnoc(ps: seq<Post>, p: Post)
    requires AllHaveChat(ps) && HasChat(p)
    ensures AllHaveChat(ps + [p])
    ensures Items(ps + [p]) == Items(ps) + [ItemOf(p)]
  {
  }

  /** A fresh message with text but no chat, anywhere in a channel's fresh run, makes the whole run raise. */
  lemma RunRaises(channels: seq<string>, cutoff: int, history: string -> seq<Message>, i: nat, j: nat)
    requires i < |channels| && j < |Fresh(history(channels[i]), cutoff)|
    requires history(channels[i])[j].text != "" && history(channels[i])[j].chat.None?
    ensures Run(channels, cutoff, history) == Failure(ChatMissing)
  {
    ScannedComplete(channels, cutoff, history, i, j);
    FilterMembers(HasText, Scanned(channels, cutoff, history));
    assert (channels[i], history(channels[i])[j]) in Posted(channels, cutoff, history);
  }

  /**
   * `collect_telegram`: `history(channel)` is what `client.iter_messages(channel)`
   * yields, newest first; `now` is `datetime.now(KST)`.
   */
  method CollectTelegram(channels: seq<string>, now: int, history: string -> seq<Message>)
    returns (r: Result<seq<TelegramItem>, Error>)
    ensures r == Run(channels, now - Config.DAY, history)
  {
    var cutoff := now - Config.DAY;
    var results: seq<TelegramItem> := [];
    var i := 0;
    while i < |channels|
      invariant i <= |channels|
      invariant AllHaveChat(Posted(channels[..i], cutoff, history))
      invariant results == Items(Posted(channels[..i], cutoff, history))
    {
      var channel := channels[i];
      var messages := history(channel);
      ghost var before := Scanned(channels[..i], cutoff, history);
      var j := 0;
      assert before + Tag(channel, messages[..j]) == before;
      ghost var posted := Filter(HasText, before + Tag(channel, messages[..j]));
      while j < |messages|
        invariant j <= |messages|
        invariant j <= |Fresh(messages, cutoff)|
        invariant posted == Filter(HasText, before + Tag(channel, messages[..j]))
        invariant AllHaveChat(posted) && results == Items(posted)
      {
        var message := messages[j];
        if message.date < cutoff {
          break;
        }
        FreshGrows(messages, cutoff, j);
        if message.text != "" {
          PostKeep(before, channel, messages, j);
          if message.chat.None? {
            RunRaises(channels, cutoff, history, i, j);
            return Failure(ChatMissing);
          }
          ItemsSnoc(posted, (channel, message));
          results := results + [TelegramItem(channel, message.date, message.text,
                                             Permalink(FormatOptional(message.chat.value.username), message.id))];
          posted := posted + [(channel, message)];
        } else {
          PostSkip(before, channel, messages, j);
        }
        j := j + 1;
      }
      FreshEnd(messages, cutoff, j);
      ChannelDone(channels, i, cutoff, history, j);
      assert Posted(channels[..i + 1], cutoff, history) == posted;
      i := i + 1;
    }
    assert channels[..i] == channels;
    return Success(results);
  }

  /** No item older than the cutoff is emitted. */
  lemma RunNotStale(channels: seq<string>, cutoff: int, history: string -> seq<Message>)
    requires Run(channels, cutoff, history).Success?
    ensures forall it | it in Run(channels, cutoff, history).value :: it.date >= cutoff
  {
    ScannedNotStale(channels, cutoff, history);
    FilterMembers(HasText, Scanned(channels, cutoff, history));
  }

  /**
   * Every item is a message of its own channel's history, with non-empty text
   * copied unchanged and the permalink of that message.
   */
  lemma RunSound(channels: seq<string>, cutoff: int, history: string -> seq<Message>, k: nat)
    requires Run(channels, cutoff, history).Success? && k < |Run(channels, cutoff, history).value|
    ensures var it := Run(channels, cutoff, history).value[k];
      && it.source in channels
      && it.text != ""
      && exists m | m in history(it.source) ::
           && m.date == it.date && m.text == it.text && m.chat.Some?
           && it.link == Permalink(FormatOptional(m.chat.value.username), m.id)
  {
    var ps := Posted(channels, cutoff, history);
    ScannedFromHistory(channels, cutoff, history);
    FilterMembers(HasText, Scanned(channels, cutoff, history));
    assert ps[k] in ps;
    assert ps[k].1 in history(ps[k].0);
  }

  /** Every message with text in any channel's fresh run is emitted, whatever the other channels hold. */
  lemma RunComplete(channels: seq<string>, cutoff: int, history: string -> seq<Message>, i: nat, k: nat)
    requires Run(channels, cutoff, history).Success?
    requires i < |channels| && k < |Fresh(history(channels[i]), cutoff)|
    requires history(channels[i])[k].text != ""
    ensures var p := (channels[i], history(channels[i])[k]);
      HasChat(p) && ItemOf(p) in Run(channels, cutoff, history).value
  {
    var ps := Posted(channels, cutoff, history);
    ScannedComplete(channels, cutoff, history, i, k);
    FilterMembers(HasText, Scanned(channels, cutoff, history));
    var n :| 0 <= n < |ps| && ps[n] == (channels[i], history(channels[i])[k]);
    assert Items(ps)[n] == ItemOf(ps[n]);
  }

  /**
   * The items are made, one each and in order, from a subsequence of the
   * channel histories taken channel by channel.
   */
  lemma RunOrder(channels: seq<string>, cutoff: int, history: string -> seq<Message>)
    requires Run(channels, cutoff, history).Success?
    ensures var ps := Posted(channels, cutoff, history);
      && AllHaveChat(ps)
      && Run(channels, cutoff, history).value == Items(ps)
      && Subseq(ps, Histories(channels, history))
  {
    PostedSubseq(channels, cutoff, history);
  }
}
