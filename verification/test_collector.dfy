/**
 * test_collector.py: the variant of `collect_telegram` that skips empty
 * messages with `continue` and attaches a permalink only when the message's
 * chat has a username.
 */
module TestCollector {
  import opened Wrappers
  import opened Seqs
  import opened ChannelScan
  import Config

  /** One `results` entry: `{"source", "text", "link"}`, where `link` may be `None`. */
  datatype ChannelItem = ChannelItem(source: string, text: string, link: Option<string>)

  /** `message.chat and message.chat.username`: a chat is present and its username is a non-empty string. */
  predicate HasPublicName(m: Message) {
    m.chat.Some? && m.chat.value.username.Some? && m.chat.value.username.value != ""
  }

  function LinkOf(m: Message): (r: Option<string>)
    ensures r.Some? <==> HasPublicName(m)
    ensures r.Some? ==> r.value == Permalink(m.chat.value.username.value, m.id)
  {
    if HasPublicName(m) then Some(Permalink(m.chat.value.username.value, m.id)) else None
  }

  function Items(ps: seq<Post>): (r: seq<ChannelItem>)
    ensures |r| == |ps| && forall k :: 0 <= k < |ps| ==> r[k] == ChannelItem(ps[k].0, ps[k].1.text, LinkOf(ps[k].1))
  {
    seq(|ps|, k requires 0 <= k < |ps| => ChannelItem(ps[k].0, ps[k].1.text, LinkOf(ps[k].1)))
  }

  lemma ItemsSnoc(ps: seq<Post>, p: Post)
    ensures Items(ps + [p]) == Items(ps) + [ChannelItem(p.0, p.1.text, LinkOf(p.1))]
  {
  }

  /** The items one run returns. */
  function Run(channels: seq<string>, cutoff: int, history: string -> seq<Message>): (r: seq<ChannelItem>)
    ensures |r| <= |Scanned(channels, cutoff, history)|
    ensures forall k :: 0 <= k < |r| ==> r[k].text != ""
  {
    var ps := Posted(channels, cutoff, history);
    FilterMembers(HasText, Scanned(channels, cutoff, history));
    assert forall k :: 0 <= k < |ps| ==> ps[k] in ps;
    Items(ps)
  }

  /** `collect_telegram` (test_collector.py), over the same message histories as the main collector. */
  method CollectTelegram(channels: seq<string>, now: int, history: string -> seq<Message>)
    returns (results: seq<ChannelItem>)
    ensures results == Run(channels, now - Config.DAY, history)
  {
    var cutoff := now - Config.DAY;
    results := [];
    var i := 0;
    while i < |channels|
      invariant i <= |channels|
      invariant results == Items(Posted(channels[..i], cutoff, history))
    {
      var channel := channels[i];
      var messages := history(channel);
      ghost var before := Scanned(channels[..i], cutoff, history);
      var j := 0;
      assert before + Tag(channel, messages[..j]) == before;
      ghost var posted := Filter(HasText, before + Tag(channel, messages[..j]));
      while j < |messages|
        invariant j <= |messages|
        invariant j <= |Fresh(messages, cutoff)|
        invariant posted == Filter(HasText, before + Tag(channel, messages[..j]))
        invariant results == Items(posted)
      {
        var message := messages[j];
        if message.date < cutoff {
          break;
        }
        FreshGrows(messages, cutoff, j);
        if message.text == "" {
          PostSkip(before, channel, messages, j);
          j := j + 1;
          continue;
        }
        PostKeep(before, channel, messages, j);
        var link: Option<string> := None;
        if message.chat.Some? && message.chat.value.username.Some? && message.chat.value.username.value != "" {
          link := Some(Permalink(message.chat.value.username.value, message.id));
        }
        assert link == LinkOf(message);
        ItemsSnoc(posted, (channel, message));
        results := results + [ChannelItem(channel, message.text, link)];
        posted := posted + [(channel, message)];
        j := j + 1;
      }
      FreshEnd(messages, cutoff, j);
      ChannelDone(channels, i, cutoff, history, j);
      assert Posted(channels[..i + 1], cutoff, history) == posted;
      i := i + 1;
    }
    assert channels[..i] == channels;
  }

  /** Every emitted message is at or after the cutoff. */
  lemma RunNotStale(channels: seq<string>, cutoff: int, history: string -> seq<Message>)
    ensures forall p | p in Posted(channels, cutoff, history) :: p.1.date >= cutoff
  {
    ScannedNotStale(channels, cutoff, history);
    FilterMembers(HasText, Scanned(channels, cutoff, history));
  }

  /**
   * Every item carries its channel and the unchanged, non-empty text of a message
   * from that channel; its link is present exactly when the chat has a username,
   * and is then that message's permalink.
   */
  lemma RunSound(channels: seq<string>, cutoff: int, history: string -> seq<Message>, k: nat)
    requires k < |Run(channels, cutoff, history)|
    ensures var it := Run(channels, cutoff, history)[k];
      && it.source in channels
      && it.text != ""
      && exists m | m in history(it.source) ::
           && m.date >= cutoff && m.text == it.text
           && (it.link.Some? <==> HasPublicName(m))
           && (it.link.Some? ==> it.link.value == Permalink(m.chat.value.username.value, m.id))
  {
    var ps := Posted(channels, cutoff, history);
    ScannedFromHistory(channels, cutoff, history);
    ScannedNotStale(channels, cutoff, history);
    FilterMembers(HasText, Scanned(channels, cutoff, history));
    assert ps[k] in ps;
    assert ps[k].1 in history(ps[k].0);
  }

  /**
   * Every message with text in any channel's fresh run is emitted: an empty
   * message is skipped with `continue` and the channel's scan goes on.
   */
  lemma RunComplete(channels: seq<string>, cutoff: int, history: string -> seq<Message>, i: nat, k: nat)
    requires i < |channels| && k < |Fresh(history(channels[i]), cutoff)|
    requires history(channels[i])[k].text != ""
    ensures var m := history(channels[i])[k];
      ChannelItem(channels[i], m.text, LinkOf(m)) in Run(channels, cutoff, history)
  {
    var ps := Posted(channels, cutoff, history);
    ScannedComplete(channels, cutoff, history, i, k);
    FilterMembers(HasText, Scanned(channels, cutoff, history));
    var n :| 0 <= n < |ps| && ps[n] == (channels[i], history(channels[i])[k]);
    assert Items(ps)[n] == ChannelItem(channels[i], history(channels[i])[k].text, LinkOf(history(channels[i])[k]));
  }

  /**
   * Output order is channel order, then iteration order: the items are made,
   * one each, from a subsequence of the channel histories.
   */
  lemma RunOrder(channels: seq<string>, cutoff: int, history: string -> seq<Message>)
    ensures Run(channels, cutoff, history) == Items(Posted(channels, cutoff, history))
    ensures Subseq(Posted(channels, cutoff, history), Histories(channels, history))
  {
    PostedSubseq(channels, cutoff, history);
  }
}
