/**
 * What both Telegram collectors read, and the scan they share: for each
 * channel in turn, walk its messages newest first, stop at the first one older
 * than the cutoff, and keep the ones that carry text.
 */
module ChannelScan {
  import opened Wrappers
  import opened Seqs
  import opened Text

  /** The chat a message belongs to; `username` is `None` for a chat without a public name. */
  datatype Chat = Chat(username: Option<string>)

  /**
   * One message as `client.iter_messages` yields it. `date` is an instant;
   * `text` is `""` when the message has no text (Telethon's `None` or `""`,
   * both falsy); `chat` is `None` when Telethon has no chat entity for it.
   */
  datatype Message = Message(date: int, text: string, id: nat, chat: Option<Chat>)

  /** A message paired with the channel name it was read under. */
  type Post = (string, Message)

  /** The newest-first run of messages before the first one older than `cutoff` (a take-while). */
  function Fresh(ms: seq<Message>, cutoff: int): (r: seq<Message>)
    ensures |r| <= |ms| && r == ms[..|r|]
    ensures forall k :: 0 <= k < |r| ==> r[k].date >= cutoff
    ensures |r| < |ms| ==> ms[|r|].date < cutoff
  {
    if ms == [] || ms[0].date < cutoff then [] else [ms[0]] + Fresh(ms[1..], cutoff)
  }

  /** A loop that stopped at index `j` for the reason the collectors stop has scanned exactly `Fresh`. */
  lemma FreshAt(ms: seq<Message>, cutoff: int, j: nat)
    requires j <= |ms|
    requires forall k :: 0 <= k < j ==> ms[k].date >= cutoff
    requires j == |ms| || ms[j].date < cutoff
    ensures Fresh(ms, cutoff) == ms[..j]
  {
  }

  /** Reading one more message that is not stale keeps the loop within the fresh run. */
  lemma FreshGrows(ms: seq<Message>, cutoff: int, j: nat)
    requires j <= |Fresh(ms, cutoff)| && j < |ms| && ms[j].date >= cutoff
    ensures j + 1 <= |Fresh(ms, cutoff)|
  {
  }

  /** The loop stopped, at a stale message or at the end: it has read exactly the fresh run. */
  lemma FreshEnd(ms: seq<Message>, cutoff: int, j: nat)
    requires j <= |Fresh(ms, cutoff)|
    requires j == |ms| || (j < |ms| && ms[j].date < cutoff)
    ensures j == |Fresh(ms, cutoff)|
  {
  }

  /**
   * The stop test is strict: every message up to the first one older than the
   * cutoff is reached, including one dated exactly at the cutoff.
   */
  lemma FreshKeepsBoundary(ms: seq<Message>, cutoff: int, j: nat)
    requires j < |ms| && forall k :: 0 <= k <= j ==> ms[k].date >= cutoff
    ensures j < |Fresh(ms, cutoff)| && Fresh(ms, cutoff)[j] == ms[j]
  {
  }

  /** A stale message hides every message after it, however new. */
  lemma {:induction false} FreshStopsAtStale(ms: seq<Message>, m: Message, rest: seq<Message>, cutoff: int)
    requires m.date < cutoff
    ensures Fresh(ms + [m] + rest, cutoff) == Fresh(ms, cutoff)
    decreases |ms|
  {
    if ms == [] {
      assert (ms + [m] + rest)[0] == m;
    } else {
      assert (ms + [m] + rest)[1..] == ms[1..] + [m] + rest;
      FreshStopsAtStale(ms[1..], m, rest, cutoff);
    }
  }

  /** The posts a full scan reaches, channel by channel in list order. */
  function Scanned(channels: seq<string>, cutoff: int, history: string -> seq<Message>): (r: seq<Post>)
    decreases |channels|
  {
    if channels == [] then []
    else
      var c := channels[|channels| - 1];
      Scanned(channels[..|channels| - 1], cutoff, history) + Tag(c, Fresh(history(c), cutoff))
  }

  /** Every post the channel histories hold, channel by channel. */
  function Histories(channels: seq<string>, history: string -> seq<Message>): (r: seq<Post>)
    decreases |channels|
  {
    if channels == [] then []
    else
      var c := channels[|channels| - 1];
      Histories(channels[..|channels| - 1], history) + Tag(c, history(c))
  }

  /** `if message.text`: the post carries non-empty text. */
  predicate HasText(p: Post) {
    p.1.text != ""
  }

  /** The posts a collector turns into items, in the order it appends them. */
  function Posted(channels: seq<string>, cutoff: int, history: string -> seq<Message>): seq<Post> {
    Filter(HasText, Scanned(channels, cutoff, history))
  }

  /** One more message read from the current channel, with text: the posts so far grow by it. */
  lemma PostKeep(before: seq<Post>, channel: string, messages: seq<Message>, j: nat)
    requires j < |messages| && messages[j].text != ""
    ensures Filter(HasText, before + Tag(channel, messages[..j + 1]))
         == Filter(HasText, before + Tag(channel, messages[..j])) + [(channel, messages[j])]
  {
    assert Tag(channel, messages[..j + 1]) == Tag(channel, messages[..j]) + [(channel, messages[j])];
    AppendAssoc(before, Tag(channel, messages[..j]), [(channel, messages[j])]);
    FilterSnoc(HasText, before + Tag(channel, messages[..j]), (channel, messages[j]));
  }

  /** One more message read from the current channel, without text: the posts so far stay as they are. */
  lemma PostSkip(before: seq<Post>, channel: string, messages: seq<Message>, j: nat)
    requires j < |messages| && messages[j].text == ""
    ensures Filter(HasText, before + Tag(channel, messages[..j + 1]))
         == Filter(HasText, before + Tag(channel, messages[..j]))
  {
    assert Tag(channel, messages[..j + 1]) == Tag(channel, messages[..j]) + [(channel, messages[j])];
    AppendAssoc(before, Tag(channel, messages[..j]), [(channel, messages[j])]);
    FilterSnoc(HasText, before + Tag(channel, messages[..j]), (channel, messages[j]));
  }

  /** The inner loop finished channel `i` after `j` messages: the posts so far are those of `channels[..i + 1]`. */
  lemma ChannelDone(channels: seq<string>, i: nat, cutoff: int, history: string -> seq<Message>, j: nat)
    requires i < |channels| && j == |Fresh(history(channels[i]), cutoff)|
    ensures Posted(channels[..i + 1], cutoff, history)
         == Filter(HasText, Scanned(channels[..i], cutoff, history) + Tag(channels[i], history(channels[i])[..j]))
  {
    assert channels[..i + 1] == channels[..i] + [channels[i]];
    ScannedSnoc(channels[..i], channels[i], cutoff, history);
  }

  lemma ScannedSnoc(channels: seq<string>, c: string, cutoff: int, history: string -> seq<Message>)
    ensures Scanned(channels + [c], cutoff, history)
         == Scanned(channels, cutoff, history) + Tag(c, Fresh(history(c), cutoff))
  {
    assert (channels + [c])[..|channels|] == channels;
  }

  /** Channels are scanned independently: what one holds never affects what another yields. */
  lemma {:induction false} ScannedAppend(xs: seq<string>, ys: seq<string>, cutoff: int, history: string -> seq<Message>)
    ensures Scanned(xs + ys, cutoff, history) == Scanned(xs, cutoff, history) + Scanned(ys, cutoff, history)
    decreases |ys|
  {
    if ys == [] {
      assert xs + ys == xs;
    } else {
      var ys', c := ys[..|ys| - 1], ys[|ys| - 1];
      assert ys == ys' + [c];
      assert xs + ys == (xs + ys') + [c];
      ScannedAppend(xs, ys', cutoff, history);
      ScannedSnoc(xs + ys', c, cutoff, history);
      ScannedSnoc(ys', c, cutoff, history);
      var front, back, last := Scanned(xs, cutoff, history), Scanned(ys', cutoff, history), Tag(c, Fresh(history(c), cutoff));
      AppendAssoc(front, back, last);
    }
  }

  /** No post older than the cutoff is ever reached. */
  lemma {:induction false} ScannedNotStale(channels: seq<string>, cutoff: int, history: string -> seq<Message>)
    ensures forall p :: p in Scanned(channels, cutoff, history) ==> p.1.date >= cutoff
    decreases |channels|
  {
    if channels != [] {
      ScannedNotStale(channels[..|channels| - 1], cutoff, history);
    }
  }

  /** A scanned post comes from the history of the channel it is tagged with. */
  lemma {:induction false} ScannedFromHistory(channels: seq<string>, cutoff: int, history: string -> seq<Message>)
    ensures forall p :: p in Scanned(channels, cutoff, history) ==> p.0 in channels && p.1 in history(p.0)
    decreases |channels|
  {
    if channels != [] {
      var init, c := channels[..|channels| - 1], channels[|channels| - 1];
      ScannedFromHistory(init, cutoff, history);
      forall p | p in Scanned(channels, cutoff, history)
        ensures p.0 in channels && p.1 in history(p.0)
      {
        if p !in Scanned(init, cutoff, history) {
          var k :| 0 <= k < |Fresh(history(c), cutoff)| && p == Tag(c, Fresh(history(c), cutoff))[k];
          assert history(c)[k] == p.1;
        }
      }
    }
  }

  /**
   * Everything in a channel's recent run is reached, whatever the other channels
   * hold: a stale message ends only its own channel.
   */
  lemma ScannedComplete(channels: seq<string>, cutoff: int, history: string -> seq<Message>, i: nat, k: nat)
    requires i < |channels|
    requires k < |Fresh(history(channels[i]), cutoff)|
    ensures (channels[i], history(channels[i])[k]) in Scanned(channels, cutoff, history)
  {
    var c := channels[i];
    assert channels == channels[..i] + [c] + channels[i + 1..];
    ScannedAppend(channels[..i] + [c], channels[i + 1..], cutoff, history);
    ScannedSnoc(channels[..i], c, cutoff, history);
    assert Tag(c, Fresh(history(c), cutoff))[k] == (c, history(c)[k]);
  }

  /** The posts emitted are the input histories with some posts deleted: order is preserved. */
  lemma {:induction false} PostedSubseq(channels: seq<string>, cutoff: int, history: string -> seq<Message>)
    ensures Subseq(Posted(channels, cutoff, history), Histories(channels, history))
    decreases |channels|
  {
    if channels != [] {
      var init, c := channels[..|channels| - 1], channels[|channels| - 1];
      var ms := history(c);
      var recent := Fresh(ms, cutoff);
      var kept := Filter(HasText, Tag(c, recent));
      PostedSubseq(init, cutoff, history);
      assert Subseq(kept, Tag(c, ms)) by {
        SubseqFilter(HasText, Tag(c, recent));
        assert ms == recent + ms[|recent|..];
        TagAppend(c, recent, ms[|recent|..]);
        SubseqExtend(kept, Tag(c, recent), Tag(c, ms[|recent|..]));
      }
      assert Posted(channels, cutoff, history) == Posted(init, cutoff, history) + kept by {
        FilterAppend(HasText, Scanned(init, cutoff, history), Tag(c, recent));
      }
      SubseqConcat(Posted(init, cutoff, history), Histories(init, history), kept, Tag(c, ms));
    }
  }

  const PERMALINK_PREFIX: string := "https://t.me/"

  /** `f"https://t.me/{username}/{message.id}"`. */
  function Permalink(username: string, id: nat): (r: string)
    ensures |r| > |PERMALINK_PREFIX| + |username| && r[..|PERMALINK_PREFIX|] == PERMALINK_PREFIX
  {
    PERMALINK_PREFIX + username + "/" + Digits(id)
  }

  /** Reads a permalink back into the username and message id it names; the partner of `Permalink`. */
  function ParsePermalink(link: string): Option<(string, nat)> {
    if |link| < |PERMALINK_PREFIX| || link[..|PERMALINK_PREFIX|] != PERMALINK_PREFIX then None
    else
      var rest := link[|PERMALINK_PREFIX|..];
      match LastIndexOf(rest, '/')
      case None => None
      case Some(k) =>
        var digits := rest[k + 1..];
        if digits != [] && forall i :: 0 <= i < |digits| ==> IsDigit(digits[i])
        then Some((rest[..k], ParseDigits(digits)))
        else None
  }

  /**
   * A permalink names its message unambiguously: username and id can be read
   * back from it (Telegram usernames never contain a slash).
   */
  lemma PermalinkRoundTrip(username: string, id: nat)
    requires '/' !in username
    ensures ParsePermalink(Permalink(username, id)) == Some((username, id))
  {
    var link := Permalink(username, id);
    var rest := link[|PERMALINK_PREFIX|..];
    var digits := Digits(id);
    assert rest == username + "/" + digits;
    assert '/' !in digits;
    var k := LastIndexOf(rest, '/');
    assert rest[|username|] == '/';
    assert k.Some? && k.value == |username|;
    assert rest[k.value + 1..] == digits;
    assert rest[..k.value] == username;
    DigitsRoundTrip(id);
  }
}
