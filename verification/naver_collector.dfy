/**
 * naver_collector.py: `collect_naver(blog_dict)`. For each blog, in
 * dictionary order, read its RSS feed and keep every entry published within
 * the last 24 hours. Unlike the Telegram scan, an entry that is undated or too
 * old is skipped with `continue`, so later entries of the same feed are still
 * examined.
 */
module NaverCollector {
  import opened Wrappers
  import opened Seqs
  import opened Text
  import Config

  /** One `feed.entries` element; `published` is `None` when the entry has no `published_parsed`. */
  datatype Entry = Entry(title: string, summary: string, published: Option<int>, link: string)

  /** One `results` entry: `{"source", "text", "link"}`. */
  datatype BlogItem = BlogItem(source: string, text: string, link: string)

  /** A feed entry paired with the blog id whose feed it came from. */
  type Listing = (string, Entry)

  const FEED_PREFIX: string := "https://rss.blog.naver.com/"
  const FEED_SUFFIX: string := ".xml"

  /** `f"https://rss.blog.naver.com/{blog_id}.xml"`. */
  function FeedUrl(blogId: string): (r: string)
    ensures |r| == |FEED_PREFIX| + |blogId| + |FEED_SUFFIX|
    ensures r[..|FEED_PREFIX|] == FEED_PREFIX && r[|r| - |FEED_SUFFIX|..] == FEED_SUFFIX
    ensures r[|FEED_PREFIX|..|r| - |FEED_SUFFIX|] == blogId
  {
    FEED_PREFIX + blogId + FEED_SUFFIX
  }

  /** Distinct blogs are read from distinct feeds. */
  lemma FeedUrlInjective(a: string, b: string)
    requires FeedUrl(a) == FeedUrl(b)
    ensures a == b
  {
    var u := FeedUrl(a);
    assert a == u[|FEED_PREFIX|..|u| - |FEED_SUFFIX|];
    assert b == u[|FEED_PREFIX|..|u| - |FEED_SUFFIX|];
  }

  /**
   * Every entry of every feed, blog by blog: `blogs` is `blog_dict.items()`
   * as (id, label) pairs and `fetch(url)` is `feedparser.parse(url).entries`.
   */
  function Listed(blogs: seq<(string, string)>, fetch: string -> seq<Entry>): seq<Listing>
    decreases |blogs|
  {
    if blogs == [] then []
    else
      var id := blogs[|blogs| - 1].0;
      Listed(blogs[..|blogs| - 1], fetch) + Tag(id, fetch(FeedUrl(id)))
  }

  /** The number of entries all the feeds hold. */
  function EntryCount(blogs: seq<(string, string)>, fetch: string -> seq<Entry>): nat
    decreases |blogs|
  {
    if blogs == [] then 0
    else EntryCount(blogs[..|blogs| - 1], fetch) + |fetch(FeedUrl(blogs[|blogs| - 1].0))|
  }

  /** The entry has a publication time and it is not before the cutoff. */
  predicate IsRecent(e: Entry, cutoff: int) {
    e.published.Some? && e.published.value >= cutoff
  }

  function RecentAt(cutoff: int): Listing -> bool {
    (l: Listing) => IsRecent(l.1, cutoff)
  }

  /** The listings that survive both `continue`s, in the order they are appended. */
  function Recent(blogs: seq<(string, string)>, cutoff: int, fetch: string -> seq<Entry>): seq<Listing> {
    Filter(RecentAt(cutoff), Listed(blogs, fetch))
  }

  function ItemOf(l: Listing): BlogItem {
    BlogItem(l.0, l.1.title + "\n" + l.1.summary, l.1.link)
  }

  function Items(ls: seq<Listing>): (r: seq<BlogItem>)
    ensures |r| == |ls| && forall k :: 0 <= k < |ls| ==> r[k] == ItemOf(ls[k])
  {
    seq(|ls|, k requires 0 <= k < |ls| => ItemOf(ls[k]))
  }

  /** The items one run returns. */
  function Run(blogs: seq<(string, string)>, cutoff: int, fetch: string -> seq<Entry>): (r: seq<BlogItem>)
    ensures |r| <= EntryCount(blogs, fetch)
  {
    ListedCount(blogs, fetch);
    Items(Recent(blogs, cutoff, fetch))
  }

  lemma ListedSnoc(blogs: seq<(string, string)>, b: (string, string), fetch: string -> seq<Entry>)
    ensures Listed(blogs + [b], fetch) == Listed(blogs, fetch) + Tag(b.0, fetch(FeedUrl(b.0)))
  {
    assert (blogs + [b])[..|blogs|] == blogs;
  }

  lemma RecentStep(before: seq<Listing>, id: string, entries: seq<Entry>, j: nat, cutoff: int)
    requires j < |entries|
    ensures Filter(RecentAt(cutoff), before + Tag(id, entries[..j + 1]))
         == Filter(RecentAt(cutoff), before + Tag(id, entries[..j]))
            + (if IsRecent(entries[j], cutoff) then [(id, entries[j])] else [])
  {
    assert Tag(id, entries[..j + 1]) == Tag(id, entries[..j]) + [(id, entries[j])];
    assert before + Tag(id, entries[..j + 1]) == (before + Tag(id, entries[..j])) + [(id, entries[j])];
    FilterSnoc(RecentAt(cutoff), before + Tag(id, entries[..j]), (id, entries[j]));
  }

  lemma ItemsSnoc(ls: seq<Listing>, l: Listing)
    ensures Items(ls + [l]) == Items(ls) + [ItemOf(l)]
  {
  }

  /** `collect_naver`; `now` is `datetime.now(KST)`. */
  method CollectNaver(blogs: seq<(string, string)>, now: int, fetch: string -> seq<Entry>)
    returns (results: seq<BlogItem>)
    ensures results == Run(blogs, now - Config.DAY, fetch)
  {
    results := [];
    var cutoff := now - Config.DAY;
    var i := 0;
    while i < |blogs|
      invariant i <= |blogs|
      invariant results == Items(Recent(blogs[..i], cutoff, fetch))
    {
      var (blogId, blogLabel) := blogs[i];
      var url := FeedUrl(blogId);
      var entries := fetch(url);
      ghost var before := Listed(blogs[..i], fetch);
      ghost var kept := Filter(RecentAt(cutoff), before);
      assert before + Tag(blogId, entries[..0]) == before;
      var j := 0;
      while j < |entries|
        invariant j <= |entries|
        invariant kept == Filter(RecentAt(cutoff), before + Tag(blogId, entries[..j]))
        invariant results == Items(kept)
      {
        var entry := entries[j];
        RecentStep(before, blogId, entries, j, cutoff);
        if entry.published.None? {
          j := j + 1;
          continue;
        }
        var published := entry.published.value;
        if published < cutoff {
          j := j + 1;
          continue;
        }
        ItemsSnoc(kept, (blogId, entry));
        results := results + [BlogItem(blogId, entry.title + "\n" + entry.summary, entry.link)];
        kept := kept + [(blogId, entry)];
        j := j + 1;
      }
      assert entries[..j] == entries;
      ListedSnoc(blogs[..i], blogs[i], fetch);
      assert blogs[..i + 1] == blogs[..i] + [blogs[i]];
      assert Recent(blogs[..i + 1], cutoff, fetch) == kept;
      i := i + 1;
    }
    assert blogs[..i] == blogs;
  }

  /** Every emitted item comes from an entry that has a publication time at or after the cutoff. */
  lemma RunNotStale(blogs: seq<(string, string)>, cutoff: int, fetch: string -> seq<Entry>)
    ensures forall l | l in Recent(blogs, cutoff, fetch) :: l.1.published.Some? && l.1.published.value >= cutoff
  {
    FilterMembers(RecentAt(cutoff), Listed(blogs, fetch));
  }

  /** A listing comes from the feed of the blog it is tagged with. */
  lemma {:induction false} ListedFromFeed(blogs: seq<(string, string)>, fetch: string -> seq<Entry>)
    ensures forall l | l in Listed(blogs, fetch) :: (exists b | b in blogs :: b.0 == l.0) && l.1 in fetch(FeedUrl(l.0))
    decreases |blogs|
  {
    if blogs != [] {
      var init, b := blogs[..|blogs| - 1], blogs[|blogs| - 1];
      ListedFromFeed(init, fetch);
      forall l | l in Listed(blogs, fetch)
        ensures (exists b | b in blogs :: b.0 == l.0) && l.1 in fetch(FeedUrl(l.0))
      {
        if l in Listed(init, fetch) {
          var b' :| b' in init && b'.0 == l.0;
          assert b' in blogs;
        } else {
          var es := fetch(FeedUrl(b.0));
          var k :| 0 <= k < |es| && l == Tag(b.0, es)[k];
          assert es[k] == l.1;
        }
      }
    }
  }

  /**
   * Every item is a recent entry of the feed of one of the listed blogs: its
   * source is the blog id, its text the entry's title and summary joined by a
   * newline, its link the entry's link.
   */
  lemma RunSound(blogs: seq<(string, string)>, cutoff: int, fetch: string -> seq<Entry>, k: nat)
    requires k < |Run(blogs, cutoff, fetch)|
    ensures var it := Run(blogs, cutoff, fetch)[k];
      && (exists b | b in blogs :: b.0 == it.source)
      && exists e | e in fetch(FeedUrl(it.source)) ::
           && IsRecent(e, cutoff)
           && it.text == e.title + "\n" + e.summary
           && it.link == e.link
  {
    var ls := Recent(blogs, cutoff, fetch);
    ListedFromFeed(blogs, fetch);
    FilterMembers(RecentAt(cutoff), Listed(blogs, fetch));
    assert ls[k] in ls;
    assert ls[k].1 in fetch(FeedUrl(ls[k].0));
  }

  /** Every entry of every listed blog's feed is listed. */
  lemma {:induction false} ListedComplete(blogs: seq<(string, string)>, fetch: string -> seq<Entry>, b: (string, string), e: Entry)
    requires b in blogs && e in fetch(FeedUrl(b.0))
    ensures (b.0, e) in Listed(blogs, fetch)
    decreases |blogs|
  {
    var init, last := blogs[..|blogs| - 1], blogs[|blogs| - 1];
    assert blogs == init + [last];
    if b in init {
      ListedComplete(init, fetch, b, e);
    } else {
      var es := fetch(FeedUrl(b.0));
      var k :| 0 <= k < |es| && es[k] == e;
      assert Tag(b.0, es)[k] == (b.0, e);
    }
  }

  /**
   * Every recent entry of every listed blog's feed is emitted, whatever precedes
   * it in the feed: skipped entries end nothing.
   */
  lemma RunComplete(blogs: seq<(string, string)>, cutoff: int, fetch: string -> seq<Entry>, b: (string, string), e: Entry)
    requires b in blogs && e in fetch(FeedUrl(b.0)) && IsRecent(e, cutoff)
    ensures ItemOf((b.0, e)) in Run(blogs, cutoff, fetch)
  {
    var ls := Recent(blogs, cutoff, fetch);
    ListedComplete(blogs, fetch, b, e);
    FilterMembers(RecentAt(cutoff), Listed(blogs, fetch));
    var n :| 0 <= n < |ls| && ls[n] == (b.0, e);
    assert Items(ls)[n] == ItemOf((b.0, e));
  }

  /** Nothing but the blog ids matters: the display labels never reach an item. */
  lemma {:induction false} LabelsIgnored(blogs: seq<(string, string)>, relabelled: seq<(string, string)>, cutoff: int, fetch: string -> seq<Entry>)
    requires |blogs| == |relabelled|
    requires forall k :: 0 <= k < |blogs| ==> blogs[k].0 == relabelled[k].0
    ensures Run(blogs, cutoff, fetch) == Run(relabelled, cutoff, fetch)
    decreases |blogs|
  {
    ListedLabelsIgnored(blogs, relabelled, fetch);
  }

  lemma {:induction false} ListedLabelsIgnored(blogs: seq<(string, string)>, relabelled: seq<(string, string)>, fetch: string -> seq<Entry>)
    requires |blogs| == |relabelled|
    requires forall k :: 0 <= k < |blogs| ==> blogs[k].0 == relabelled[k].0
    ensures Listed(blogs, fetch) == Listed(relabelled, fetch)
    decreases |blogs|
  {
    if blogs != [] {
      ListedLabelsIgnored(blogs[..|blogs| - 1], relabelled[..|blogs| - 1], fetch);
    }
  }

  /**
   * A stale or undated entry drops only itself: the entries after it in the
   * same feed are judged on their own (`continue`, not `break`).
   */
  lemma SkipsOnlyItself(id: string, before: seq<Entry>, e: Entry, after: seq<Entry>, cutoff: int)
    requires !IsRecent(e, cutoff)
    ensures Filter(RecentAt(cutoff), Tag(id, before + [e] + after))
         == Filter(RecentAt(cutoff), Tag(id, before)) + Filter(RecentAt(cutoff), Tag(id, after))
  {
    TagAppend(id, before + [e], after);
    TagAppend(id, before, [e]);
    FilterAppend(RecentAt(cutoff), Tag(id, before + [e]), Tag(id, after));
    FilterAppend(RecentAt(cutoff), Tag(id, before), Tag(id, [e]));
    assert Tag(id, [e]) == [] + [(id, e)];
    FilterSnoc(RecentAt(cutoff), [], (id, e));
  }

  /**
   * At most one item per entry, and the items follow blog order, then feed
   * order: they are made, one each, from a subsequence of all listed entries.
   */
  lemma {:induction false} RunBounded(blogs: seq<(string, string)>, cutoff: int, fetch: string -> seq<Entry>)
    ensures |Run(blogs, cutoff, fetch)| <= EntryCount(blogs, fetch)
    ensures Subseq(Recent(blogs, cutoff, fetch), Listed(blogs, fetch))
    decreases |blogs|
  {
    SubseqFilter(RecentAt(cutoff), Listed(blogs, fetch));
    ListedCount(blogs, fetch);
  }

  lemma {:induction false} ListedCount(blogs: seq<(string, string)>, fetch: string -> seq<Entry>)
    ensures |Listed(blogs, fetch)| == EntryCount(blogs, fetch)
    decreases |blogs|
  {
    if blogs != [] {
      ListedCount(blogs[..|blogs| - 1], fetch);
    }
  }

  /** Splits an item text at its first newline; the partner of the `title + "\n" + summary` layout. */
  function SplitText(text: string): Option<(string, string)> {
    match FirstIndexOf(text, '\n')
    case None => None
    case Some(k) => Some((text[..k], text[k + 1..]))
  }

  /** A title without a newline and its summary can be read back from the item text. */
  lemma TextRoundTrip(title: string, summary: string)
    requires '\n' !in title
    ensures SplitText(title + "\n" + summary) == Some((title, summary))
  {
    var text := title + "\n" + summary;
    var k := FirstIndexOf(text, '\n');
    assert text[|title|] == '\n';
    assert k.Some? && k.value == |title|;
    assert text[..|title|] == title;
    assert text[|title| + 1..] == summary;
  }
}
