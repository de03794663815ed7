/**
 * The grouping step of `generate_reports` (bot_runner.py): each collected
 * item's text is appended to the list kept under its source in a
 * `defaultdict(list)`, whose keys keep first-insertion order.
 */
module Grouping {
  import opened Seqs
  import opened TelegramCollector

  /** The sources in the order they are first seen: the key order of `grouped`. */
  function SourceOrder(items: seq<TelegramItem>): (r: seq<string>)
    ensures forall i, j :: 0 <= i < j < |r| ==> r[i] != r[j]
    ensures forall s :: s in r <==> exists k :: 0 <= k < |items| && items[k].source == s
    decreases |items|
  {
    if items == [] then []
    else
      var init := items[..|items| - 1];
      var last := items[|items| - 1];
      var r := SourceOrder(init);
      assert forall k :: 0 <= k < |init| ==> init[k] == items[k];
      if last.source in r then r else r + [last.source]
  }

  /** The texts of the items from `source`, in collection order: `grouped[source]`. */
  function TextsOf(items: seq<TelegramItem>, source: string): (r: seq<string>)
    ensures |r| <= |items|
    decreases |items|
  {
    if items == [] then []
    else
      var init := TextsOf(items[..|items| - 1], source);
      var last := items[|items| - 1];
      if last.source == source then init + [last.text] else init
  }

  /** The whole dictionary once the loop is over. */
  function Grouped(items: seq<TelegramItem>): map<string, seq<string>> {
    map s | s in SourceOrder(items) :: TextsOf(items, s)
  }

  lemma GroupSnoc(before: seq<TelegramItem>, x: TelegramItem)
    ensures SourceOrder(before + [x])
         == if x.source in SourceOrder(before) then SourceOrder(before) else SourceOrder(before) + [x.source]
    ensures forall s :: TextsOf(before + [x], s) == TextsOf(before, s) + (if x.source == s then [x.text] else [])
  {
    assert (before + [x])[..|before|] == before;
  }

  /** `order` and `grouped` are what the loop has built from `items`. */
  ghost predicate Groups(items: seq<TelegramItem>, order: seq<string>, grouped: map<string, seq<string>>) {
    && order == SourceOrder(items)
    && (forall s :: s in grouped <==> s in order)
    && (forall s :: s in grouped ==> grouped[s] == TextsOf(items, s))
  }

  /** An item from a source not seen before: the source joins the key order with a list of one text. */
  lemma FileNew(before: seq<TelegramItem>, x: TelegramItem, order: seq<string>, grouped: map<string, seq<string>>)
    requires Groups(before, order, grouped) && x.source !in grouped
    ensures Groups(before + [x], order + [x.source], grouped[x.source := [x.text]])
  {
    var order', grouped' := order + [x.source], grouped[x.source := [x.text]];
    GroupSnoc(before, x);
    assert x.source !in order;
    forall s
      ensures s in grouped' <==> s in order'
    {
      assert s in order' <==> s in order || s == x.source;
    }
    forall s | s in grouped'
      ensures grouped'[s] == TextsOf(before + [x], s)
    {
      if s == x.source {
        TextsPresent(before, x.source);
      }
    }
  }

  /** An item from a known source: its text is appended to that source's list. */
  lemma FileKnown(before: seq<TelegramItem>, x: TelegramItem, order: seq<string>, grouped: map<string, seq<string>>)
    requires Groups(before, order, grouped) && x.source in grouped
    ensures Groups(before + [x], order, grouped[x.source := grouped[x.source] + [x.text]])
  {
    GroupSnoc(before, x);
  }

  /** The `for item in data` loop that fills `grouped`; `order` is its key order. */
  method GroupBySource(items: seq<TelegramItem>) returns (order: seq<string>, grouped: map<string, seq<string>>)
    ensures order == SourceOrder(items)
    ensures grouped == Grouped(items)
  {
    order, grouped := [], map[];
    for i := 0 to |items|
      invariant Groups(items[..i], order, grouped)
    {
      var item := items[i];
      assert items[..i + 1] == items[..i] + [item];
      if item.source !in grouped {
        FileNew(items[..i], item, order, grouped);
      } else {
        FileKnown(items[..i], item, order, grouped);
      }
      if item.source !in grouped {
        order := order + [item.source];
        grouped := grouped[item.source := []];
      }
      grouped := grouped[item.source := grouped[item.source] + [item.text]];
    }
    assert items[..|items|] == items;
    assert forall s :: s in grouped <==> s in Grouped(items);
  }

  /** No source outside the items has a group; each present source has a non-empty one. */
  lemma {:induction false} TextsPresent(items: seq<TelegramItem>, s: string)
    ensures TextsOf(items, s) != [] <==> s in SourceOrder(items)
    decreases |items|
  {
    if items != [] {
      var init := items[..|items| - 1];
      TextsPresent(init, s);
      assert forall k :: 0 <= k < |init| ==> init[k] == items[k];
    }
  }

  /** The number of texts filed under `sources`. */
  function Filed(items: seq<TelegramItem>, sources: seq<string>): nat
    decreases |sources|
  {
    if sources == [] then 0
    else Filed(items, sources[..|sources| - 1]) + |TextsOf(items, sources[|sources| - 1])|
  }

  lemma {:induction false} FiledSnocItem(items: seq<TelegramItem>, x: TelegramItem, sources: seq<string>)
    requires forall i, j :: 0 <= i < j < |sources| ==> sources[i] != sources[j]
    ensures Filed(items + [x], sources) == Filed(items, sources) + (if x.source in sources then 1 else 0)
    decreases |sources|
  {
    assert (items + [x])[..|items|] == items;
    if sources != [] {
      var init := sources[..|sources| - 1];
      FiledSnocItem(items, x, init);
    }
  }

  /**
   * Grouping is a partition: the groups together hold exactly as many texts as
   * there were items, so every item's text is filed once, under its own source.
   */
  lemma {:induction false} GroupingPartitions(items: seq<TelegramItem>)
    ensures Filed(items, SourceOrder(items)) == |items|
    decreases |items|
  {
    if items != [] {
      var init, x := items[..|items| - 1], items[|items| - 1];
      assert items == init + [x];
      var order := SourceOrder(init);
      GroupingPartitions(init);
      FiledSnocItem(init, x, order);
      if x.source !in order {
        assert (order + [x.source])[..|order|] == order;
        TextsPresent(init, x.source);
        assert TextsOf(items, x.source) == [x.text];
      }
    }
  }

  /** Each text lands in the group of its item's source. */
  lemma {:induction false} TextFiledUnderSource(items: seq<TelegramItem>, k: nat)
    requires k < |items|
    ensures items[k].source in Grouped(items)
    ensures items[k].text in Grouped(items)[items[k].source]
    decreases |items|
  {
    var init := items[..|items| - 1];
    if k < |init| {
      TextFiledUnderSource(init, k);
      assert init[k] == items[k];
      TextsPresent(items, items[k].source);
    }
  }

  /**
   * Groups appear in first-seen order: for groups `i < j`, some item of group
   * `i` comes before every item of group `j`.
   */
  lemma {:induction false} FirstSeenOrder(items: seq<TelegramItem>, i: nat, j: nat)
    requires i < j < |SourceOrder(items)|
    ensures exists p :: 0 <= p < |items| && items[p].source == SourceOrder(items)[i]
                     && forall q :: 0 <= q <= p ==> items[q].source != SourceOrder(items)[j]
    decreases |items|
  {
    var init, x := items[..|items| - 1], items[|items| - 1];
    var order := SourceOrder(init);
    assert forall k :: 0 <= k < |init| ==> init[k] == items[k];
    if j < |order| {
      FirstSeenOrder(init, i, j);
      var p :| 0 <= p < |init| && init[p].source == order[i]
               && forall q :: 0 <= q <= p ==> init[q].source != order[j];
      assert items[p].source == SourceOrder(items)[i];
    } else {
      assert order[i] in order;
      var p :| 0 <= p < |init| && init[p].source == order[i];
      assert items[p].source == SourceOrder(items)[i];
      assert forall q :: 0 <= q <= p ==> init[q].source in order;
    }
  }
}
