/**
 * The per-entry normalisation of `fetchFeed` (src/rss.ts): a parsed feed
 * entry becomes a `CleanItem`, and entries without a link are dropped.
 *
 * The XML parser itself is not modelled: its output is given as a sequence
 * of `RawEntry` values, or None when parsing or fetching threw.
 */
module Rss {
  import opened Values

  /**
   * One entry as the parser hands it over. Every field is optional; the media
   * fields are the `url` of the element when the element is present.
   * `isoDate` is the instant (milliseconds) that the entry's ISO date denotes,
   * None when the parser gave no date or an empty one.
   */
  datatype RawEntry = RawEntry(
    title: Option<string>,
    link: Option<string>,
    isoDate: Option<int>,
    creator: Option<string>,
    author: Option<string>,
    contentSnippet: Option<string>,
    content: Option<string>,
    contentEncoded: Option<string>,
    enclosureUrl: Option<string>,
    mediaContent: Option<string>,
    mediaThumbnail: Option<string>,
    itemImage: Option<string>)

  /** The canonical item; `publishedAt` is a millisecond timestamp. */
  datatype CleanItem = CleanItem(
    title: string,
    url: string,
    publishedAt: int,
    author: Option<string>,
    summary: Option<string>,
    imageUrl: Option<string>)

  const Untitled := "Untitled"

  /**
   * The image chain: the enclosure URL when truthy; otherwise each media
   * element that is present overwrites the choice while it is still falsy.
   * A present element with an empty URL therefore leaves "" behind rather
   * than null, which is still falsy for every later reader.
   */
  function PickImage(e: RawEntry): (r: Option<string>)
    ensures Truthy(e.enclosureUrl) ==> r == e.enclosureUrl
    ensures Truthy(r) <==> Truthy(FirstTruthy([e.enclosureUrl, e.mediaContent, e.mediaThumbnail, e.itemImage]))
    ensures Truthy(r) ==> r == FirstTruthy([e.enclosureUrl, e.mediaContent, e.mediaThumbnail, e.itemImage])
    ensures r == None <==> !Truthy(e.enclosureUrl) && e.mediaContent == None && e.mediaThumbnail == None && e.itemImage == None
  {
    var image := Or(e.enclosureUrl, None);
    var image := if !Truthy(image) && e.mediaContent.Some? then e.mediaContent else image;
    var image := if !Truthy(image) && e.mediaThumbnail.Some? then e.mediaThumbnail else image;
    var image := if !Truthy(image) && e.itemImage.Some? then e.itemImage else image;
    var chain := [e.enclosureUrl, e.mediaContent, e.mediaThumbnail, e.itemImage];
    assert chain[1..] == [e.mediaContent, e.mediaThumbnail, e.itemImage];
    assert chain[2..] == [e.mediaThumbnail, e.itemImage];
    assert chain[3..] == [e.itemImage];
    assert FirstTruthy(chain[3..]) == Or(e.itemImage, None);
    assert FirstTruthy(chain[2..]) == Or(e.mediaThumbnail, FirstTruthy(chain[3..]));
    assert FirstTruthy(chain[1..]) == Or(e.mediaContent, FirstTruthy(chain[2..]));
    assert FirstTruthy(chain) == Or(e.enclosureUrl, FirstTruthy(chain[1..]));
    image
  }

  /** The record literal of `fetchFeed`'s `map`; `now` is the processing time. */
  function Normalise(e: RawEntry, now: int): (r: CleanItem)
    ensures r.title == Untitled <==> !Truthy(e.title) || e.title.value == Untitled
    ensures Truthy(e.title) ==> r.title == e.title.value
    ensures r.title != ""
    ensures r.url != "" <==> Truthy(e.link)
    ensures r.url != "" ==> r.url == e.link.value
    ensures r.publishedAt == (if e.isoDate.Some? then e.isoDate.value else now)
    ensures r.author == FirstTruthy([e.creator, e.author])
    ensures r.summary == FirstTruthy([e.contentSnippet, e.content, e.contentEncoded])
    ensures r.imageUrl == PickImage(e)
  {
    var texts := [e.contentSnippet, e.content, e.contentEncoded];
    assert texts[1..] == [e.content, e.contentEncoded] && texts[2..] == [e.contentEncoded];
    assert FirstTruthy(texts[2..]) == Or(e.contentEncoded, None);
    assert FirstTruthy(texts[1..]) == Or(e.content, FirstTruthy(texts[2..]));
    assert FirstTruthy(texts) == Or(e.contentSnippet, FirstTruthy(texts[1..]));
    var names := [e.creator, e.author];
    assert names[1..] == [e.author];
    assert FirstTruthy(names[1..]) == Or(e.author, None);
    assert FirstTruthy(names) == Or(e.creator, FirstTruthy(names[1..]));
    CleanItem(
      OrDefault(e.title, Untitled),
      OrDefault(e.link, ""),
      if e.isoDate.Some? then e.isoDate.value else now,
      Or(Or(e.creator, e.author), None),
      Or(Or(Or(e.contentSnippet, e.content), e.contentEncoded), None),
      PickImage(e))
  }

  /** `feed.items.map(...)` */
  function NormaliseAll(entries: seq<RawEntry>, now: int): (r: seq<CleanItem>)
    ensures |r| == |entries|
    ensures forall k :: 0 <= k < |entries| ==> r[k] == Normalise(entries[k], now)
  {
    seq(|entries|, k requires 0 <= k < |entries| => Normalise(entries[k], now))
  }

  /** `.filter(i => i.url !== '')` */
  function DropUnlinked(items: seq<CleanItem>): (r: seq<CleanItem>)
    ensures |r| <= |items|
    ensures forall k :: 0 <= k < |r| ==> r[k].url != ""
    ensures forall x :: x in r <==> x in items && x.url != ""
  {
    if items == [] then []
    else if items[0].url != "" then [items[0]] + DropUnlinked(items[1..])
    else DropUnlinked(items[1..])
  }

  /** Every linked item survives as often as it occurs; unlinked ones never do. */
  lemma {:induction false} DropUnlinkedKeepsCopies(items: seq<CleanItem>)
    ensures forall x :: multiset(DropUnlinked(items))[x] == if x.url != "" then multiset(items)[x] else 0
    decreases |items|
  {
    if items != [] {
      DropUnlinkedKeepsCopies(items[1..]);
      assert items == [items[0]] + items[1..];
    }
  }

  /** The filter keeps the surviving items in their input order. */
  lemma {:induction false} DropUnlinkedKeepsOrder(items: seq<CleanItem>)
    ensures Subsequence(DropUnlinked(items), items)
    decreases |items|
  {
    if items != [] {
      DropUnlinkedKeepsOrder(items[1..]);
      var r := DropUnlinked(items);
      // a dropped head has an empty URL, so it cannot equal a kept item
      assert items[0].url == "" && r != [] ==> r[0] != items[0];
    }
  }

  /**
   * `fetchFeed` after the parse: None when the parser failed, otherwise the
   * normalised entries that have a link, in their original order.
   */
  function FetchFeed(parsed: Option<seq<RawEntry>>, now: int): (r: Option<seq<CleanItem>>)
    ensures r.None? <==> parsed.None?
    ensures r.Some? ==> r.value == DropUnlinked(NormaliseAll(parsed.value, now))
    ensures r.Some? ==> |r.value| <= |parsed.value|
    ensures r.Some? ==> forall k :: 0 <= k < |r.value| ==> r.value[k].url != ""
    ensures r.Some? ==> forall k :: 0 <= k < |parsed.value| ==>
      (Normalise(parsed.value[k], now) in r.value <==> Truthy(parsed.value[k].link))
  {
    match parsed
    case None => None
    case Some(entries) =>
      var all := NormaliseAll(entries, now);
      var kept := DropUnlinked(all);
      assert forall k :: 0 <= k < |entries| ==> all[k] in all;
      Some(kept)
  }

  /** `fetchFeed` gives a non-empty list exactly when some entry has a non-empty link. */
  lemma FetchFeedNonEmpty(entries: seq<RawEntry>, now: int)
    ensures |FetchFeed(Some(entries), now).value| > 0 <==> exists k :: 0 <= k < |entries| && Truthy(entries[k].link)
  {
    var all := NormaliseAll(entries, now);
    var r := DropUnlinked(all);
    assert FetchFeed(Some(entries), now).value == r;
    if |r| > 0 {
      var x := r[0];
      assert x in r;
      assert x in all && x.url != "";
      var k :| 0 <= k < |all| && all[k] == x;
      assert x == Normalise(entries[k], now);
      assert Truthy(entries[k].link);
    }
    if exists k :: 0 <= k < |entries| && Truthy(entries[k].link) {
      var k :| 0 <= k < |entries| && Truthy(entries[k].link);
      assert all[k] == Normalise(entries[k], now) && all[k].url != "";
      assert all[k] in all;
      assert all[k] in r;
    }
  }

  /** The surviving items are the normalised entries, in input order. */
  lemma FetchFeedKeepsOrder(entries: seq<RawEntry>, now: int)
    ensures FetchFeed(Some(entries), now).Some?
    ensures Subsequence(FetchFeed(Some(entries), now).value, NormaliseAll(entries, now))
  {
    DropUnlinkedKeepsOrder(NormaliseAll(entries, now));
  }
}
