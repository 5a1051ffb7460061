/**
 * The scheduled ingest run of netlify/functions/ingest.ts: every active feed
 * is fetched, its items become rows that are inserted unless their URL is
 * already stored, the feed's `last_fetched_at` is touched, and finally items
 * older than three days are deleted.
 *
 * The two tables are the fields of `Store`: `items` keyed by URL (the upsert's
 * conflict key) and `feeds` keyed by feed id. Feeds are processed one after
 * another in an order the method chooses; the source runs them concurrently
 * with no order between them.
 */
module Ingest {
  import opened Values
  import Rss
  import HtmlScan

  /** A row of the `items` table; `publishedAt` is a millisecond timestamp. */
  datatype Row = Row(
    feedId: string,
    title: string,
    url: string,
    publishedAt: int,
    author: Option<string>,
    summary: Option<string>,
    imageUrl: Option<string>)

  /** The columns of a `feeds` row that the run reads or writes. */
  datatype Feed = Feed(url: string, isActive: bool, lastFetchedAt: Option<int>)

  /** Three days in milliseconds: the retention window of the cleanup. */
  const RetentionMs := 3 * 24 * 60 * 60 * 1000

  /** The image of a row: the parser's image, else the first `<img src>` of the summary. */
  function RowImage(i: Rss.CleanItem): (r: Option<string>)
    ensures Truthy(i.imageUrl) ==> r == i.imageUrl
    ensures !Truthy(i.imageUrl) && Truthy(i.summary) && HtmlScan.FirstImgSrc(i.summary.value).Some? ==>
      r == HtmlScan.FirstImgSrc(i.summary.value)
    ensures !Truthy(i.summary) || HtmlScan.FirstImgSrc(i.summary.value).None? ==> r == i.imageUrl
    ensures r != i.imageUrl ==> Truthy(r) && !Truthy(i.imageUrl)
  {
    if !Truthy(i.imageUrl) && Truthy(i.summary) then
      match HtmlScan.FirstImgSrc(i.summary.value)
      case Some(src) => Some(src)
      case None => i.imageUrl
    else i.imageUrl
  }

  /** The row literal of the `items.map` for feed `feedId`. */
  function BuildRow(feedId: string, i: Rss.CleanItem): (r: Row)
    ensures r.feedId == feedId
    ensures r.url == i.url && r.title == i.title && r.publishedAt == i.publishedAt && r.author == i.author
    ensures r.imageUrl == RowImage(i)
    ensures i.summary.None? <==> r.summary.None?
    ensures r.summary.Some? ==> r.summary.value == HtmlScan.CleanSummary(i.summary.value)
    ensures r.summary.Some? ==> '<' !in r.summary.value && |r.summary.value| <= HtmlScan.SummaryLimit
  {
    Row(feedId, i.title, i.url, i.publishedAt, i.author,
        match i.summary
        case None => None
        case Some(s) => Some(HtmlScan.CleanSummary(s)),
        RowImage(i))
  }

  /** `items.map(...)`: one row per item, in order, each carrying the feed's id. */
  function BuildRows(feedId: string, items: seq<Rss.CleanItem>): (r: seq<Row>)
    ensures |r| == |items|
    ensures forall k :: 0 <= k < |r| ==> r[k] == BuildRow(feedId, items[k])
    ensures forall row :: row in r ==> row.feedId == feedId
  {
    seq(|items|, k requires 0 <= k < |items| => BuildRow(feedId, items[k]))
  }

  /** Every stored row sits under its own URL. */
  ghost predicate KeyedByUrl(m: map<string, Row>) {
    forall u :: u in m ==> m[u].url == u
  }

  /**
   * `upsert(rows, { onConflict: 'url', ignoreDuplicates: true })`: each row is
   * inserted unless its URL is already present, earlier rows first.
   */
  function Inserted(m: map<string, Row>, rows: seq<Row>): (r: map<string, Row>)
    decreases |rows|
  {
    if rows == [] then m
    else Inserted(if rows[0].url in m then m else m[rows[0].url := rows[0]], rows[1..])
  }

  /** The URLs the rows carry. */
  function Urls(rows: seq<Row>): (r: set<string>)
    ensures forall u :: u in r <==> exists k :: 0 <= k < |rows| && rows[k].url == u
  {
    set k | 0 <= k < |rows| :: rows[k].url
  }

  /** Existing rows are never replaced, and exactly the new URLs are added. */
  lemma {:induction false} InsertedKeepsExisting(m: map<string, Row>, rows: seq<Row>)
    ensures Inserted(m, rows).Keys == m.Keys + Urls(rows)
    ensures forall u :: u in m ==> Inserted(m, rows)[u] == m[u]
    decreases |rows|
  {
    if rows != [] {
      var m' := if rows[0].url in m then m else m[rows[0].url := rows[0]];
      InsertedKeepsExisting(m', rows[1..]);
      assert Urls(rows) == {rows[0].url} + Urls(rows[1..]) by {
        forall u | u in Urls(rows) ensures u in {rows[0].url} + Urls(rows[1..]) {
          var k :| 0 <= k < |rows| && rows[k].url == u;
          if k > 0 { assert rows[1..][k - 1] == rows[k]; }
        }
        forall u | u in Urls(rows[1..]) ensures u in Urls(rows) {
          var k :| 0 <= k < |rows[1..]| && rows[1..][k].url == u;
          assert rows[k + 1].url == u;
        }
      }
    }
  }

  /** Every row after the upsert is the row stored before under its URL, or a row of the batch. */
  lemma {:induction false} InsertedRowsFromBatch(m: map<string, Row>, rows: seq<Row>, u: string)
    requires u in Inserted(m, rows) && u !in m
    ensures Inserted(m, rows)[u] in rows
    decreases |rows|
  {
    var m' := if rows[0].url in m then m else m[rows[0].url := rows[0]];
    if u in m' {
      InsertedKeepsExisting(m', rows[1..]);
      assert m'[u] == rows[0];
    } else {
      InsertedRowsFromBatch(m', rows[1..], u);
      var x := Inserted(m', rows[1..])[u];
      assert x in rows[1..];
      var j :| 0 <= j < |rows[1..]| && rows[1..][j] == x;
      assert rows[j + 1] == x;
    }
  }

  /** For a URL not stored before, the first row carrying it is the one kept. */
  lemma {:induction false} InsertedFirstWins(m: map<string, Row>, rows: seq<Row>, k: nat)
    requires k < |rows| && rows[k].url !in m
    requires forall j :: 0 <= j < k ==> rows[j].url != rows[k].url
    ensures rows[k].url in Inserted(m, rows) && Inserted(m, rows)[rows[k].url] == rows[k]
    decreases |rows|
  {
    var m' := if rows[0].url in m then m else m[rows[0].url := rows[0]];
    if k == 0 {
      InsertedKeepsExisting(m', rows[1..]);
    } else {
      assert rows[1..][k - 1] == rows[k];
      InsertedFirstWins(m', rows[1..], k - 1);
    }
  }

  /** Rows whose URLs are all stored change nothing. */
  lemma {:induction false} InsertedStoredIsNoOp(m: map<string, Row>, rows: seq<Row>)
    requires forall k :: 0 <= k < |rows| ==> rows[k].url in m
    ensures Inserted(m, rows) == m
    decreases |rows|
  {
    if rows != [] {
      InsertedStoredIsNoOp(m, rows[1..]);
    }
  }

  /** Repeating the same upsert is a no-op. */
  lemma InsertedIdempotent(m: map<string, Row>, rows: seq<Row>)
    ensures Inserted(Inserted(m, rows), rows) == Inserted(m, rows)
  {
    InsertedKeepsExisting(m, rows);
    InsertedStoredIsNoOp(Inserted(m, rows), rows);
  }

  /** Two upserts in a row are one upsert of both batches. */
  lemma {:induction false} InsertedAppend(m: map<string, Row>, a: seq<Row>, b: seq<Row>)
    ensures Inserted(m, a + b) == Inserted(Inserted(m, a), b)
    decreases |a|
  {
    if a == [] {
      assert a + b == b;
    } else {
      assert (a + b)[0] == a[0] && (a + b)[1..] == a[1..] + b;
      InsertedAppend(if a[0].url in m then m else m[a[0].url := a[0]], a[1..], b);
    }
  }

  /** Upserting keeps every row under its own URL. */
  lemma {:induction false} InsertedKeyedByUrl(m: map<string, Row>, rows: seq<Row>)
    requires KeyedByUrl(m)
    ensures KeyedByUrl(Inserted(m, rows))
    decreases |rows|
  {
    if rows != [] {
      InsertedKeyedByUrl(if rows[0].url in m then m else m[rows[0].url := rows[0]], rows[1..]);
    }
  }

  /** `delete().lt('published_at', threeDaysAgo)`: the rows that survive the cleanup. */
  function Retained(m: map<string, Row>, now: int): (r: map<string, Row>)
    ensures forall u :: u in r <==> u in m && !(m[u].publishedAt < now - RetentionMs)
    ensures forall u :: u in r ==> r[u] == m[u]
  {
    map u | u in m && !(m[u].publishedAt < now - RetentionMs) :: m[u]
  }

  /** A second cleanup at the same time deletes nothing more. */
  lemma RetainedIdempotent(m: map<string, Row>, now: int)
    ensures Retained(Retained(m, now), now) == Retained(m, now)
  {
  }

  /**
   * What one run leaves in the items table: a row stored before the run
   * survives unchanged unless it is older than the window, and every row
   * left, old or new, is inside the window.
   */
  lemma RunKeepsFreshRows(m: map<string, Row>, rows: seq<Row>, now: int)
    ensures forall u :: u in m && m[u].publishedAt >= now - RetentionMs ==>
      u in Retained(Inserted(m, rows), now) && Retained(Inserted(m, rows), now)[u] == m[u]
    ensures forall u :: u in Retained(Inserted(m, rows), now) ==>
      Retained(Inserted(m, rows), now)[u].publishedAt >= now - RetentionMs
    ensures Retained(Inserted(m, rows), now).Keys <= m.Keys + Urls(rows)
  {
    InsertedKeepsExisting(m, rows);
  }

  /** The ids of the feeds the run selects: `eq('is_active', true)`. */
  function ActiveIds(feeds: map<string, Feed>): (r: set<string>)
    ensures forall id :: id in r <==> id in feeds && feeds[id].isActive
  {
    set id | id in feeds && feeds[id].isActive
  }

  /**
   * `fetchFeed` as the run calls it: the normalised items of the feed at a
   * URL, or None when the fetch failed. For the feed parser's output `parse`
   * it is `u => Rss.FetchFeed(parse(u), now)`.
   */
  type Fetcher = string -> Option<seq<Rss.CleanItem>>

  /** The rows a feed contributes: none when the fetch failed or gave no items. */
  function FeedRows(id: string, url: string, fetch: Fetcher): (r: seq<Row>)
    ensures fetch(url).None? ==> r == []
    ensures fetch(url).Some? ==> r == BuildRows(id, fetch(url).value)
    ensures forall k :: 0 <= k < |r| ==> r[k].feedId == id
  {
    match fetch(url)
    case None => []
    case Some(items) => BuildRows(id, items)
  }

  /**
   * The fetch of the feed at `url` produced at least one item: the negation
   * of `!items?.length`.
   */
  predicate Produced(url: string, fetch: Fetcher) {
    fetch(url).Some? && |fetch(url).value| > 0
  }

  /** A feed produces items exactly when it parsed and one of its entries has a non-empty link. */
  lemma ProducedIffLinked(url: string, fetch: Fetcher, parsed: Option<seq<Rss.RawEntry>>, now: int)
    requires fetch(url) == Rss.FetchFeed(parsed, now)
    ensures Produced(url, fetch) <==>
      parsed.Some? && exists k :: 0 <= k < |parsed.value| && Truthy(parsed.value[k].link)
  {
    if parsed.Some? {
      Rss.FetchFeedNonEmpty(parsed.value, now);
    }
  }

  /** A feed contributes no rows exactly when its fetch produced nothing. */
  lemma SilentFeedWritesNothing(id: string, url: string, fetch: Fetcher)
    ensures FeedRows(id, url, fetch) == [] <==> !Produced(url, fetch)
  {
  }

  /** The rows of the feeds in `order`, feed after feed. */
  function AllRows(feeds: map<string, Feed>, order: seq<string>, fetch: Fetcher): (r: seq<Row>)
    requires forall k :: 0 <= k < |order| ==> order[k] in feeds
    ensures forall row :: row in r ==> row.feedId in order
  {
    if order == [] then []
    else
      var last := order[|order| - 1];
      var init := order[..|order| - 1];
      assert forall x :: x in init ==> x in order;
      AllRows(feeds, init, fetch) + FeedRows(last, feeds[last].url, fetch)
  }

  /** Processing one more feed appends its rows to the run's rows. */
  lemma AllRowsSnoc(feeds: map<string, Feed>, order: seq<string>, id: string, fetch: Fetcher)
    requires forall k :: 0 <= k < |order| ==> order[k] in feeds
    requires id in feeds
    ensures AllRows(feeds, order + [id], fetch) == AllRows(feeds, order, fetch) + FeedRows(id, feeds[id].url, fetch)
  {
    assert (order + [id])[..|order|] == order;
  }

  /** A feed in the run whose fetch produced items has at least one row in the batch. */
  lemma {:induction false} AllRowsHasProducer(feeds: map<string, Feed>, order: seq<string>, fetch: Fetcher, k: nat)
    requires forall j :: 0 <= j < |order| ==> order[j] in feeds
    requires k < |order| && Produced(feeds[order[k]].url, fetch)
    ensures exists j :: 0 <= j < |AllRows(feeds, order, fetch)| && AllRows(feeds, order, fetch)[j].feedId == order[k]
    decreases |order|
  {
    var last := order[|order| - 1];
    var init := order[..|order| - 1];
    assert forall j :: 0 <= j < |init| ==> init[j] == order[j];
    var tail := FeedRows(last, feeds[last].url, fetch);
    var before := AllRows(feeds, init, fetch);
    var all := AllRows(feeds, order, fetch);
    assert all == before + tail;
    if k == |order| - 1 {
      SilentFeedWritesNothing(last, feeds[last].url, fetch);
      assert all[|before|] == tail[0];
    } else {
      AllRowsHasProducer(feeds, init, fetch, k);
      var j :| 0 <= j < |before| && before[j].feedId == order[k];
      assert all[j] == before[j];
    }
  }

  /** A feed after its `last_fetched_at` is set to `now`. */
  function Touched(f: Feed, now: int): (r: Feed)
    ensures r.url == f.url && r.isActive == f.isActive && r.lastFetchedAt == Some(now)
  {
    f.(lastFetchedAt := Some(now))
  }

  /** The feeds table after every feed in `touched` had its `last_fetched_at` set to `now`. */
  function TouchAll(feeds: map<string, Feed>, touched: set<string>, now: int): (r: map<string, Feed>)
    ensures r.Keys == feeds.Keys
    ensures forall id :: id in feeds && id in touched ==> r[id] == Touched(feeds[id], now)
    ensures forall id :: id in feeds && id !in touched ==> r[id] == feeds[id]
  {
    map id | id in feeds :: if id in touched then Touched(feeds[id], now) else feeds[id]
  }

  /** Touching one more feed changes only that feed's row. */
  lemma TouchAllStep(feeds: map<string, Feed>, touched: set<string>, id: string, now: int)
    requires id in feeds
    ensures TouchAll(feeds, touched + {id}, now) == TouchAll(feeds, touched, now)[id := Touched(feeds[id], now)]
  {
    var after := TouchAll(feeds, touched + {id}, now);
    var expected := TouchAll(feeds, touched, now)[id := Touched(feeds[id], now)];
    assert after.Keys == expected.Keys;
  }

  /** The active feeds whose fetch produced at least one item: the feeds the run touches. */
  function ProducingIds(feeds: map<string, Feed>, fetch: Fetcher): (r: set<string>)
    ensures forall id :: id in r <==> id in ActiveIds(feeds) && Produced(feeds[id].url, fetch)
  {
    set id | id in ActiveIds(feeds) && Produced(feeds[id].url, fetch)
  }

  class Store {
    var items: map<string, Row>
    var feeds: map<string, Feed>

    ghost predicate Valid()
      reads this
    {
      KeyedByUrl(items)
    }

    constructor (feeds0: map<string, Feed>)
      ensures Valid() && items == map[] && feeds == feeds0
    {
      items := map[];
      feeds := feeds0;
    }

    /** Insert each row unless its URL is stored; stored rows are left as they are. */
    method Upsert(rows: seq<Row>)
      requires Valid()
      modifies this
      ensures Valid()
      ensures items == Inserted(old(items), rows)
      ensures feeds == old(feeds)
    {
      var i := 0;
      while i < |rows|
        invariant 0 <= i <= |rows|
        invariant Valid()
        invariant Inserted(items, rows[i..]) == Inserted(old(items), rows)
        invariant feeds == old(feeds)
      {
        var row := rows[i];
        assert rows[i..][0] == row && rows[i..][1..] == rows[i + 1..];
        if row.url !in items {
          items := items[row.url := row];
        }
        i := i + 1;
      }
    }

    /** `update({ last_fetched_at: now }).eq('id', id)`; no row matches an unknown id. */
    method Touch(id: string, now: int)
      modifies this
      ensures items == old(items)
      ensures feeds == if id in old(feeds) then old(feeds)[id := Touched(old(feeds)[id], now)] else old(feeds)
    {
      if id in feeds {
        feeds := feeds[id := Touched(feeds[id], now)];
      }
    }

    /** Delete every item published strictly before three days ago. */
    method Cleanup(now: int)
      requires Valid()
      modifies this
      ensures Valid()
      ensures items == Retained(old(items), now)
      ensures feeds == old(feeds)
    {
      items := Retained(items, now);
    }

    /** The work of one feed: fetch, skip when nothing came back, else upsert and touch. */
    method ProcessFeed(id: string, url: string, fetch: Fetcher, now: int)
      requires Valid()
      modifies this
      ensures Valid()
      ensures items == Inserted(old(items), FeedRows(id, url, fetch))
      ensures feeds == if Produced(url, fetch) && id in old(feeds)
        then old(feeds)[id := Touched(old(feeds)[id], now)] else old(feeds)
    {
      var fetched := fetch(url);
      if fetched.None? || |fetched.value| == 0 {
        return;
      }
      var rows := BuildRows(id, fetched.value);
      Upsert(rows);
      Touch(id, now);
    }

    /**
     * The whole handler. With no active feed it returns before the cleanup.
     * Otherwise every active feed is processed once, in the order `order`
     * (a ghost record of the choice), and the cleanup runs last.
     */
    method RunIngest(fetch: Fetcher, now: int) returns (ghost order: seq<string>)
      requires Valid()
      modifies this
      ensures Valid()
      ensures forall id :: id in order <==> id in ActiveIds(old(feeds))
      ensures forall i, j :: 0 <= i < j < |order| ==> order[i] != order[j]
      ensures ActiveIds(old(feeds)) == {} ==> items == old(items)
      ensures ActiveIds(old(feeds)) != {} ==>
        items == Retained(Inserted(old(items), AllRows(old(feeds), order, fetch)), now)
      ensures feeds == TouchAll(old(feeds), ProducingIds(old(feeds), fetch), now)
    {
      var selected := feeds;
      var todo := ActiveIds(selected);
      order := [];
      ghost var done: set<string> := {};
      ghost var touched: set<string> := {};
      if todo == {} {
        assert TouchAll(selected, ProducingIds(selected, fetch), now) == selected;
        return;
      }
      while todo != {}
        invariant Valid()
        invariant todo + done == ActiveIds(selected) && todo !! done
        invariant forall id :: id in order <==> id in done
        invariant forall i, j :: 0 <= i < j < |order| ==> order[i] != order[j]
        invariant items == Inserted(old(items), AllRows(selected, order, fetch))
        invariant forall id :: id in touched <==> id in done && Produced(selected[id].url, fetch)
        invariant feeds == TouchAll(selected, touched, now)
        decreases todo
      {
        var id :| id in todo;
        var produced := Produced(selected[id].url, fetch);
        ProcessFeed(id, selected[id].url, fetch, now);
        InsertedAppend(old(items), AllRows(selected, order, fetch), FeedRows(id, selected[id].url, fetch));
        AllRowsSnoc(selected, order, id, fetch);
        order := order + [id];
        if produced {
          TouchAllStep(selected, touched, id, now);
          touched := touched + {id};
        }
        done := done + {id};
        todo := todo - {id};
      }
      assert touched == ProducingIds(selected, fetch);
      Cleanup(now);
    }
  }
}
