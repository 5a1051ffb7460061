/**
 * The per-row mapping of the read API (netlify/functions/manifest.ts): each
 * stored item joined with its feed becomes a response record, with defaults
 * for missing fields and a display domain taken from the feed's URL.
 *
 * `new URL(u).hostname` is the parameter `hostOf` (None when `u` does not
 * parse). The query itself is not modelled; its rows are the input.
 */
module Manifest {
  import opened Values

  /** The joined `feeds` columns; every one may be null. */
  datatype FeedInfo = FeedInfo(id: Option<string>, name: Option<string>, url: Option<string>, category: Option<string>)

  /** The `feeds` relation as the client returns it: absent, one object, or an array. */
  datatype FeedRelation = NoFeed | One(info: FeedInfo) | Many(infos: seq<FeedInfo>)

  /** One row of the `items` query. */
  datatype ItemRow = ItemRow(
    id: string,
    title: Option<string>,
    url: Option<string>,
    publishedAt: Option<string>,
    imageUrl: Option<string>,
    feeds: FeedRelation)

  /** One element of the response's `items`. */
  datatype Record = Record(
    id: string,
    title: string,
    url: string,
    feedId: string,
    sourceName: string,
    sourceDomain: string,
    category: Option<string>,
    publishedAt: Option<string>,
    imageUrl: Option<string>)

  const NoFeedDomain := "news.source"
  const BadUrlDomain := "source.com"
  const NilUuid := "00000000-0000-0000-0000-000000000000"
  const DefaultSource := "General News"
  const Untitled := "Untitled"
  const NoLink := "#"
  const Www := "www."

  /** `Array.isArray(feeds) ? feeds[0] : feeds`; an empty array gives nothing. */
  function FeedInfoOf(rel: FeedRelation): (r: Option<FeedInfo>)
    ensures rel.Many? && |rel.infos| > 0 ==> r == Some(rel.infos[0])
    ensures rel.One? ==> r == Some(rel.info)
    ensures r.None? <==> rel.NoFeed? || (rel.Many? && rel.infos == [])
  {
    match rel
    case NoFeed => None
    case One(f) => Some(f)
    case Many(fs) => if |fs| > 0 then Some(fs[0]) else None
  }

  /** The first index at or after `i` where `p` occurs in `s`. */
  function IndexOf(s: string, p: string, i: nat): (r: Option<nat>)
    requires |p| > 0
    ensures r.Some? ==> i <= r.value && At(s, r.value, p)
    ensures r.Some? ==> forall k :: i <= k < r.value ==> !At(s, k, p)
    ensures r.None? ==> forall k :: i <= k ==> !At(s, k, p)
    decreases |s| - i
  {
    if i + |p| > |s| then None
    else if At(s, i, p) then Some(i)
    else IndexOf(s, p, i + 1)
  }

  /** `host.replace('www.', '')`: a string pattern replaces its first occurrence only. */
  function RemoveFirstWww(host: string): (r: string)
    ensures (forall k :: !At(host, k, Www)) ==> r == host
    ensures forall i :: At(host, i, Www) && (forall k :: 0 <= k < i ==> !At(host, k, Www)) ==>
      r == host[..i] + host[i + 4..]
  {
    match IndexOf(host, Www, 0)
    case None => host
    case Some(i) =>
      assert forall j :: At(host, j, Www) && (forall k :: 0 <= k < j ==> !At(host, k, Www)) ==> j == i by {
        forall j | At(host, j, Www) && (forall k :: 0 <= k < j ==> !At(host, k, Www)) ensures j == i {
          assert j < i ==> !At(host, j, Www);
          assert i < j ==> !At(host, i, Www);
        }
      }
      host[..i] + host[i + 4..]
  }

  /** A leading `www.` is dropped. */
  lemma RemoveLeadingWww(rest: string)
    ensures RemoveFirstWww(Www + rest) == rest
  {
    var host := Www + rest;
    assert At(host, 0, Www);
    assert host[4..] == rest;
  }

  /** The hostname with at most one `www.` removed: never longer, at most four characters shorter. */
  lemma RemoveFirstWwwLength(host: string)
    ensures |host| - 4 <= |RemoveFirstWww(host)| <= |host|
  {
  }

  /** The `domain` of the record: a stand-in when the feed has no URL or its URL does not parse. */
  function SourceDomain(feed: Option<FeedInfo>, hostOf: string -> Option<string>): (r: string)
    ensures feed.None? || !Truthy(feed.value.url) ==> r == NoFeedDomain
    ensures feed.Some? && Truthy(feed.value.url) && hostOf(feed.value.url.value).None? ==> r == BadUrlDomain
    ensures feed.Some? && Truthy(feed.value.url) && hostOf(feed.value.url.value).Some? ==>
      r == RemoveFirstWww(hostOf(feed.value.url.value).value)
  {
    if feed.Some? && Truthy(feed.value.url) then
      match hostOf(feed.value.url.value)
      case None => BadUrlDomain
      case Some(host) => RemoveFirstWww(host)
    else NoFeedDomain
  }

  /** The record literal of the `.map`. */
  function ToRecord(row: ItemRow, hostOf: string -> Option<string>): (r: Record)
    ensures r.id == row.id && r.publishedAt == row.publishedAt
    ensures r.title == (if Truthy(row.title) then row.title.value else Untitled)
    ensures r.url == (if Truthy(row.url) then row.url.value else NoLink)
    ensures r.imageUrl == FirstTruthy([row.imageUrl])
    ensures var f := FeedInfoOf(row.feeds);
      && r.feedId == (if f.Some? && Truthy(f.value.id) then f.value.id.value else NilUuid)
      && r.sourceName == (if f.Some? && Truthy(f.value.name) then f.value.name.value else DefaultSource)
      && r.category == (if f.Some? then FirstTruthy([f.value.category]) else None)
      && r.sourceDomain == SourceDomain(f, hostOf)
    ensures r.title != "" && r.url != "" && r.feedId != "" && r.sourceName != ""
    ensures r.category == None || Truthy(r.category)
    ensures r.imageUrl == None || Truthy(r.imageUrl)
  {
    var f := FeedInfoOf(row.feeds);
    Record(
      row.id,
      OrDefault(row.title, Untitled),
      OrDefault(row.url, NoLink),
      if f.Some? then OrDefault(f.value.id, NilUuid) else NilUuid,
      if f.Some? then OrDefault(f.value.name, DefaultSource) else DefaultSource,
      SourceDomain(f, hostOf),
      if f.Some? then Or(f.value.category, None) else None,
      row.publishedAt,
      Or(row.imageUrl, None))
  }

  /** `(items || []).map(...)`: one record per row, in order. */
  function ToRecords(rows: Option<seq<ItemRow>>, hostOf: string -> Option<string>): (r: seq<Record>)
    ensures rows.None? ==> r == []
    ensures rows.Some? ==> |r| == |rows.value|
    ensures rows.Some? ==> forall k :: 0 <= k < |r| ==> r[k] == ToRecord(rows.value[k], hostOf)
  {
    match rows
    case None => []
    case Some(rs) => seq(|rs|, k requires 0 <= k < |rs| => ToRecord(rs[k], hostOf))
  }
}
