/**
 * Feed location and retrieval: the argument check of `main`,
 * `fetchRssFeed` and `fetchAllArticles` of blog-downloader.js.
 *
 * The HTTP GET and the XML parser are not modelled; what they hand back for
 * a URL is the parameter `fetch`, the outcome of `axios.get` followed by
 * `xml2js` for that URL during one run.
 */
module Feeds {
  import opened Wrappers
  import opened Sequences

  /**
   * A child-element list as xml2js builds it: absent, or a non-empty array
   * (xml2js never builds an empty one).
   */
  datatype Field<T> = Absent | Present(first: T, rest: seq<T>)

  /** All the elements of a field; an absent one has none. */
  function Values<T>(f: Field<T>): (vs: seq<T>)
    ensures vs == [] <==> f.Absent?
    ensures f.Present? ==> vs[0] == f.first
  {
    match f
    case Absent => []
    case Present(x, xs) => [x] + xs
  }

  /** `f ? f[0] : null`: the first element of a field, or null when it is absent. */
  function First<T>(f: Field<T>): Option<T>
  {
    match f
    case Absent => None
    case Present(x, _) => Some(x)
  }

  /** One parsed `<item>` of an RSS channel, with the child elements the downloader reads. */
  datatype RawItem = RawItem(
    title: Field<string>,
    contentEncoded: Field<string>,  // `content:encoded`
    creator: Field<string>,         // `dc:creator`
    category: Field<string>,
    pubDate: Field<string>,
    link: Field<string>,
    description: Field<string>)

  /**
   * What fetching and parsing one URL gives: an error (network, HTTP status,
   * malformed XML, or a document without `rss.channel[0]`), or the first
   * channel's `item` list.
   */
  datatype FetchResult = Failed | Channel(item: Field<RawItem>)

  datatype FeedKind = User | Organization

  /** A feed to fetch: its address, its kind, and the organization's name. */
  datatype FeedSource = FeedSource(url: string, kind: FeedKind, name: Option<string>)

  const FeedBase := "https://medium.com/feed/"

  /**
   * The run is refused when neither a username nor any organization is
   * given. The username is "" when it is missing (JavaScript's undefined and
   * "" are both falsy).
   */
  predicate ArgsRejected(username: string, organizations: seq<string>)
  {
    username == "" && |organizations| == 0
  }

  function UserFeed(username: string): FeedSource
  {
    FeedSource(FeedBase + "@" + username, User, None)
  }

  function OrgFeed(org: string): FeedSource
  {
    FeedSource(FeedBase + org, Organization, Some(org))
  }

  /** The user feed, when a username is given. */
  function UserFeeds(username: string): seq<FeedSource>
  {
    if username != "" then [UserFeed(username)] else []
  }

  /** One organization feed per organization, in the order given. */
  function OrgFeeds(organizations: seq<string>): (feeds: seq<FeedSource>)
    ensures |feeds| == |organizations|
    ensures forall i :: 0 <= i < |organizations| ==> feeds[i] == OrgFeed(organizations[i])
  {
    if organizations == [] then []
    else OrgFeeds(organizations[..|organizations| - 1]) + [OrgFeed(organizations[|organizations| - 1])]
  }

  /** The `feeds` list that `fetchAllArticles` builds before fetching anything. */
  function FeedList(username: string, organizations: seq<string>): (feeds: seq<FeedSource>)
    ensures |feeds| == (if username != "" then 1 else 0) + |organizations|
    ensures username != "" ==>
      feeds[0].url == "https://medium.com/feed/@" + username && feeds[0].kind == User && feeds[0].name == None
    ensures forall i :: 0 <= i < |organizations| ==>
      var f := feeds[|feeds| - |organizations| + i];
      f.url == "https://medium.com/feed/" + organizations[i] && f.kind == Organization && f.name == Some(organizations[i])
  {
    UserFeeds(username) + OrgFeeds(organizations)
  }

  /** The argument check refuses a run exactly when there would be no feed to fetch. */
  lemma RejectedIffNoFeeds(username: string, organizations: seq<string>)
    ensures ArgsRejected(username, organizations) <==> FeedList(username, organizations) == []
  {
  }

  /** `fetchRssFeed`: the channel's items, or [] on any failure or when the channel has none. */
  function FetchRssFeed(response: FetchResult): (items: seq<RawItem>)
    ensures items == [] <==> response.Failed? || response.item.Absent?
    ensures response.Channel? ==> items == Values(response.item)
  {
    match response
    case Failed => []
    case Channel(item) => Values(item)
  }

  /** The item list each feed contributes, feed by feed. */
  function PerFeed(feeds: seq<FeedSource>, fetch: string -> FetchResult): seq<seq<RawItem>>
  {
    seq(|feeds|, i requires 0 <= i < |feeds| => FetchRssFeed(fetch(feeds[i].url)))
  }

  /** The articles `fetchAllArticles` returns: every feed's items, in feed order. */
  function AllArticles(username: string, organizations: seq<string>, fetch: string -> FetchResult): seq<RawItem>
  {
    Flatten(PerFeed(FeedList(username, organizations), fetch))
  }

  /** Lines 18-33 of `fetchAllArticles`: push the user feed, then one feed per organization. */
  method BuildFeeds(username: string, organizations: seq<string>) returns (feeds: seq<FeedSource>)
    ensures feeds == FeedList(username, organizations)
  {
    feeds := [];
    if username != "" {
      feeds := feeds + [UserFeed(username)];
    }
    for i := 0 to |organizations|
      invariant feeds == UserFeeds(username) + OrgFeeds(organizations[..i])
    {
      assert organizations[..i + 1][..i] == organizations[..i];
      assert OrgFeeds(organizations[..i + 1]) == OrgFeeds(organizations[..i]) + [OrgFeed(organizations[i])];
      feeds := feeds + [OrgFeed(organizations[i])];
    }
    assert organizations[..|organizations|] == organizations;
  }

  /** Lines 35-43 of `fetchAllArticles`: fetch the feeds one after another, appending each one's items. */
  method FetchInOrder(feeds: seq<FeedSource>, fetch: string -> FetchResult) returns (allArticles: seq<RawItem>)
    ensures allArticles == Flatten(PerFeed(feeds, fetch))
  {
    ghost var lists := PerFeed(feeds, fetch);
    allArticles := [];
    for k := 0 to |feeds|
      invariant allArticles == Flatten(lists[..k])
    {
      assert lists[..k + 1][..k] == lists[..k];
      assert Flatten(lists[..k + 1]) == Flatten(lists[..k]) + lists[k];
      var articles := FetchRssFeed(fetch(feeds[k].url));
      allArticles := allArticles + articles;
    }
    assert lists[..|feeds|] == lists;
  }

  /**
   * `fetchAllArticles`: build the feed list (the user feed first, then one
   * feed per organization), then fetch the feeds in that order and
   * concatenate their items.
   */
  method FetchAllArticles(username: string, organizations: seq<string>, fetch: string -> FetchResult)
    returns (allArticles: seq<RawItem>)
    ensures allArticles == AllArticles(username, organizations, fetch)
    ensures |allArticles| == TotalLength(PerFeed(FeedList(username, organizations), fetch))
  {
    var feeds := BuildFeeds(username, organizations);
    allArticles := FetchInOrder(feeds, fetch);
    FlattenLength(PerFeed(feeds, fetch));
  }

  /**
   * A feed whose fetch fails, or whose channel has no item, contributes
   * nothing: when `down` answers like `fetch` at every other address but
   * yields no item at feed k's address, the collection is what the feeds
   * before k and after k give under `fetch`, in their order, shorter by
   * exactly the items feed k gives under `fetch`.
   */
  lemma FailedFeedIsolated(feeds: seq<FeedSource>, fetch: string -> FetchResult, down: string -> FetchResult, k: nat)
    requires k < |feeds|
    requires FetchRssFeed(down(feeds[k].url)) == []
    requires forall i :: 0 <= i < |feeds| && i != k ==> feeds[i].url != feeds[k].url
    requires forall u :: u != feeds[k].url ==> down(u) == fetch(u)
    ensures Flatten(PerFeed(feeds, down)) ==
            Flatten(PerFeed(feeds[..k], fetch)) + Flatten(PerFeed(feeds[k + 1..], fetch))
    ensures |Flatten(PerFeed(feeds, down))| ==
            |Flatten(PerFeed(feeds, fetch))| - |FetchRssFeed(fetch(feeds[k].url))|
  {
    var lists := PerFeed(feeds, fetch);
    assert PerFeed(feeds, down) == lists[k := []];
    EmptiedPart(lists, k);
    assert lists[..k] == PerFeed(feeds[..k], fetch);
    assert lists[k + 1..] == PerFeed(feeds[k + 1..], fetch);
  }

  /**
   * Item j of feed k appears in the collection right after the items of the
   * feeds before k.
   */
  lemma ItemPlacement(feeds: seq<FeedSource>, fetch: string -> FetchResult, k: nat, j: nat)
    requires k < |feeds| && j < |FetchRssFeed(fetch(feeds[k].url))|
    ensures var all := Flatten(PerFeed(feeds, fetch));
      var before := |Flatten(PerFeed(feeds[..k], fetch))|;
      before + j < |all| && all[before + j] == FetchRssFeed(fetch(feeds[k].url))[j]
  {
    var lists := PerFeed(feeds, fetch);
    ElementPosition(lists, k, j);
    assert lists[..k] == PerFeed(feeds[..k], fetch);
  }

  /** No article is collected exactly when every feed gives none. */
  lemma NoArticlesIff(username: string, organizations: seq<string>, fetch: string -> FetchResult)
    ensures var feeds := FeedList(username, organizations);
      AllArticles(username, organizations, fetch) == [] <==>
      forall i :: 0 <= i < |feeds| ==> FetchRssFeed(fetch(feeds[i].url)) == []
  {
    var feeds := FeedList(username, organizations);
    var lists := PerFeed(feeds, fetch);
    FlattenEmpty(lists);
    assert |lists| == |feeds|;
    forall i | 0 <= i < |feeds| ensures lists[i] == FetchRssFeed(fetch(feeds[i].url)) { }
  }
}
