/**
 * `main` of blog-downloader.js and the top-level `catch`: one run, from the
 * command-line identifiers to the exit status.
 *
 * Inputs that stand for the world: `fetch` (the network and the parser),
 * `isoTime` (the clock), `mkdirError` and `writeOk` (the disk).
 */
module Downloader {
  import opened Wrappers
  import opened Sequences
  import opened Feeds
  import opened Articles

  /** How a run ends. */
  datatype RunResult =
    | UsageError            // no identifier given: exit 1 before any fetch
    | NoArticles            // nothing fetched: exit 0, no file
    | Crashed(fault: Fault) // `saveArticles` threw: caught at top level, exit 1
    | Completed(saved: Saved)

  function ExitCode(r: RunResult): int
  {
    if r.UsageError? || r.Crashed? then 1 else 0
  }

  /** One run of `main`. */
  function Run(
    username: string, organizations: seq<string>, fetch: string -> FetchResult,
    isoTime: string, mkdirError: Option<string>, writeOk: bool): RunResult
  {
    if ArgsRejected(username, organizations) then UsageError
    else
      var articles := AllArticles(username, organizations, fetch);
      if |articles| == 0 then NoArticles
      else
        var result := SaveArticles(articles, username, organizations, isoTime, mkdirError, writeOk);
        if result.Thrown? then Crashed(result.fault) else Completed(result.saved)
  }

  /**
   * The usage error happens exactly when both the username and the
   * organization list are empty; it ends with status 1 and does not depend
   * on the network, the clock or the disk, none of which it touches.
   */
  lemma UsageErrorIff(
    username: string, organizations: seq<string>, fetch: string -> FetchResult, other: string -> FetchResult,
    isoTime: string, mkdirError: Option<string>, writeOk: bool)
    ensures Run(username, organizations, fetch, isoTime, mkdirError, writeOk) == UsageError <==>
      username == "" && organizations == []
    ensures username == "" && organizations == [] ==>
      && ExitCode(Run(username, organizations, fetch, isoTime, mkdirError, writeOk)) == 1
      && Run(username, organizations, fetch, isoTime, mkdirError, writeOk) == Run(username, organizations, other, "", Some("EPERM"), false)
  {
  }

  /**
   * No article is found exactly when the identifiers pass the check and every
   * feed yields no item; the run then ends with status 0 whatever the clock
   * and the disk would have done, since no file is made.
   */
  lemma NothingFoundIff(
    username: string, organizations: seq<string>, fetch: string -> FetchResult,
    isoTime: string, mkdirError: Option<string>, writeOk: bool)
    ensures var feeds := FeedList(username, organizations);
      Run(username, organizations, fetch, isoTime, mkdirError, writeOk) == NoArticles <==>
      !ArgsRejected(username, organizations) && forall i :: 0 <= i < |feeds| ==> FetchRssFeed(fetch(feeds[i].url)) == []
    ensures Run(username, organizations, fetch, isoTime, mkdirError, writeOk) == NoArticles ==>
      && ExitCode(NoArticles) == 0
      && Run(username, organizations, fetch, "", Some("EPERM"), false) == NoArticles
  {
    Feeds.NoArticlesIff(username, organizations, fetch);
    var articles := AllArticles(username, organizations, fetch);
    if !ArgsRejected(username, organizations) && articles != [] {
      var result := SaveArticles(articles, username, organizations, isoTime, mkdirError, writeOk);
      assert Run(username, organizations, fetch, isoTime, mkdirError, writeOk) ==
        if result.Thrown? then Crashed(result.fault) else Completed(result.saved);
    }
  }

  /**
   * A run crashes exactly when some article was fetched and then either the
   * directory cannot be created (other than EEXIST) or an article lacks
   * `title`, `pubDate` or `link`.
   */
  lemma CrashedIff(
    username: string, organizations: seq<string>, fetch: string -> FetchResult,
    isoTime: string, mkdirError: Option<string>, writeOk: bool)
    ensures var articles := AllArticles(username, organizations, fetch);
      Run(username, organizations, fetch, isoTime, mkdirError, writeOk).Crashed? <==>
      && !ArgsRejected(username, organizations)
      && articles != []
      && (MkdirThrows(mkdirError) || exists i :: 0 <= i < |articles| && !Normalizable(articles[i]))
  {
    var articles := AllArticles(username, organizations, fetch);
    if !ArgsRejected(username, organizations) && articles != [] {
      var result := SaveArticles(articles, username, organizations, isoTime, mkdirError, writeOk);
      assert Run(username, organizations, fetch, isoTime, mkdirError, writeOk) ==
        if result.Thrown? then Crashed(result.fault) else Completed(result.saved);
      assert result.Thrown? <==> result == Thrown(MissingField) || (result.Thrown? && result.fault.DirectoryError?);
    }
  }

  /**
   * A completed run saved one record per fetched item, record i made from
   * item i of the concatenated feeds, into the file named after the
   * identifiers and the sanitised time; its count is the number of records,
   * or 0 when the write failed, and its status is 0 either way.
   */
  lemma CompletedRun(
    username: string, organizations: seq<string>, fetch: string -> FetchResult,
    isoTime: string, mkdirError: Option<string>, writeOk: bool)
    ensures var r := Run(username, organizations, fetch, isoTime, mkdirError, writeOk);
      var articles := AllArticles(username, organizations, fetch);
      r.Completed? ==> var s := r.saved;
      && ExitCode(Completed(s)) == 0
      && |s.records| == TotalLength(PerFeed(FeedList(username, organizations), fetch)) > 0
      && (forall i :: 0 <= i < |articles| ==> Normalizable(articles[i]) && s.records[i] == Normalize(articles[i]))
      && s.fileName == FileName(Prefix(username, organizations), SanitizeTimestamp(isoTime))
      && s.written == writeOk
      && s.count == (if writeOk then |s.records| else 0)
  {
    FlattenLength(PerFeed(FeedList(username, organizations), fetch));
  }

  /**
   * A failed write changes nothing but the outcome of the write: the same
   * run with a successful write completes too, with the same file name and
   * records, and reports the full count instead of 0.
   */
  lemma WriteFailureReportsZero(
    username: string, organizations: seq<string>, fetch: string -> FetchResult,
    isoTime: string, mkdirError: Option<string>)
    ensures var r := Run(username, organizations, fetch, isoTime, mkdirError, false);
      var ok := Run(username, organizations, fetch, isoTime, mkdirError, true);
      r.Completed? ==> var failed := r.saved;
      && ok.Completed?
      && ok.saved.fileName == failed.fileName
      && ok.saved.records == failed.records
      && failed.count == 0
      && ok.saved.count == |ok.saved.records| > 0
  {
  }

  /**
   * Output order: a user feed and two organization feeds with two items each
   * give the user's items, then the first organization's, then the second's.
   */
  lemma FeedOrderExample(fetch: string -> FetchResult, a1: RawItem, a2: RawItem, b1: RawItem, b2: RawItem, c1: RawItem, c2: RawItem)
    requires fetch("https://medium.com/feed/@alice") == Channel(Present(a1, [a2]))
    requires fetch("https://medium.com/feed/orgA") == Channel(Present(b1, [b2]))
    requires fetch("https://medium.com/feed/orgB") == Channel(Present(c1, [c2]))
    ensures AllArticles("alice", ["orgA", "orgB"], fetch) == [a1, a2, b1, b2, c1, c2]
  {
    var feeds := FeedList("alice", ["orgA", "orgB"]);
    assert feeds[0].url == "https://medium.com/feed/@alice";
    assert feeds[1].url == "https://medium.com/feed/orgA";
    assert feeds[2].url == "https://medium.com/feed/orgB";
    var lists := PerFeed(feeds, fetch);
    assert |lists| == 3;
    assert lists[0] == [a1, a2];
    assert lists[1] == [b1, b2];
    assert lists[2] == [c1, c2];
    assert lists == [[a1, a2], [b1, b2], [c1, c2]];
    assert lists[..1][..0] == [];
    assert Flatten(lists[..1]) == [a1, a2];
    assert lists[..2][..1] == lists[..1];
    assert Flatten(lists[..2]) == [a1, a2, b1, b2];
    assert lists[..2] == lists[..|lists| - 1];
  }

  /**
   * One item with only a title, a date and a link, from the user feed alone,
   * is saved as one record whose nullable fields are null and whose
   * categories are empty.
   */
  lemma SingleItemExample(fetch: string -> FetchResult, isoTime: string)
    requires fetch("https://medium.com/feed/@alice") == Channel(Present(
      RawItem(Present("Hello", []), Absent, Absent, Absent, Present("2024-01-01", []), Present("https://x/hello", []), Absent), []))
    ensures Run("alice", [], fetch, isoTime, None, true) == Completed(Saved(
      FileName("alice", SanitizeTimestamp(isoTime)),
      [Article("Hello", None, None, [], "2024-01-01", "https://x/hello", None)],
      true, 1))
  {
    var item := RawItem(Present("Hello", []), Absent, Absent, Absent, Present("2024-01-01", []), Present("https://x/hello", []), Absent);
    var feeds := FeedList("alice", []);
    assert feeds[0].url == "https://medium.com/feed/@alice";
    assert |feeds| == 1;
    var lists := PerFeed(feeds, fetch);
    assert lists[0] == Values(Present(item, [])) == [item];
    assert lists == [[item]];
    assert lists[..|lists| - 1] == [];
    assert Flatten(lists) == [item];
    assert [item][1..] == [];
    assert Normalizable(item);
    assert FormatArticles([]) == Some([]);
    assert [Normalize(item)] + [] == [Normalize(item)];
    assert FormatArticles([item]) == Some([Normalize(item)]);
    PrefixUserOnly("alice");
  }
}
