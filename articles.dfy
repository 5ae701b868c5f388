/**
 * `saveArticles` of blog-downloader.js: the output record of each raw item,
 * the file name built from the identifiers and the timestamp, and what the
 * call returns or throws.
 *
 * The clock, `fs.mkdir` and `fs.writeFile` are parameters: the ISO string
 * `new Date().toISOString()` gives, the error code `mkdir` fails with (if
 * any), and whether the write succeeds.
 */
module Articles {
  import opened Wrappers
  import opened Sequences
  import opened Feeds

  /** The persisted record; `null` is `None`. */
  datatype Article = Article(
    title: string,
    content: Option<string>,
    author: Option<string>,
    categories: seq<string>,
    publishedAt: string,
    url: string,
    description: Option<string>)

  /** The fields the mapping reads without a fallback (`article.title[0]` and so on). */
  predicate Normalizable(item: RawItem)
  {
    item.title.Present? && item.pubDate.Present? && item.link.Present?
  }

  /** The record one raw item becomes. */
  function Normalize(item: RawItem): Article
    requires Normalizable(item)
  {
    Article(
      item.title.first,
      First(item.contentEncoded),
      First(item.creator),
      Values(item.category),
      item.pubDate.first,
      item.link.first,
      First(item.description))
  }

  /**
   * The field mapping: the three required fields are the first elements of
   * `title`, `pubDate` and `link`; a nullable field is null exactly when its
   * element is absent and is its first element otherwise; the categories are
   * the item's own list, in its order, and empty exactly when it has none.
   */
  lemma NormalizeFields(item: RawItem)
    requires Normalizable(item)
    ensures var a := Normalize(item);
      && a.title == Values(item.title)[0]
      && a.publishedAt == Values(item.pubDate)[0]
      && a.url == Values(item.link)[0]
      && (a.content == None <==> item.contentEncoded.Absent?)
      && (a.content != None ==> a.content.value == Values(item.contentEncoded)[0])
      && (a.author == None <==> item.creator.Absent?)
      && (a.author != None ==> a.author.value == Values(item.creator)[0])
      && (a.description == None <==> item.description.Absent?)
      && (a.description != None ==> a.description.value == Values(item.description)[0])
      && a.categories == Values(item.category)
      && (a.categories == [] <==> item.category.Absent?)
  {
  }

  /**
   * `articles.map(...)`: one record per item, in order; None stands for the
   * TypeError thrown when some item lacks a required field.
   */
  function FormatArticles(items: seq<RawItem>): (r: Option<seq<Article>>)
    ensures r.Some? <==> forall i :: 0 <= i < |items| ==> Normalizable(items[i])
    ensures r.Some? ==> |r.value| == |items|
    ensures r.Some? ==> forall i :: 0 <= i < |items| ==> r.value[i] == Normalize(items[i])
  {
    if items == [] then Some([])
    else if !Normalizable(items[0]) then None
    else match FormatArticles(items[1..])
      case None => None
      case Some(rest) => Some([Normalize(items[0])] + rest)
  }

  /** The character `/[:.]/g` replaces with '-'; every other character is kept. */
  function SafeChar(c: char): char
  {
    if c == ':' || c == '.' then '-' else c
  }

  /** `timestamp.replace(/[:.]/g, '-')`. */
  function SanitizeTimestamp(stamp: string): (r: string)
    ensures |r| == |stamp|
    ensures forall i :: 0 <= i < |stamp| ==> r[i] == (if stamp[i] == ':' || stamp[i] == '.' then '-' else stamp[i])
    ensures ':' !in r && '.' !in r
  {
    if stamp == [] then [] else [SafeChar(stamp[0])] + SanitizeTimestamp(stamp[1..])
  }

  /** Sanitising twice is sanitising once. */
  lemma SanitizeIdempotent(stamp: string)
    ensures SanitizeTimestamp(SanitizeTimestamp(stamp)) == SanitizeTimestamp(stamp)
  {
  }

  /** `[username, ...organizations].filter(Boolean).join('-')`. */
  function Prefix(username: string, organizations: seq<string>): string
  {
    JoinWith(NonEmpty([username] + organizations), "-")
  }

  /** With no organizations the prefix is the username. */
  lemma PrefixUserOnly(username: string)
    ensures Prefix(username, []) == username
  {
  }

  /** The prefix is empty exactly when every identifier is empty. */
  lemma PrefixEmptyIff(username: string, organizations: seq<string>)
    ensures Prefix(username, organizations) == "" <==>
      username == "" && forall i :: 0 <= i < |organizations| ==> organizations[i] == ""
  {
  }

  /**
   * One more organization: an empty one leaves the prefix as it was, a
   * non-empty one is appended after a '-' (or alone when the prefix was
   * empty). With PrefixUserOnly this fixes the prefix for every input.
   */
  lemma PrefixSnoc(username: string, organizations: seq<string>, org: string)
    ensures Prefix(username, organizations + [org]) ==
      if org == "" then Prefix(username, organizations)
      else if Prefix(username, organizations) == "" then org
      else Prefix(username, organizations) + "-" + org
  {
    var ids := [username] + organizations;
    assert [username] + (organizations + [org]) == ids + [org];
    NonEmptyAppend(ids, [org]);
    assert NonEmpty([org]) == if org == "" then [] else [org];
    var kept := NonEmpty(ids);
    JoinWithEmpty(kept, "-");
    if org != "" {
      JoinWithSnoc(kept, org, "-");
    } else {
      assert kept + [] == kept;
    }
  }

  /** `content/${prefix}-medium-articles-${timestamp}.json`. */
  function FileName(prefix: string, stamp: string): string
  {
    "content/" + prefix + "-medium-articles-" + stamp + ".json"
  }

  /**
   * The file name can be read back: the directory, the prefix, the fixed
   * middle segment, the timestamp and the extension, each at its place.
   */
  lemma FileNameLayout(prefix: string, stamp: string)
    ensures var name := FileName(prefix, stamp);
      var p := 8 + |prefix|;
      var t := p + 17;
      && |name| == t + |stamp| + 5
      && name[..8] == "content/"
      && name[8..p] == prefix
      && name[p..t] == "-medium-articles-"
      && name[t..t + |stamp|] == stamp
      && name[t + |stamp|..] == ".json"
  {
  }

  /**
   * In the saved file's name the timestamp keeps the clock string's length
   * and holds no ':' and no '.'.
   */
  lemma FileNameStampSafe(prefix: string, isoTime: string)
    ensures var name := FileName(prefix, SanitizeTimestamp(isoTime));
      var t := 8 + |prefix| + 17;
      && |name| == t + |isoTime| + 5
      && ':' !in name[t..t + |isoTime|]
      && '.' !in name[t..t + |isoTime|]
  {
  }

  /** What is thrown out of `saveArticles`. */
  datatype Fault = DirectoryError(code: string) | MissingField

  /** What `saveArticles` computes and returns: the file, its records, whether the write succeeded, the count. */
  datatype Saved = Saved(fileName: string, records: seq<Article>, written: bool, count: nat)

  datatype SaveResult = Thrown(fault: Fault) | Returned(saved: Saved)

  /** `mkdir` rethrows every error but EEXIST. */
  predicate MkdirThrows(mkdirError: Option<string>)
  {
    mkdirError.Some? && mkdirError.value != "EEXIST"
  }

  /**
   * `saveArticles`: create the directory, name the file, map the items and
   * write them; the count is the number of records when the write succeeds
   * and 0 when it fails.
   */
  function SaveArticles(
    articles: seq<RawItem>, username: string, organizations: seq<string>,
    isoTime: string, mkdirError: Option<string>, writeOk: bool): (r: SaveResult)
    ensures r.Thrown? && r.fault.DirectoryError? <==> MkdirThrows(mkdirError)
    ensures r == Thrown(MissingField) <==>
      !MkdirThrows(mkdirError) && exists i :: 0 <= i < |articles| && !Normalizable(articles[i])
    ensures r.Returned? ==>
      && r.saved.fileName == FileName(Prefix(username, organizations), SanitizeTimestamp(isoTime))
      && |r.saved.records| == |articles|
      && (forall i :: 0 <= i < |articles| ==> Normalizable(articles[i]) && r.saved.records[i] == Normalize(articles[i]))
      && r.saved.written == writeOk
      && r.saved.count == (if writeOk then |articles| else 0)
  {
    if MkdirThrows(mkdirError) then Thrown(DirectoryError(mkdirError.value))
    else
      var fileName := FileName(Prefix(username, organizations), SanitizeTimestamp(isoTime));
      match FormatArticles(articles)
      case None => Thrown(MissingField)
      case Some(records) => Returned(Saved(fileName, records, writeOk, if writeOk then |records| else 0))
  }
}
