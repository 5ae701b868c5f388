# Medium article downloader, modelled in Dafny

`blog-downloader.js` is a one-shot command-line tool. It takes a Medium
username and a list of organization (publication) slugs. It builds one RSS feed
address per identifier and fetches the feeds one after another. It
concatenates their items, maps every item to a fixed record and writes all
the records to `content/<identifiers>-medium-articles-<timestamp>.json`.

The model keeps the logic and turns the outside world into inputs:

- `fetch: string -> FetchResult` is what the HTTP GET plus the XML parse
  give for an address: `Failed`, or the first channel's `item` list.
- `isoTime` is the string `new Date().toISOString()` returns.
- `mkdirError` is the error code `fs.mkdir` fails with, if it fails.
- `writeOk` says whether `fs.writeFile` succeeds.

Files and modules:

- `wrappers.dfy` (`Wrappers`): `Option`, used for JavaScript's `null`.
- `sequences.dfy` (`Sequences`): list helpers. `Flatten` is the
  `[...acc, ...part]` accumulation; `NonEmpty` is `filter(Boolean)` on
  strings; `JoinWith` is `join`.
- `feeds.dfy` (`Feeds`): the argument check, the feed list, `fetchRssFeed`
  and `fetchAllArticles`. `fetchAllArticles` is a method calling one method per
  loop of the source. Its result is tied to the function `AllArticles`, about which the
  lemmas are stated.
- `articles.dfy` (`Articles`): the record mapping, timestamp sanitising, the
  file-name prefix and name, and `saveArticles` with its thrown errors.
- `downloader.dfy` (`Downloader`): `main` as the function `Run`, with its
  exit status, the properties of whole runs and two worked scenarios.

An empty or missing username is the empty string in the model. JavaScript's
`undefined` and `""` are both falsy, and the source only tests truthiness.

xml2js never builds an empty child array. A child element is therefore
modelled as `Field<T> = Absent | Present(first, rest)`, so "first element or
null" always has a first element to take.

## Model

| member | source | states |
|---|---|---|
| `Feeds.FeedList` | blog-downloader.js:17-33 | The feed list has one entry more than there are organizations when a username is given and none more otherwise. The first entry is then the user feed `https://medium.com/feed/@<username>` of kind User without a name. Organization i sits at position (length − count of organizations + i) with URL `https://medium.com/feed/<org>`, kind Organization and name `org`. |
| `Feeds.OrgFeeds` | blog-downloader.js:27-33 | One feed per organization, in input order: entry i is organization i's feed. |
| `Feeds.RejectedIffNoFeeds` | blog-downloader.js:88 | The argument check refuses the run exactly when the feed list would be empty. |
| `Feeds.FetchRssFeed` | blog-downloader.js:5-15 | The result is empty exactly when the fetch or parse failed or the channel has no `item`. Otherwise it is the channel's items in document order. It never throws. |
| `Feeds.Values` | blog-downloader.js:10 | A child list is empty exactly when it is absent. A present one starts with its first element. |
| `Feeds.BuildFeeds` | blog-downloader.js:18-33 | The push loop builds exactly the feed list described by `FeedList`. |
| `Feeds.FetchInOrder` | blog-downloader.js:35-43 | The fetch loop returns exactly the concatenation, in feed order, of what each given feed yields. |
| `Feeds.FetchAllArticles` | blog-downloader.js:17-44 | The imperative loops return exactly the concatenation, in feed order, of what each feed of the feed list yields. Its length is the sum of the per-feed lengths. |
| `Feeds.FailedFeedIsolated` | blog-downloader.js:10-14 | Take a feed whose fetch fails or has no item. The collection is then exactly the items of the feeds before it followed by those after it, in order, and shorter by that feed's items alone. |
| `Feeds.ItemPlacement` | blog-downloader.js:35-41 | Item j of feed k is in the collection at position j after all the items of the feeds before k. |
| `Feeds.NoArticlesIff` | blog-downloader.js:35-43 | No article is collected exactly when every feed yields none. |
| `Articles.NormalizeFields` | blog-downloader.js:64-72 | `title`, `published_at` and `url` are the first `title`, `pubDate` and `link`. `content`, `author` and `description` are null exactly when `content:encoded`, `dc:creator` and `description` are absent, and their first element otherwise. `categories` is the item's `category` list unchanged, and empty exactly when that is absent. |
| `Articles.FormatArticles` | blog-downloader.js:64-72 | The map succeeds exactly when every item has `title`, `pubDate` and `link`. It then gives one record per item, record i being item i's. |
| `Articles.SanitizeTimestamp` | blog-downloader.js:47 | Same length as the input. Every `:` and `.` becomes `-` and every other character is kept. No `:` or `.` remains. |
| `Articles.SanitizeIdempotent` | blog-downloader.js:47 | Sanitising an already sanitised timestamp changes nothing. |
| `Sequences.NonEmpty` | blog-downloader.js:60 | `filter(Boolean)` keeps exactly the non-empty strings, never more of them than it was given. It is empty exactly when every input string is empty. |
| `Sequences.NonEmptyAppend` | blog-downloader.js:60 | The filter keeps order: filtering a concatenation concatenates the filtered halves. |
| `Sequences.JoinWithSnoc` | blog-downloader.js:61 | Joining one more part appends the separator and the part. With no earlier parts, the result is that part alone. |
| `Articles.PrefixUserOnly` | blog-downloader.js:59-61 | With no organizations the prefix is the username. |
| `Articles.PrefixEmptyIff` | blog-downloader.js:59-61 | The prefix is empty exactly when the username and every organization are empty. |
| `Articles.PrefixSnoc` | blog-downloader.js:59-61 | Appending an organization to the input: an empty one leaves the prefix unchanged. A non-empty one is appended after a `-`, or stands alone when the prefix was empty. |
| `Articles.FileNameLayout` | blog-downloader.js:62 | The file name is `content/`, the prefix, `-medium-articles-`, the timestamp and `.json`, each recoverable at its offset. |
| `Articles.FileNameStampSafe` | blog-downloader.js:47-62 | In the file name, the timestamp segment has the clock string's length and holds no `:` or `.`. |
| `Articles.SaveArticles` | blog-downloader.js:46-82 | Throws a directory error exactly when `mkdir` fails with a code other than EEXIST. Otherwise it throws the missing-field error exactly when some item lacks a required field. When it returns, the file name is the prefix-and-timestamp name, record i is item i normalised, and the count is the record count on a successful write and 0 on a failed one. |
| `Downloader.UsageErrorIff` | blog-downloader.js:88-93 | The usage error happens exactly when both the username and the organization list are empty. It exits with 1 and its outcome does not depend on the network, the clock or the disk. |
| `Downloader.NothingFoundIff` | blog-downloader.js:97-102 | "No articles found" happens exactly when the arguments pass and every feed yields nothing. It exits with 0 and the outcome does not depend on the clock or the disk, since no file is made. |
| `Downloader.CrashedIff` | blog-downloader.js:46-82 | A run crashes (exit 1 via the top-level catch) exactly when articles were found and then the directory fails with a code other than EEXIST or an item lacks a required field. |
| `Downloader.CompletedRun` | blog-downloader.js:97-109 | A completed run exits with 0. It holds one record per collected item, at least one, built in collection order. It names the file from the prefix and the sanitised time and reports the record count, or 0 after a failed write. |
| `Downloader.WriteFailureReportsZero` | blog-downloader.js:74-81 | A failed write still completes the run, with the same file name and records as a successful one, but reports 0 instead of the record count. |
| `Downloader.FeedOrderExample` | blog-downloader.js:17-43 | User `alice` and organizations `orgA` and `orgB` with two items each give alice's two items, then orgA's, then orgB's. |
| `Downloader.SingleItemExample` | blog-downloader.js:46-82 | One item with only title `Hello`, link and date gives one record. Content, author and description are null and the categories are empty. The count is 1. |

## Left out

- The HTTP request (axios) and the XML parser (xml2js) are not modelled.
  They are the input `fetch`. It returns the same answer for the same
  address throughout a run, so a feed named twice is modelled as answering
  twice alike.
- Parsed elements are strings only. xml2js's object form for elements with
  attributes is not modelled.
- `fs.mkdir` and `fs.writeFile` are inputs: an optional error code and a
  success flag. The JSON text itself (the `JSON.stringify(..., null, 2)`
  layout) is not modelled; the model keeps the records that would be written.
- The clock is the input `isoTime`. Only the character replacement is
  modelled, not the ISO 8601 format.
- Console output is not modelled: progress lines, error messages and the
  final summary. The summary's count is the `count` field of the `Saved`
  result.
- Reading `process.argv` is not modelled; the model starts from the username
  and organization list. `process.exit` is the `ExitCode` of the run.
- The `async`/`await` suspensions are not modelled. The source awaits every
  call in turn, so the model is sequential.
- `Articles.Normalize` requires `title`, `pubDate` and `link`. That is
  where the source would throw. The run-level model (`FormatArticles`,
  `SaveArticles`, `Run`) does capture the throw: the map fails and the run
  ends with status 1.
