# hot_news_bot in Dafny

hot_news_bot is a Telegram bot that posts celebrity news to a channel. This
project models the core of its pipeline as Dafny functions, methods and
lemmas, and proves properties of that model:

- **Collecting articles** (`hot_news_bot/rss_parser.py`, module `RssParser`).
  A feed entry becomes an article or is rejected, either as malformed (no
  link or no title) or as stale (older than seven days). An article's image
  is picked in this order: the first image-typed media item, then the first
  thumbnail, then the first image-typed link. Only the first
  `ARTICLES_PER_FEED` entries of each feed are looked at, and only articles
  whose id is not yet in the published-articles table are kept. Feeds are
  read in configuration order, and a feed that raises adds nothing.
- **Premiere events** (`hot_news_bot/events.py`, module `Events`).
  - Listing blocks of the calendar page become event records: a name, a date
    and keywords made of the cast, the title and three fixed words.
  - The events table is purged of rows older than 30 days and refilled.
  - Today's events are matched against an article's text by a
    case-insensitive keyword search.
  - The first ten events are rendered as a numbered digest.
- **Publishing** (`hot_news_bot/publisher.py`, module `Publisher`).
  - The message text is the escaped title in bold, then the escaped summary.
  - The inline keyboard has a "read more" link plus like and dislike
    buttons.
  - An article goes out as a photo or as a text post.
  - After a post, the post statistics and the published-article record are
    written, in that order.

Supporting modules:

- `Common`: options and the Python string operations the bot uses.
- `Calendar`: dates, leap years, a day count, and `%d.%m.%Y` rendering.
- `Store`: the tables of the bot's database, as a `Database` class whose
  methods change them.

Times are integers on one scale, in microseconds. The clock reading is a
parameter.

Other code is represented as given functions or as inputs:

- The text clean-up helpers `clean_html` and `remove_img_tags` are given
  functions (`RssParser.Normalizer`), and so is `escape_html` (the `escape`
  parameter).
- What a network call returns is an input: the image HEAD request, each
  bot send call (a message id, a `requests` exception or another
  exception), and the feeds and page as already parsed.
- Whether the two store writes after a post raise is an input. The other
  store operations always succeed in the model.

## Model

| member | source | states |
|---|---|---|
| RssParser.ArticleIdFallback | hot_news_bot/rss_parser.py:67 | An entry without a link is malformed even when it has an id, because the `entry.link` default is evaluated first. A parsed article's id is the entry's id when present, else its link. |
| RssParser.PubDateFallback | hot_news_bot/rss_parser.py:72-76 | The publication time is `published`, else `updated`, else the clock reading. |
| RssParser.StaleExactly | hot_news_bot/rss_parser.py:79-80 | An entry with a link and a title is stale if and only if it is more than seven days older than now. Otherwise it is parsed. |
| RssParser.SummaryAndImageOptional | hot_news_bot/rss_parser.py:69-83 | A missing summary becomes `""`. The article's image is the outcome of the three-stage image search. |
| RssParser.SelectImage | hot_news_bot/rss_parser.py:83-98 | The image search loops, which break at their first image-typed item, compute exactly the specified image choice. |
| RssParser.MediaImageWins | hot_news_bot/rss_parser.py:84-89 | The first image-typed media item, when it has an address, is the image, whatever the thumbnails and links say. |
| RssParser.MediaWithoutUrlStopsSearch | hot_news_bot/rss_parser.py:86-93 | The media search stops at the first image-typed item even if that item has no address. The first thumbnail then supplies the image, and later media items are ignored. |
| RssParser.ThumbnailSecond | hot_news_bot/rss_parser.py:90-93 | With no image-typed media item, the first thumbnail's address is the image. |
| RssParser.ImageLinkLast | hot_news_bot/rss_parser.py:84-98 | When media content gave no usable address and the first thumbnail gave none either, the first image-typed link's `href` is the image. "No usable address" covers two cases: no image-typed item, or a first image-typed item without an address. |
| RssParser.NoImageSource | hot_news_bot/rss_parser.py:83-98 | With no image source at all, the article's image is `None`. |
| RssParser.ParseEntry | hot_news_bot/rss_parser.py:65-115 | Returns the specified screening outcome. A parsed article is at most seven days old, carries the entry's link and names its feed as source. |
| RssParser.AdmittedAppend | hot_news_bot/rss_parser.py:50-54 | A feed's entries are admitted one by one and kept in entry order. |
| RssParser.AdmittedSound | hot_news_bot/rss_parser.py:50-54 | Every kept article is the parse of some entry, its id is not yet published, it is fresh, and its source is the feed. |
| RssParser.AdmittedComplete | hot_news_bot/rss_parser.py:50-54 | Every entry that parses to an article with an unpublished id is kept. |
| RssParser.EntriesPastLimitIgnored | hot_news_bot/rss_parser.py:50 | Entries beyond `ARTICLES_PER_FEED` do not affect the feed's result. |
| RssParser.FetchFeed | hot_news_bot/rss_parser.py:49-62 | The loop computes the feed's admitted articles. There are at most `ARTICLES_PER_FEED` of them, each unpublished, from this feed and fresh. |
| RssParser.AllArticlesAppend | hot_news_bot/rss_parser.py:20-24 | The result for a run of feeds is the concatenation of the feeds' results, in configuration order. |
| RssParser.FailedFeedSkipped | hot_news_bot/rss_parser.py:21-26 | A feed that raised contributes nothing and does not stop the feeds after it. |
| RssParser.AllArticlesUnpublished | hot_news_bot/rss_parser.py:20-29 | Every collected article is unpublished and fresh, and its source is one of the configured feeds. |
| RssParser.FetchArticles | hot_news_bot/rss_parser.py:20-29 | The loop over the feeds computes all feeds' articles, none of them already published. |
| Events.ListingDateAsWritten | hot_news_bot/events.py:32 | As written: a date is produced if and only if the month and day are valid in 1900, the default year of `strptime`, and in the current year. The date is then placed in the current year. |
| Events.LeapDayDroppedAsWritten | hot_news_bot/events.py:32 | As written, a "February 29" heading yields no date in any year. The corrected reading gives February 29 in every leap year, 2028 included. |
| Events.ListingDate | hot_news_bot/events.py:32 | Corrected: a date exists if and only if the month and day are valid in the current year, and then it is that day of the current year. |
| Events.ListingDateDiffersOnlyOnLeapDay | hot_news_bot/events.py:32 | The written and the corrected date readings agree on every month and day except February 29. |
| Events.BuildEvent | hot_news_bot/events.py:28-43 | A block yields an event if and only if it has a heading read as a month and day that is valid in the current year, and a title. The event is named `Премьера: <title>`, dated on the heading's month and day in the current year, and its keywords are the stars, then the title, then `премьера`, `фильм`, `сериал`. |
| Events.UpcomingEventsAppend | hot_news_bot/events.py:27-43 | Events are built block by block, in page order. |
| Events.BadListingIsolated | hot_news_bot/events.py:28-43 | A block that is skipped or raises leaves the events of the other blocks untouched. |
| Events.UpcomingEventsWellFormed | hot_news_bot/events.py:32-41 | Every built event has a valid date in the current year and at least four keywords. |
| Events.FetchUpcomingEvents | hot_news_bot/events.py:14-49 | The loop computes the page's events, with the corrected date reading, or none when the page could not be fetched. Every event is well formed. |
| Events.UpdateEvents | hot_news_bot/events.py:52-66 | The events table becomes the purged old table followed by one row per fetched event (corrected date reading), in page order, with consecutive fresh ids and comma-joined keywords. The other tables are unchanged. |
| Store.Database.ClearOldData | hot_news_bot/events.py:57 | The purge keeps exactly the rows within the retention window and changes no other table. |
| Store.Database.AddEvent | hot_news_bot/events.py:64 | Appends one row with the next id and the keywords joined by `,`. |
| Store.PurgeMembership | hot_news_bot/events.py:57 | A row survives the purge if and only if it was in the table and is at most 30 days old. |
| Store.RowsOnMembership | hot_news_bot/events.py:73 | Today's query returns exactly the rows dated today. |
| Store.PurgedNeverQueried | hot_news_bot/events.py:57-73 | A purged row is never returned by a later day's query unless it is re-inserted. |
| Events.GetRelevantEvents | hot_news_bot/events.py:69-86 | Reads today's rows from the events table. The loop then computes their relevant records, in row order, with at most one record per row. |
| Events.RelevantAreToday | hot_news_bot/events.py:73-84 | Every record returned for today's query is an event of the table dated today, whose keywords mention the text, carried over unchanged. |
| Events.RelevantAppend | hot_news_bot/events.py:74-86 | Rows are matched one by one, with no ranking or reordering. |
| Events.RelevantMembership | hot_news_bot/events.py:76-84 | A row yields a record if and only if one of its comma-split keywords, lowercased, occurs in the lowercased text. The record carries the row's id, name, date and split keywords. |
| Events.EmptyTextMatchesNothing | hot_news_bot/events.py:76-78 | When no keyword is empty, an empty text matches no event. |
| Events.EmptyKeywordMatchesAll | hot_news_bot/events.py:77-78 | A row with an empty keyword matches every text. |
| Events.MentionsIgnoresCase | hot_news_bot/events.py:78 | Lowercasing the text or the keywords beforehand does not change the match. |
| Events.UpperCaseHeadlineMatches | hot_news_bot/events.py:78 | The keyword "Tom Hanks" is found in "Breaking: TOM HANKS visits". |
| Events.StoredKeywordsRoundTrip | hot_news_bot/events.py:77-83 | Splitting a stored row's keywords returns the list it was stored with, provided no keyword holds a comma. |
| Events.NumberedAppend | hot_news_bot/events.py:100-103 | `enumerate` numbering continues across consecutive runs of items. |
| Events.EntryNumbering | hot_news_bot/events.py:100-103 | The k-th event (from 0) is rendered as entry k+1, after the entries of the events before it. |
| Events.DigestFixedMessageIffNoEvents | hot_news_bot/events.py:95-98 | The digest is the fixed "no events" message if and only if no events were fetched. |
| Events.DigestShowsFirstTen | hot_news_bot/events.py:100 | Events after the tenth do not change the digest. |
| Events.GenerateEventsDigest | hot_news_bot/events.py:89-107 | The loop builds the specified digest of the fetched events (corrected date reading): header, the first ten entries numbered from 1, footer. |
| Calendar.FormatDateRoundTrip | hot_news_bot/events.py:102 | The `%d.%m.%Y` rendering of a valid date reads back as that date. |
| Calendar.FormatDateShape | hot_news_bot/events.py:102 | For a four-digit year the rendering has ten characters, with dots at positions 2 and 5. |
| Common.SplitJoin | hot_news_bot/events.py:77 | Splitting on `,` undoes joining with `,` when no piece contains a comma. |
| Publisher.ReadFormattedMessage | hot_news_bot/publisher.py:79-80 | If the escaped title contains no `<`, the message splits back into exactly the escaped title and the escaped summary. |
| Publisher.OnlyBoldMarkup | hot_news_bot/publisher.py:79-80 | If the escaper leaves no angle brackets, the only `<` and `>` in the message are those of the fixed `<b>` and `</b>`. |
| Publisher.CallbackRoundTrip | hot_news_bot/publisher.py:98-99 | Stripping `like_` or `dislike_` from a button's callback data recovers the reaction and the article id, for every id. |
| Publisher.CallbackDataDetermined | hot_news_bot/publisher.py:98-99 | Every readable callback data is the data of exactly one (reaction, id) button. |
| Publisher.CreateArticleKeyboard | hot_news_bot/publisher.py:95-101 | Two rows: a "Читать полностью" button linking to the article, then like and dislike buttons whose callback data read back as (Like, id) and (Dislike, id). |
| Publisher.ChooseDelivery | hot_news_bot/publisher.py:19-54 | The first send is a photo if and only if the image address is non-empty and its HEAD request answered 200. The photo is then that address. |
| Publisher.PhotoOnlyFirstAfterHeadOk | hot_news_bot/publisher.py:19-46 | A posted article is a photo if and only if the first send delivered, the address is non-empty and the HEAD request answered 200. A resend is always text. |
| Publisher.ResendAfterRequestFailure | hot_news_bot/publisher.py:21-46 | When the first send fails, the article is still posted, as text with the resend's message id, if and only if all of these hold: there is an image address, the HEAD request answered, the failure is a `requests` exception, and the resend delivers. A failure of another kind, without an image, or after a failed HEAD request loses the post. |
| Publisher.Channel.Send | hot_news_bot/publisher.py:49-54 | A send that returns appends the post to the channel. A raising send appends nothing. The call's outcome is passed back to the caller. |
| Publisher.PublishToTelegram | hot_news_bot/publisher.py:15-66 | Posts the formatted message: the first send by the chosen delivery, then one text resend after a `requests` failure inside the image block. Statistics are logged only after a post went out, and the record only after the statistics were logged. The returned message id is the delivered post's, only when everything succeeded, and then the id is recorded as published. The events table is unchanged. |
| Store.Database.AddPublishedArticle | hot_news_bot/publisher.py:61 | Appends the record, so the published ids grow by exactly this id. |
| Store.Database.LogPostStats | hot_news_bot/publisher.py:58 | Appends one statistics row and changes no other table. |
| Publisher.PublishDigest | hot_news_bot/publisher.py:116-127 | The digest goes out as one text post. The result is the message id, or `None` when sending raised any exception. |
| Publisher.PublishedArticleNotCollectedAgain | hot_news_bot/rss_parser.py:53 | An article whose id the published-articles table holds (as `PublishToTelegram` guarantees after a successful publication) is never collected by a run that reads that table. |

## Left out

- Fetching and parsing feeds over HTTP is out of scope. Each feed is given as its entries, or as a failure.
- `fetch_full_article` (`hot_news_bot/rss_parser.py:118-136`) is a plain HTTP GET and is not modelled.
- Scraping the calendar page is out of scope: the HTTP request, BeautifulSoup's selectors, `find_previous('h3')` and `.strip()`. Each block is given as the heading, title and cast entries the scraper finds.
- `strptime`'s month-name parsing is out of scope. A heading is given already read as a month and a day, or as unreadable.
- The `database` module is not part of this model. The `Store` module states the behaviour the core relies on:
  - ids are assigned in insertion order;
  - keywords are stored comma-joined;
  - `get_today_events` returns rows in insertion order;
  - `clear_old_data(days)` removes event rows dated more than `days` days before today.
- The telebot API is out of scope. A send is represented by its outcome: a message id, a `requests` exception, or another exception. Parse mode and link-preview flags are not represented.
- Publisher.Channel.Send: a send that raises, for example on a read timeout, is taken to have posted nothing. In reality Telegram may have posted the message anyway.
- A HEAD request that raises something other than a `RequestException` is not represented. In the source, that exception reaches the outer handler and the function returns `None`.
- Events.FetchUpcomingEvents, Events.UpdateEvents and Events.GenerateEventsDigest use the corrected date reading (`Events.ListingDate`; see Findings). For a "February 29" heading in a leap year they keep an event that the source drops, because there `strptime` raises and the block is skipped. On every other heading they agree with the source (`Events.ListingDateDiffersOnlyOnLeapDay`).
- Events.UpdateEvents: `clear_old_data` and `add_event` never fail in the model. In the source, `update_events` has no `try`, so a raising `add_event` stops the remaining inserts and the exception reaches the caller.
- `update_post_stats` (`hot_news_bot/publisher.py:130-148`) reads counters from the Telegram API and is not modelled.
- `clean_html`, `remove_img_tags`, `escape_html` and `to_moscow_time` belong to the utils module, which is not part of this model. The first three are given functions. The Moscow-time stamp is an integer input, and its `%Y-%m-%d %H:%M:%S` rendering is not modelled.
- Clock readings are parameters. `parse_entry` reads the clock twice, once as the fallback publication time and once for the age check. The model uses one reading for both.
- Timezones and `struct_time` conversion are not modelled. The source compares a naive UTC publication time with the naive local `datetime.now()`. The model puts both on one scale, so the seven-day window is exact in the model but shifted by the UTC offset in the source.
- Common.Lower covers ASCII, Latin-1 and the basic Cyrillic letters, not all of Unicode `str.lower`.
- Logging and the `__main__` blocks are left out.
- An explicit `null` `type` in a media item or link makes the source raise inside `parse_entry`. The model reads a missing `type` as `''` and does not represent `null`.
- The published-articles lookup (`is_article_published`) is taken as one snapshot per collection run, the set `Run.published`. Writes made to that table while a run is in progress are not seen by that run.
- Articles are not deduplicated within one run, as in the source: two entries with the same id are both kept.
- Event names go into the digest's HTML without escaping, as in the source. No property about the digest's markup is claimed.

## Findings

| source | as written | input that shows it | evidently intended | confidence | as-written member | corrected member |
|---|---|---|---|---|---|---|
| hot_news_bot/events.py:32 | `strptime(date_str, '%B %d')` validates the day against the default year 1900. Only then does `.replace(year=...)` move the date to the current year. | A "February 29" heading in 2028: 1900 was not a leap year, so the date raises and the premiere is dropped. | February 29 is accepted in a leap year, because the day is checked against the year the event is placed in. | not executed | Events.ListingDateAsWritten, Events.LeapDayDroppedAsWritten | Events.ListingDate, Events.BuildEvent |
