/** Screening of feed entries (hot_news_bot/rss_parser.py): turning one
    entry into an article or rejecting it, choosing its image, and
    collecting the not-yet-published articles of each feed in order.

    A feed entry is given as a record; fetching and parsing the feed itself
    is outside the model. Keys that the source tests with `in` and then
    reads as lists (`media_content`, `media_thumbnail`, `links`) behave
    the same when absent and when empty, so they are plain sequences. */
module RssParser {
  import opened Common

  /** One item of `media_content` or of `links`: its `type` (`''` when the
      key is absent) and its address (`url` for media items, `href` for
      links; `None` when the key is absent). */
  datatype Resource = Resource(mimeType: string, location: Option<string>)

  /** One item of `media_thumbnail`. */
  datatype Thumbnail = Thumbnail(url: Option<string>)

  /** A feed entry as the feed library hands it over. `published` and
      `updated` are the parsed times, as instants on the same scale as the
      clock reading `now` (microseconds). */
  datatype Entry = Entry(
    id: Option<string>,
    link: Option<string>,
    title: Option<string>,
    summary: Option<string>,
    published: Option<int>,
    updated: Option<int>,
    mediaContent: seq<Resource>,
    thumbnails: seq<Thumbnail>,
    links: seq<Resource>)

  /** The article dictionary `parse_entry` builds. */
  datatype Article = Article(
    id: string,
    title: string,
    summary: string,
    link: string,
    pubDate: int,
    source: string,
    imageUrl: Option<string>)

  /** What `parse_entry` returns: an article, or `None` for one of two
      reasons that the source tells apart only in its log: a missing
      field raised (Malformed), or the entry is too old (Stale). */
  datatype ParseOutcome = Parsed(article: Article) | Malformed | Stale

  /** The text clean-up helpers of the utils module (not part of this
      model), taken as given functions. */
  datatype Normalizer = Normalizer(cleanHtml: string -> string, removeImgTags: string -> string)

  /** The settings of one collection run: the clock reading, the ids the
      published-articles table holds, `ARTICLES_PER_FEED` and the text
      clean-up helpers. */
  datatype Run = Run(now: int, published: set<string>, perFeed: nat, norm: Normalizer)

  /** One feed of `RSS_FEEDS`: its address and its entries, or `None` when
      `fetch_feed` raised for it. */
  datatype FeedFetch = FeedFetch(url: string, entries: Option<seq<Entry>>)

  const MicrosPerDay: int := 86_400_000_000

  /** `timedelta(days=7)` */
  const FreshnessWindow: int := 7 * MicrosPerDay

  // ---------------------------------------------------------------------
  // One entry

  /** `entry.get('id', entry.link)`: the default is evaluated first, so a
      missing link fails even when the entry has an id. */
  function ArticleId(e: Entry): Option<string> {
    if e.link.None? then None else if e.id.Some? then e.id else e.link
  }

  /** `published_parsed or updated_parsed`, else the clock. */
  function PubDate(e: Entry, now: int): int {
    if e.published.Some? then e.published.value
    else if e.updated.Some? then e.updated.value
    else now
  }

  predicate IsImageType(mimeType: string) {
    StartsWith(mimeType, "image/")
  }

  /** The first image-typed item, where the source's loop breaks. */
  function FirstImage(rs: seq<Resource>): Option<Resource> {
    if rs == [] then None
    else if IsImageType(rs[0].mimeType) then Some(rs[0])
    else FirstImage(rs[1..])
  }

  /** `image_url` after the media-content search. */
  function MediaChoice(e: Entry): Option<string> {
    match FirstImage(e.mediaContent)
    case Some(m) => m.location
    case None => None
  }

  /** `image_url` after the thumbnail step. */
  function ThumbnailChoice(e: Entry): Option<string> {
    if !Truthy(MediaChoice(e)) && |e.thumbnails| > 0 then e.thumbnails[0].url else MediaChoice(e)
  }

  /** `image_url` after the link search: the entry's image. */
  function ImageUrl(e: Entry): Option<string> {
    if Truthy(ThumbnailChoice(e)) then ThumbnailChoice(e)
    else
      match FirstImage(e.links)
      case Some(l) => l.location
      case None => ThumbnailChoice(e)
  }

  /** `parse_entry(entry, feed_url)`, stated as a value. */
  function Screen(e: Entry, feedUrl: string, now: int, norm: Normalizer): ParseOutcome {
    if e.link.None? || e.title.None? then Malformed
    else
      var pub := PubDate(e, now);
      if now - pub > FreshnessWindow then Stale
      else
        var summary := if e.summary.Some? then norm.cleanHtml(norm.removeImgTags(e.summary.value)) else "";
        Parsed(Article(ArticleId(e).value, norm.cleanHtml(e.title.value), summary, e.link.value, pub, feedUrl, ImageUrl(e)))
  }

  /** The image search of `parse_entry`: media content first, then the
      first thumbnail, then links, each loop stopping at its first
      image-typed item. */
  method SelectImage(e: Entry) returns (imageUrl: Option<string>)
    ensures imageUrl == ImageUrl(e)
  {
    imageUrl := None;
    var media := e.mediaContent;
    var i := 0;
    while i < |media|
      invariant 0 <= i <= |media|
      invariant FirstImage(media[i..]) == FirstImage(media)
      invariant imageUrl == None
    {
      if IsImageType(media[i].mimeType) {
        imageUrl := media[i].location;
        break;
      }
      assert media[i..][1..] == media[i + 1..];
      i := i + 1;
    }
    assert imageUrl == MediaChoice(e);
    if !Truthy(imageUrl) && |e.thumbnails| > 0 {
      imageUrl := e.thumbnails[0].url;
    }
    assert imageUrl == ThumbnailChoice(e);
    if !Truthy(imageUrl) {
      var links := e.links;
      var j := 0;
      while j < |links|
        invariant 0 <= j <= |links|
        invariant FirstImage(links[j..]) == FirstImage(links)
        invariant imageUrl == ThumbnailChoice(e)
      {
        if IsImageType(links[j].mimeType) {
          imageUrl := links[j].location;
          break;
        }
        assert links[j..][1..] == links[j + 1..];
        j := j + 1;
      }
    }
  }

  /** `parse_entry(entry, feed_url)` */
  method ParseEntry(e: Entry, feedUrl: string, now: int, norm: Normalizer) returns (outcome: ParseOutcome)
    ensures outcome == Screen(e, feedUrl, now, norm)
    ensures outcome.Parsed? ==> now - outcome.article.pubDate <= FreshnessWindow
    ensures outcome.Parsed? ==> outcome.article.source == feedUrl && Some(outcome.article.link) == e.link
  {
    if e.link.None? || e.title.None? {
      return Malformed;
    }
    var articleId := if e.id.Some? then e.id.value else e.link.value;
    var title := norm.cleanHtml(e.title.value);
    var summary := if e.summary.Some? then norm.cleanHtml(norm.removeImgTags(e.summary.value)) else "";
    var pub := if e.published.Some? then e.published.value else if e.updated.Some? then e.updated.value else now;
    if now - pub > FreshnessWindow {
      return Stale;
    }
    var imageUrl := SelectImage(e);
    outcome := Parsed(Article(articleId, title, summary, e.link.value, pub, feedUrl, imageUrl));
  }

  // ---------------------------------------------------------------------
  // Properties of one entry

  /** The id is the entry's id when it has one, else its link; an entry
      without a link is malformed whether or not it has an id. */
  lemma ArticleIdFallback(e: Entry, feedUrl: string, now: int, norm: Normalizer)
    ensures e.link.None? ==> Screen(e, feedUrl, now, norm) == Malformed
    ensures Screen(e, feedUrl, now, norm).Parsed? ==>
      Screen(e, feedUrl, now, norm).article.id == (if e.id.Some? then e.id.value else e.link.value)
  {
  }

  /** An entry with a link and a title is rejected as stale exactly when
      its publication time lies more than seven days before the clock;
      one exactly seven days old is kept. */
  lemma StaleExactly(e: Entry, feedUrl: string, now: int, norm: Normalizer)
    requires e.link.Some? && e.title.Some?
    ensures Screen(e, feedUrl, now, norm) == Stale <==> now - PubDate(e, now) > FreshnessWindow
    ensures Screen(e, feedUrl, now, norm).Parsed? <==> now - PubDate(e, now) <= FreshnessWindow
  {
  }

  /** The publication time falls back from `published` to `updated` to the
      clock, so an entry without either is never stale. */
  lemma PubDateFallback(e: Entry, feedUrl: string, now: int, norm: Normalizer)
    requires e.link.Some? && e.title.Some?
    ensures e.published.Some? ==> PubDate(e, now) == e.published.value
    ensures e.published.None? && e.updated.Some? ==> PubDate(e, now) == e.updated.value
    ensures e.published.None? && e.updated.None? ==>
      Screen(e, feedUrl, now, norm).Parsed? && Screen(e, feedUrl, now, norm).article.pubDate == now
  {
  }

  /** A missing summary becomes the empty string; a missing image is no
      reason to reject. */
  lemma SummaryAndImageOptional(e: Entry, feedUrl: string, now: int, norm: Normalizer)
    requires Screen(e, feedUrl, now, norm).Parsed?
    ensures e.summary.None? ==> Screen(e, feedUrl, now, norm).article.summary == ""
    ensures Screen(e, feedUrl, now, norm).article.imageUrl == ImageUrl(e)
  {
  }

  /** Item `i` is the first image-typed item of `rs`. */
  predicate FirstImageAt(rs: seq<Resource>, i: int) {
    0 <= i < |rs| && IsImageType(rs[i].mimeType) &&
    forall j :: 0 <= j < i ==> !IsImageType(rs[j].mimeType)
  }

  predicate NoImageItem(rs: seq<Resource>) {
    forall j :: 0 <= j < |rs| ==> !IsImageType(rs[j].mimeType)
  }

  lemma {:induction false} FirstImageFound(rs: seq<Resource>, i: int)
    requires FirstImageAt(rs, i)
    ensures FirstImage(rs) == Some(rs[i])
  {
    if i > 0 {
      assert !IsImageType(rs[0].mimeType);
      FirstImageFound(rs[1..], i - 1);
    }
  }

  lemma {:induction false} FirstImageNone(rs: seq<Resource>)
    requires NoImageItem(rs)
    ensures FirstImage(rs) == None
  {
    if rs != [] {
      FirstImageNone(rs[1..]);
    }
  }

  /** The first image-typed media item, when it has an address, beats every
      thumbnail and link. */
  lemma MediaImageWins(e: Entry, i: int)
    requires FirstImageAt(e.mediaContent, i) && Truthy(e.mediaContent[i].location)
    ensures ImageUrl(e) == e.mediaContent[i].location
  {
    FirstImageFound(e.mediaContent, i);
  }

  /** Without an image-typed media item, the first thumbnail's address is
      used when it is non-empty. */
  lemma ThumbnailSecond(e: Entry)
    requires NoImageItem(e.mediaContent)
    requires |e.thumbnails| > 0 && Truthy(e.thumbnails[0].url)
    ensures ImageUrl(e) == e.thumbnails[0].url
  {
    FirstImageNone(e.mediaContent);
  }

  /** The media search stops at the first image-typed item even when it has
      no address: later media items are never looked at, and the
      thumbnail takes over. */
  lemma MediaWithoutUrlStopsSearch(e: Entry, i: int)
    requires FirstImageAt(e.mediaContent, i) && !Truthy(e.mediaContent[i].location)
    requires |e.thumbnails| > 0 && Truthy(e.thumbnails[0].url)
    ensures ImageUrl(e) == e.thumbnails[0].url
  {
    FirstImageFound(e.mediaContent, i);
  }

  /** When media content gave no usable address (no image-typed item, or
      a first image-typed item without one) and no thumbnail address
      either, the first image-typed link supplies the image. */
  lemma ImageLinkLast(e: Entry, k: int)
    requires !Truthy(MediaChoice(e))
    requires |e.thumbnails| == 0 || !Truthy(e.thumbnails[0].url)
    requires FirstImageAt(e.links, k)
    ensures ImageUrl(e) == e.links[k].location
  {
    FirstImageFound(e.links, k);
  }

  /** With no image source at all the article has no image, and that is
      not a rejection. */
  lemma NoImageSource(e: Entry)
    requires NoImageItem(e.mediaContent) && |e.thumbnails| == 0 && NoImageItem(e.links)
    ensures ImageUrl(e) == None
  {
    FirstImageNone(e.mediaContent);
    FirstImageNone(e.links);
  }

  // ---------------------------------------------------------------------
  // One feed

  /** The article an outcome contributes, if its id is not yet published. */
  function Admit(o: ParseOutcome, published: set<string>): seq<Article> {
    if o.Parsed? && o.article.id !in published then [o.article] else []
  }

  /** The articles `fetch_feed`'s loop keeps from `entries`, in order. */
  function Admitted(entries: seq<Entry>, feedUrl: string, run: Run): seq<Article> {
    if entries == [] then []
    else
      Admitted(entries[..|entries| - 1], feedUrl, run)
        + Admit(Screen(entries[|entries| - 1], feedUrl, run.now, run.norm), run.published)
  }

  /** `fetch_feed(feed_url)`: only the first `ARTICLES_PER_FEED` entries. */
  function FeedArticles(entries: seq<Entry>, feedUrl: string, run: Run): seq<Article> {
    Admitted(Take(entries, run.perFeed), feedUrl, run)
  }

  /** Admission of a longer run of entries is admission of its parts, in
      order. */
  lemma {:induction false} AdmittedAppend(a: seq<Entry>, b: seq<Entry>, feedUrl: string, run: Run)
    ensures Admitted(a + b, feedUrl, run) == Admitted(a, feedUrl, run) + Admitted(b, feedUrl, run)
    decreases |b|
  {
    if b == [] {
      assert a + b == a;
    } else {
      var b' := b[..|b| - 1];
      assert (a + b)[..|a + b| - 1] == a + b';
      AdmittedAppend(a, b', feedUrl, run);
    }
  }

  /** Every admitted article comes from an entry that parses to it, is not
      yet published and is fresh. */
  lemma {:induction false} AdmittedSound(entries: seq<Entry>, feedUrl: string, run: Run, x: Article)
    requires x in Admitted(entries, feedUrl, run)
    ensures exists i :: 0 <= i < |entries| && Screen(entries[i], feedUrl, run.now, run.norm) == Parsed(x)
    ensures x.id !in run.published && run.now - x.pubDate <= FreshnessWindow && x.source == feedUrl
  {
    var n := |entries|;
    var front := entries[..n - 1];
    if x in Admitted(front, feedUrl, run) {
      AdmittedSound(front, feedUrl, run, x);
      var i :| 0 <= i < |front| && Screen(front[i], feedUrl, run.now, run.norm) == Parsed(x);
      assert entries[i] == front[i];
    } else {
      assert Screen(entries[n - 1], feedUrl, run.now, run.norm) == Parsed(x);
    }
  }

  /** Every entry that parses to an article whose id is not yet published
      is admitted. */
  lemma {:induction false} AdmittedComplete(entries: seq<Entry>, feedUrl: string, run: Run, i: int)
    requires 0 <= i < |entries|
    requires Screen(entries[i], feedUrl, run.now, run.norm).Parsed?
    requires Screen(entries[i], feedUrl, run.now, run.norm).article.id !in run.published
    ensures Screen(entries[i], feedUrl, run.now, run.norm).article in Admitted(entries, feedUrl, run)
  {
    var n := |entries|;
    if i < n - 1 {
      assert entries[..n - 1][i] == entries[i];
      AdmittedComplete(entries[..n - 1], feedUrl, run, i);
    }
  }

  lemma {:induction false} AdmittedLength(entries: seq<Entry>, feedUrl: string, run: Run)
    ensures |Admitted(entries, feedUrl, run)| <= |entries|
  {
    if entries != [] {
      AdmittedLength(entries[..|entries| - 1], feedUrl, run);
    }
  }

  /** Entries past `ARTICLES_PER_FEED` are never looked at. */
  lemma EntriesPastLimitIgnored(entries: seq<Entry>, more: seq<Entry>, feedUrl: string, run: Run)
    requires |entries| >= run.perFeed
    ensures FeedArticles(entries + more, feedUrl, run) == FeedArticles(entries, feedUrl, run)
  {
    assert Take(entries + more, run.perFeed) == Take(entries, run.perFeed);
  }

  /** `fetch_feed`'s loop over the first `ARTICLES_PER_FEED` entries. */
  method FetchFeed(entries: seq<Entry>, feedUrl: string, run: Run) returns (articles: seq<Article>)
    ensures articles == FeedArticles(entries, feedUrl, run)
    ensures |articles| <= run.perFeed
    ensures forall x :: x in articles ==>
      x.id !in run.published && x.source == feedUrl && run.now - x.pubDate <= FreshnessWindow
  {
    var window := Take(entries, run.perFeed);
    articles := [];
    var i := 0;
    while i < |window|
      invariant 0 <= i <= |window|
      invariant articles == Admitted(window[..i], feedUrl, run)
    {
      var outcome := ParseEntry(window[i], feedUrl, run.now, run.norm);
      if outcome.Parsed? && outcome.article.id !in run.published {
        articles := articles + [outcome.article];
      }
      assert window[..i + 1][..i] == window[..i];
      i := i + 1;
    }
    assert window[..i] == window;
    AdmittedLength(window, feedUrl, run);
    forall x | x in articles
      ensures x.id !in run.published && x.source == feedUrl && run.now - x.pubDate <= FreshnessWindow
    {
      AdmittedSound(window, feedUrl, run, x);
    }
  }

  // ---------------------------------------------------------------------
  // All feeds

  /** What one feed adds: nothing when `fetch_feed` raised. */
  function Contribution(f: FeedFetch, run: Run): seq<Article> {
    match f.entries
    case None => []
    case Some(entries) => FeedArticles(entries, f.url, run)
  }

  /** `fetch_articles()`: the feeds' contributions in `RSS_FEEDS` order. */
  function AllArticles(feeds: seq<FeedFetch>, run: Run): seq<Article> {
    if feeds == [] then []
    else AllArticles(feeds[..|feeds| - 1], run) + Contribution(feeds[|feeds| - 1], run)
  }

  lemma {:induction false} AllArticlesAppend(a: seq<FeedFetch>, b: seq<FeedFetch>, run: Run)
    ensures AllArticles(a + b, run) == AllArticles(a, run) + AllArticles(b, run)
    decreases |b|
  {
    if b == [] {
      assert a + b == a;
    } else {
      var b', last := b[..|b| - 1], b[|b| - 1];
      assert (a + b)[..|a + b| - 1] == a + b';
      assert (a + b)[|a + b| - 1] == last;
      AllArticlesAppend(a, b', run);
      calc {
        AllArticles(a + b, run);
        AllArticles(a + b', run) + Contribution(last, run);
        AllArticles(a, run) + AllArticles(b', run) + Contribution(last, run);
      }
    }
  }

  /** A feed that raised adds nothing and does not stop the feeds after
      it. */
  lemma FailedFeedSkipped(a: seq<FeedFetch>, f: FeedFetch, b: seq<FeedFetch>, run: Run)
    requires f.entries.None?
    ensures AllArticles(a + [f] + b, run) == AllArticles(a, run) + AllArticles(b, run)
  {
    assert [f][..0] == [] && [f][0] == f;
    assert AllArticles([f], run) == [];
    AllArticlesAppend(a + [f], b, run);
    AllArticlesAppend(a, [f], run);
    assert AllArticles(a + [f], run) == AllArticles(a, run);
  }

  /** Nothing a run collects was published before it, and all of it is
      fresh. */
  lemma {:induction false} AllArticlesUnpublished(feeds: seq<FeedFetch>, run: Run, x: Article)
    requires x in AllArticles(feeds, run)
    ensures x.id !in run.published && run.now - x.pubDate <= FreshnessWindow
    ensures exists k :: 0 <= k < |feeds| && x.source == feeds[k].url
  {
    var n := |feeds|;
    var last := feeds[n - 1];
    if x in AllArticles(feeds[..n - 1], run) {
      AllArticlesUnpublished(feeds[..n - 1], run, x);
      var k :| 0 <= k < n - 1 && x.source == feeds[..n - 1][k].url;
      assert feeds[k] == feeds[..n - 1][k];
    } else {
      AdmittedSound(Take(last.entries.value, run.perFeed), last.url, run, x);
    }
  }

  /** `fetch_articles()`: one `fetch_feed` per feed, skipping feeds that
      raised. */
  method FetchArticles(feeds: seq<FeedFetch>, run: Run) returns (articles: seq<Article>)
    ensures articles == AllArticles(feeds, run)
    ensures forall x :: x in articles ==> x.id !in run.published
  {
    articles := [];
    var k := 0;
    while k < |feeds|
      invariant 0 <= k <= |feeds|
      invariant articles == AllArticles(feeds[..k], run)
    {
      var f := feeds[k];
      if f.entries.Some? {
        var feedArticles := FetchFeed(f.entries.value, f.url, run);
        articles := articles + feedArticles;
      }
      assert feeds[..k + 1][..k] == feeds[..k];
      k := k + 1;
    }
    assert feeds[..k] == feeds;
    forall x | x in articles
      ensures x.id !in run.published
    {
      AllArticlesUnpublished(feeds, run, x);
    }
  }
}
