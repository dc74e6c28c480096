/** Posting to the channel (hot_news_bot/publisher.py): the message text
    of an article, its inline keyboard, the choice between a photo post
    and a text post, and the records written after a post goes out.

    `escape_html` belongs to the utils module, which is not part of this
    model; it is a given function, and the markup properties below hold
    for any escaper whose output contains no `<` and no `>`. The bot API,
    the image HEAD request and the store's failures are inputs. */
module Publisher {
  import opened Common
  import opened RssParser
  import opened Store

  // ---------------------------------------------------------------------
  // Message text

  const BoldOpen: string := "<b>"
  const BoldClose: string := "</b>"

  /** `format_message(article)`: the escaped title in bold, a blank line,
      the escaped summary. */
  function FormatMessage(a: Article, escape: string -> string): string {
    BoldOpen + escape(a.title) + BoldClose + "\n\n" + escape(a.summary)
  }

  /** The first position of `c` in `s`. */
  function IndexOf(s: string, c: char): (r: Option<nat>)
    ensures r.Some? ==> r.value < |s| && s[r.value] == c && c !in s[..r.value]
    ensures r.None? ==> c !in s
  {
    if s == [] then None
    else if s[0] == c then Some(0)
    else
      match IndexOf(s[1..], c)
      case None => None
      case Some(k) =>
        assert s[..k + 1] == [s[0]] + s[1..][..k];
        Some(k + 1)
  }

  /** Reads a message back into its title part and its summary part: the
      title runs from after `<b>` up to the first `<`. */
  function ReadMessage(m: string): Option<(string, string)> {
    if !StartsWith(m, BoldOpen) then None
    else
      match IndexOf(m[3..], '<')
      case None => None
      case Some(k) =>
        if StartsWith(m[3 + k..], BoldClose + "\n\n") then Some((m[3..3 + k], m[3 + k + 6..])) else None
  }

  /** The first `c` of `t + rest` is the head of `rest` when `t` has none. */
  lemma {:induction false} IndexOfAfter(t: string, rest: string, c: char)
    requires c !in t && |rest| > 0 && rest[0] == c
    ensures IndexOf(t + rest, c) == Some(|t|)
  {
    if t != [] {
      assert (t + rest)[1..] == t[1..] + rest;
      IndexOfAfter(t[1..], rest, c);
    }
  }

  /** The text after the title: the closing tag, a blank line, the summary. */
  lemma {:induction false} ReadAfterTitle(t: string, s: string)
    requires '<' !in t
    ensures IndexOf(t + (BoldClose + "\n\n" + s), '<') == Some(|t|)
    ensures StartsWith((t + (BoldClose + "\n\n" + s))[|t|..], BoldClose + "\n\n")
  {
    var rest := BoldClose + "\n\n" + s;
    IndexOfAfter(t, rest, '<');
    assert (t + rest)[|t|..] == rest;
    assert rest[..6] == BoldClose + "\n\n";
  }

  /** With an escaper that leaves no `<` in the title, the message splits
      back into exactly the escaped title and the escaped summary: the
      article's text reaches the message only through the escaper. */
  lemma ReadFormattedMessage(a: Article, escape: string -> string)
    requires '<' !in escape(a.title)
    ensures ReadMessage(FormatMessage(a, escape)) == Some((escape(a.title), escape(a.summary)))
  {
    var t, s := escape(a.title), escape(a.summary);
    var body := t + (BoldClose + "\n\n" + s);
    var m := FormatMessage(a, escape);
    assert m == BoldOpen + body;
    assert m[..3] == BoldOpen;
    assert m[3..] == body;
    ReadAfterTitle(t, s);
    assert m[3 + |t|..] == body[|t|..];
    assert m[3..3 + |t|] == t;
    assert m[3 + |t| + 6..] == s;
  }

  /** With an escaper that leaves no `<` or `>` anywhere, the only angle
      brackets in the message are those of the fixed `<b>` and `</b>`. */
  lemma OnlyBoldMarkup(a: Article, escape: string -> string, i: int)
    requires '<' !in escape(a.title) && '>' !in escape(a.title)
    requires '<' !in escape(a.summary) && '>' !in escape(a.summary)
    requires 0 <= i < |FormatMessage(a, escape)|
    requires FormatMessage(a, escape)[i] == '<' || FormatMessage(a, escape)[i] == '>'
    ensures i == 0 || i == 2 || i == |escape(a.title)| + 3 || i == |escape(a.title)| + 6
  {
    var t, s := escape(a.title), escape(a.summary);
    var m := FormatMessage(a, escape);
    assert m == "<b>" + t + "</b>\n\n" + s;
  }

  // ---------------------------------------------------------------------
  // Keyboard

  datatype Button = UrlButton(text: string, url: string) | CallbackButton(text: string, callbackData: string)

  datatype Reaction = Like | Dislike

  const ReadMoreLabel: string := "Читать полностью"
  const LikeLabel: string := "\U{1F44D}"
  const DislikeLabel: string := "\U{1F44E}"
  const LikePrefix: string := "like_"
  const DislikePrefix: string := "dislike_"

  /** `f"like_{id}"` / `f"dislike_{id}"` */
  function CallbackData(r: Reaction, articleId: string): string {
    match r
    case Like => LikePrefix + articleId
    case Dislike => DislikePrefix + articleId
  }

  /** Reads a button's callback data back into a reaction and an id. */
  function ParseCallback(data: string): Option<(Reaction, string)> {
    if StartsWith(data, LikePrefix) then Some((Like, data[|LikePrefix|..]))
    else if StartsWith(data, DislikePrefix) then Some((Dislike, data[|DislikePrefix|..]))
    else None
  }

  /** Stripping the prefix recovers the reaction and the article id
      exactly, for every id. */
  lemma CallbackRoundTrip(r: Reaction, articleId: string)
    ensures ParseCallback(CallbackData(r, articleId)) == Some((r, articleId))
  {
    var d := CallbackData(r, articleId);
    if r == Dislike {
      assert d[0] == 'd' != LikePrefix[0];
      assert !StartsWith(d, LikePrefix);
      assert d[..|DislikePrefix|] == DislikePrefix;
    } else {
      assert d[..|LikePrefix|] == LikePrefix;
    }
    assert d[|CallbackData(r, "")|..] == articleId;
  }

  /** Every readable callback data is the data of exactly one button. */
  lemma CallbackDataDetermined(data: string)
    requires ParseCallback(data).Some?
    ensures CallbackData(ParseCallback(data).value.0, ParseCallback(data).value.1) == data
  {
    if StartsWith(data, LikePrefix) {
      assert data == data[..|LikePrefix|] + data[|LikePrefix|..];
    } else {
      assert data == data[..|DislikePrefix|] + data[|DislikePrefix|..];
    }
  }

  /** `create_article_keyboard(article)`: a "read more" row, then a like
      row whose callback data name the article. */
  function CreateArticleKeyboard(a: Article): (rows: seq<seq<Button>>)
    ensures |rows| == 2 && |rows[0]| == 1 && |rows[1]| == 2
    ensures rows[0][0] == UrlButton(ReadMoreLabel, a.link)
    ensures rows[1][0].CallbackButton? && rows[1][1].CallbackButton?
    ensures ParseCallback(rows[1][0].callbackData) == Some((Like, a.id))
    ensures ParseCallback(rows[1][1].callbackData) == Some((Dislike, a.id))
  {
    CallbackRoundTrip(Like, a.id);
    CallbackRoundTrip(Dislike, a.id);
    [[UrlButton(ReadMoreLabel, a.link)],
     [CallbackButton(LikeLabel, CallbackData(Like, a.id)), CallbackButton(DislikeLabel, CallbackData(Dislike, a.id))]]
  }

  // ---------------------------------------------------------------------
  // Sending

  /** The outcome of `requests.head(image_url)`: a status code, or a
      `RequestException`. */
  datatype HeadResult = HeadStatus(code: int) | HeadError

  /** What one bot send call does: it returns a message with an id, or it
      raises an exception of the `requests` family (a connection error or
      a timeout), or some other exception (an API error). */
  datatype SendOutcome = Delivered(messageId: int) | RequestFailure | OtherFailure

  datatype Delivery = AsPhoto(photo: string) | AsText

  /** A post as the channel receives it (HTML parse mode throughout; text
      posts without link preview). */
  datatype Post = PhotoPost(chatId: string, photo: string, caption: string) | TextPost(chatId: string, text: string)

  /** How the first send goes out: a photo only for a non-empty image
      address whose HEAD request answered 200. */
  function ChooseDelivery(imageUrl: Option<string>, head: HeadResult): (d: Delivery)
    ensures d.AsPhoto? <==> Truthy(imageUrl) && head == HeadStatus(200)
    ensures d.AsPhoto? ==> imageUrl == Some(d.photo)
  {
    if Truthy(imageUrl) then
      (match head
       case HeadStatus(code) => if code == 200 then AsPhoto(imageUrl.value) else AsText
       case HeadError => AsText)
    else AsText
  }

  function MakePost(chatId: string, d: Delivery, message: string): Post {
    match d
    case AsPhoto(url) => PhotoPost(chatId, url, message)
    case AsText => TextPost(chatId, message)
  }

  /** The first send raised a `requests` exception inside the block that
      guards the image post, so the message is sent again as text: only
      with an image address, and only once the HEAD request answered. */
  predicate FallsBack(imageUrl: Option<string>, head: HeadResult, first: SendOutcome) {
    Truthy(imageUrl) && head.HeadStatus? && first == RequestFailure
  }

  /** Which post, if any, reached the channel, and its message id: the
      first send when it delivered, else the text resend when there is one
      and it delivered. `second` is consulted only for the resend. */
  function Posted(imageUrl: Option<string>, head: HeadResult, first: SendOutcome, second: SendOutcome): Option<(Delivery, int)> {
    if first.Delivered? then Some((ChooseDelivery(imageUrl, head), first.messageId))
    else if FallsBack(imageUrl, head, first) && second.Delivered? then Some((AsText, second.messageId))
    else None
  }

  /** A photo is posted only by a successful first send after a HEAD
      answer of 200; every other post, the resend included, is text. */
  lemma PhotoOnlyFirstAfterHeadOk(imageUrl: Option<string>, head: HeadResult, first: SendOutcome, second: SendOutcome)
    requires Posted(imageUrl, head, first, second).Some?
    ensures Posted(imageUrl, head, first, second).value.0.AsPhoto? <==>
      first.Delivered? && Truthy(imageUrl) && head == HeadStatus(200)
  {
  }

  /** After a `requests` failure of the first send, the article still goes
      out, as text, exactly when the resend delivers. Any failure without
      an image, after a failed HEAD request, or of another kind loses the
      post. */
  lemma ResendAfterRequestFailure(imageUrl: Option<string>, head: HeadResult, first: SendOutcome, second: SendOutcome)
    requires !first.Delivered?
    ensures Posted(imageUrl, head, first, second).Some? <==> FallsBack(imageUrl, head, first) && second.Delivered?
    ensures Posted(imageUrl, head, first, second).Some? ==>
      Posted(imageUrl, head, first, second).value == (AsText, second.messageId)
    ensures first.OtherFailure? || !Truthy(imageUrl) || head == HeadError ==> Posted(imageUrl, head, first, second).None?
  {
  }

  /** The channel's message history, as far as this bot adds to it. */
  class Channel {
    var posts: seq<Post>

    constructor ()
      ensures posts == []
    {
      posts := [];
    }

    /** `bot.send_photo` / `bot.send_message`: the post reaches the channel
        exactly when the call returns; `outcome` is what the call does. */
    method Send(post: Post, outcome: SendOutcome) returns (result: SendOutcome)
      modifies this
      ensures result == outcome
      ensures posts == old(posts) + (if outcome.Delivered? then [post] else [])
    {
      if outcome.Delivered? {
        posts := posts + [post];
      }
      result := outcome;
    }
  }

  /** `publish_to_telegram(bot, article, channel_id)`. `head` is what the
      HEAD request gives (consulted only when there is an image), `first`
      what the first send call does and `second` what the text resend does
      (consulted only when it happens), `now` the Moscow time of the post,
      and `statsRaise` / `recordRaise` whether the two store writes raise.
      Any failure not caught by the image block returns `None`; the article
      is recorded as published only after its post went out and its
      statistics were logged. */
  method PublishToTelegram(channel: Channel, db: Database, chatId: string, a: Article,
                           escape: string -> string, head: HeadResult, first: SendOutcome, second: SendOutcome,
                           now: int, statsRaise: bool, recordRaise: bool)
    returns (messageId: Option<int>)
    modifies channel, db
    ensures var p := Posted(a.imageUrl, head, first, second);
      messageId == (if p.Some? && !statsRaise && !recordRaise then Some(p.value.1) else None)
    ensures var p := Posted(a.imageUrl, head, first, second);
      channel.posts == old(channel.posts) + (if p.Some? then [MakePost(chatId, p.value.0, FormatMessage(a, escape))] else [])
    ensures var p := Posted(a.imageUrl, head, first, second);
      db.stats == old(db.stats) + (if p.Some? && !statsRaise then [PostStat(p.value.1, now)] else [])
    ensures db.published == old(db.published) + (if messageId.Some? then [PublishedRecord(a.id, a.title, now)] else [])
    ensures messageId.Some? ==> a.id in db.PublishedIds()
    ensures db.events == old(db.events) && db.nextEventId == old(db.nextEventId)
  {
    var message := FormatMessage(a, escape);
    var result: SendOutcome;
    if Truthy(a.imageUrl) {
      match head {
        case HeadStatus(code) =>
          if code == 200 {
            result := channel.Send(PhotoPost(chatId, a.imageUrl.value, message), first);
          } else {
            result := channel.Send(TextPost(chatId, message), first);
          }
          if result == RequestFailure {
            result := channel.Send(TextPost(chatId, message), second);
          }
        case HeadError =>
          result := channel.Send(TextPost(chatId, message), first);
      }
    } else {
      result := channel.Send(TextPost(chatId, message), first);
    }
    if !result.Delivered? {
      return None;
    }
    if statsRaise {
      return None;
    }
    db.LogPostStats(result.messageId, now);
    if recordRaise {
      return None;
    }
    db.AddPublishedArticle(a.id, a.title, now);
    messageId := Some(result.messageId);
  }

  /** `publish_digest(bot, digest_text, channel_id)`: the digest goes out as
      one text post; the message id, or `None` when sending raised. */
  method PublishDigest(channel: Channel, chatId: string, digestText: string, sent: SendOutcome)
    returns (messageId: Option<int>)
    modifies channel
    ensures messageId == (if sent.Delivered? then Some(sent.messageId) else None)
    ensures channel.posts == old(channel.posts) + (if sent.Delivered? then [TextPost(chatId, digestText)] else [])
  {
    var result := channel.Send(TextPost(chatId, digestText), sent);
    messageId := if result.Delivered? then Some(result.messageId) else None;
  }

  /** An article recorded as published is never collected again: the
      next collection run, which looks its id up in the published-articles
      table, skips it. */
  lemma PublishedArticleNotCollectedAgain(db: Database, feeds: seq<FeedFetch>, run: Run, x: Article)
    requires run.published == db.PublishedIds()
    requires db.IsArticlePublished(x.id)
    ensures x !in AllArticles(feeds, run)
  {
    if x in AllArticles(feeds, run) {
      AllArticlesUnpublished(feeds, run, x);
    }
  }
}
