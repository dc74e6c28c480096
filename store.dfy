/** The persistent store the bot talks to through its `database` module:
    the events table, the published-articles table and the post
    statistics table. Only the behaviour the core relies on is stated;
    how the rows reach disk is not modelled. */
module Store {
  import opened Common
  import opened Calendar

  /** A row of the events table; the keyword list is kept as one
      comma-joined string, which is why readers split it on `,`. */
  datatype EventRow = EventRow(id: int, name: string, date: Date, keywords: string)

  /** A row of the published-articles table: the deduplication record. */
  datatype PublishedRecord = PublishedRecord(articleId: string, title: string, publishedAt: int)

  /** A row of the post statistics table, written when a post goes out. */
  datatype PostStat = PostStat(messageId: int, postedAt: int)

  /** The separator the events table uses between keywords. */
  const KeywordSeparator: char := ','

  /** A row survives a purge run on `today` with a retention window of
      `days` unless its date lies more than `days` days back. */
  predicate Retained(row: EventRow, today: Date, days: nat) {
    DayNumber(today) - DayNumber(row.date) <= days
  }

  /** The events table after a purge: the retained rows, in table order. */
  function Purge(rows: seq<EventRow>, today: Date, days: nat): seq<EventRow> {
    if rows == [] then []
    else
      var last := rows[|rows| - 1];
      Purge(rows[..|rows| - 1], today, days) + (if Retained(last, today, days) then [last] else [])
  }

  /** The rows dated `day`, in table order. */
  function RowsOn(rows: seq<EventRow>, day: Date): seq<EventRow> {
    if rows == [] then []
    else
      var last := rows[|rows| - 1];
      RowsOn(rows[..|rows| - 1], day) + (if last.date == day then [last] else [])
  }

  /** A purge keeps exactly the rows within the retention window. */
  lemma {:induction false} PurgeMembership(rows: seq<EventRow>, today: Date, days: nat, row: EventRow)
    ensures row in Purge(rows, today, days) <==> row in rows && Retained(row, today, days)
  {
    if rows != [] {
      PurgeMembership(rows[..|rows| - 1], today, days, row);
      assert rows == rows[..|rows| - 1] + [rows[|rows| - 1]];
    }
  }

  /** A day's query returns exactly the rows dated that day. */
  lemma {:induction false} RowsOnMembership(rows: seq<EventRow>, day: Date, row: EventRow)
    ensures row in RowsOn(rows, day) <==> row in rows && row.date == day
  {
    if rows != [] {
      RowsOnMembership(rows[..|rows| - 1], day, row);
      assert rows == rows[..|rows| - 1] + [rows[|rows| - 1]];
    }
  }

  /** Once a row is purged, no later query for any day returns it, as long
      as nothing re-inserts it. */
  lemma PurgedNeverQueried(rows: seq<EventRow>, today: Date, days: nat, added: seq<EventRow>, row: EventRow, day: Date)
    requires row in rows && !Retained(row, today, days) && row !in added
    ensures row !in RowsOn(Purge(rows, today, days) + added, day)
  {
    PurgeMembership(rows, today, days, row);
    RowsOnMembership(Purge(rows, today, days) + added, day, row);
  }

  class Database {
    var events: seq<EventRow>
    var nextEventId: int
    var published: seq<PublishedRecord>
    var stats: seq<PostStat>

    constructor ()
      ensures events == [] && published == [] && stats == [] && nextEventId == 1
    {
      events, nextEventId, published, stats := [], 1, [], [];
    }

    /** The ids the published-articles table holds. */
    function PublishedIds(): set<string>
      reads this
    {
      set r | r in published :: r.articleId
    }

    /** `is_article_published(id)` */
    predicate IsArticlePublished(id: string)
      reads this
    {
      id in PublishedIds()
    }

    /** `get_today_events()`: today's rows in table order. */
    function TodayEvents(today: Date): seq<EventRow>
      reads this
    {
      RowsOn(events, today)
    }

    /** `clear_old_data(days)`: drops the events older than the window. */
    method ClearOldData(today: Date, days: nat)
      modifies this
      ensures events == Purge(old(events), today, days)
      ensures nextEventId == old(nextEventId)
      ensures published == old(published) && stats == old(stats)
    {
      events := Purge(events, today, days);
    }

    /** `add_event(name, date, keywords)`: appends a row with a fresh id and
        the keywords joined by the separator. */
    method AddEvent(name: string, date: Date, keywords: seq<string>)
      modifies this
      ensures events == old(events) + [EventRow(old(nextEventId), name, date, Join(keywords, [KeywordSeparator]))]
      ensures nextEventId == old(nextEventId) + 1
      ensures published == old(published) && stats == old(stats)
    {
      events := events + [EventRow(nextEventId, name, date, Join(keywords, [KeywordSeparator]))];
      nextEventId := nextEventId + 1;
    }

    /** `add_published_article(id, title, when)` */
    method AddPublishedArticle(articleId: string, title: string, when: int)
      modifies this
      ensures published == old(published) + [PublishedRecord(articleId, title, when)]
      ensures PublishedIds() == old(PublishedIds()) + {articleId}
      ensures events == old(events) && nextEventId == old(nextEventId) && stats == old(stats)
    {
      published := published + [PublishedRecord(articleId, title, when)];
      assert forall r :: r in published <==> r in old(published) || r == PublishedRecord(articleId, title, when);
    }

    /** `log_post_stats(message_id, when)` */
    method LogPostStats(messageId: int, when: int)
      modifies this
      ensures stats == old(stats) + [PostStat(messageId, when)]
      ensures events == old(events) && nextEventId == old(nextEventId) && published == old(published)
    {
      stats := stats + [PostStat(messageId, when)];
    }
  }
}
