/** Premiere events (hot_news_bot/events.py): building event records from
    the listing blocks of the calendar page, refreshing the events table,
    matching today's events against an article's text, and rendering the
    events digest.

    Scraping the page is outside the model: each listing block is given as
    what the scraper finds in it (its nearest preceding heading, its title
    element and its cast entries, already stripped of surrounding
    whitespace). */
module Events {
  import opened Common
  import opened Calendar
  import opened Store

  /** A month and a day as `strptime(text, '%B %d')` reads them from a
      heading (month 1..12 from the month name, day 1..31 from the digits),
      before the calendar check. */
  datatype MonthDay = MonthDay(month: int, day: int)

  /** The nearest preceding `h3` of a block: missing, present but not in
      `%B %d` form, or read as a month and a day. */
  datatype Heading = NoHeading | Unreadable | MonthDayHeading(md: MonthDay)

  /** One listing block of the calendar page; `title` is `None` when the
      block has no title element. */
  datatype Listing = Listing(heading: Heading, title: Option<string>, stars: seq<string>)

  /** The event dictionary `fetch_upcoming_events` builds. */
  datatype UpcomingEvent = UpcomingEvent(name: string, date: Date, keywords: seq<string>)

  /** The record `get_relevant_events` returns for a matching row. */
  datatype RelevantEvent = RelevantEvent(id: int, name: string, date: Date, keywords: seq<string>)

  const PremierePrefix: string := "Премьера: "

  /** The domain words every event carries after its cast and title. */
  const FixedKeywords: seq<string> := ["премьера", "фильм", "сериал"]

  /** `clear_old_data(days=30)` */
  const RetentionDays: nat := 30

  /** The year `strptime` fills in when the format has none. */
  const StrptimeDefaultYear: int := 1900

  // ---------------------------------------------------------------------
  // Event records

  /** The event's date as the source computes it: `strptime` checks the
      month and day against its default year 1900, and `.replace` then
      moves the date to the current year. */
  function ListingDateAsWritten(md: MonthDay, year: int): (r: Option<Date>)
    ensures r.Some? <==> ValidDate(StrptimeDefaultYear, md.month, md.day) && ValidDate(year, md.month, md.day)
    ensures r.Some? ==> ValidDate(year, md.month, md.day) && r.value == Date(year, md.month, md.day)
  {
    if ValidDate(StrptimeDefaultYear, md.month, md.day) && ValidDate(year, md.month, md.day) then
      Some(Date(year, md.month, md.day))
    else
      None
  }

  /** The event's date as evidently intended: the month and day checked
      against the year the event is placed in. */
  function ListingDate(md: MonthDay, year: int): (r: Option<Date>)
    ensures r.Some? <==> ValidDate(year, md.month, md.day)
    ensures r.Some? ==> r.value == Date(year, md.month, md.day)
  {
    if ValidDate(year, md.month, md.day) then Some(Date(year, md.month, md.day)) else None
  }

  /** As written, a heading "February 29" is refused in every year, leap
      years included, because 1900 was not one; the corrected date keeps
      it in a leap year such as 2028. */
  lemma LeapDayDroppedAsWritten(year: int)
    ensures ListingDateAsWritten(MonthDay(2, 29), year) == None
    ensures IsLeapYear(year) && 1 <= year <= 9999 ==> ListingDate(MonthDay(2, 29), year) == Some(Date(year, 2, 29))
    ensures ListingDate(MonthDay(2, 29), 2028) == Some(Date(2028, 2, 29))
  {
    assert !IsLeapYear(StrptimeDefaultYear);
    assert IsLeapYear(2028);
  }

  /** February 29 is the only day on which the two readings differ. */
  lemma ListingDateDiffersOnlyOnLeapDay(md: MonthDay, year: int)
    requires md != MonthDay(2, 29)
    ensures ListingDateAsWritten(md, year) == ListingDate(md, year)
  {
    if ValidDate(year, md.month, md.day) && 1 <= md.month <= 12 {
      assert DaysInMonth(StrptimeDefaultYear, md.month) == DaysInMonth(year, md.month) || md.month == 2;
    }
  }

  /** The cast line of an event: `keywords[:-3]`. */
  function Cast(ev: UpcomingEvent): seq<string> {
    DropLast(ev.keywords, |FixedKeywords|)
  }

  /** One block of `fetch_upcoming_events`'s loop: `None` when the block
      has no heading (skipped) or raises (bad date, no title element). */
  function BuildEvent(l: Listing, year: int): (r: Option<UpcomingEvent>)
    ensures r.Some? <==> l.heading.MonthDayHeading? && ListingDate(l.heading.md, year).Some? && l.title.Some?
    ensures r.Some? ==> r.value.date == Date(year, l.heading.md.month, l.heading.md.day)
    ensures r.Some? ==> l.title.Some? && r.value.name == PremierePrefix + l.title.value
    ensures r.Some? ==> |r.value.keywords| >= 4 && Cast(r.value) == l.stars + [l.title.value]
    ensures r.Some? ==> r.value.keywords[|r.value.keywords| - 3..] == FixedKeywords
    ensures r.Some? ==> ValidDate(r.value.date.year, r.value.date.month, r.value.date.day) && r.value.date.year == year
  {
    match l.heading
    case NoHeading => None
    case Unreadable => None
    case MonthDayHeading(md) =>
      match ListingDate(md, year)
      case None => None
      case Some(d) =>
        match l.title
        case None => None
        case Some(t) =>
          var keywords := l.stars + [t] + FixedKeywords;
          assert keywords[..|keywords| - 3] == l.stars + [t];
          Some(UpcomingEvent(PremierePrefix + t, d, keywords))
  }

  /** The events built from the blocks, in page order. */
  function UpcomingEvents(listings: seq<Listing>, year: int): seq<UpcomingEvent> {
    if listings == [] then []
    else
      var last := listings[|listings| - 1];
      UpcomingEvents(listings[..|listings| - 1], year)
        + (match BuildEvent(last, year) case Some(ev) => [ev] case None => [])
  }

  /** `fetch_upcoming_events()`: no events when the page could not be
      fetched. */
  function FetchedEvents(page: Option<seq<Listing>>, year: int): seq<UpcomingEvent> {
    match page
    case None => []
    case Some(listings) => UpcomingEvents(listings, year)
  }

  predicate WellFormed(ev: UpcomingEvent) {
    |ev.keywords| >= 4 && ValidDate(ev.date.year, ev.date.month, ev.date.day)
  }

  lemma {:induction false} UpcomingEventsAppend(a: seq<Listing>, b: seq<Listing>, year: int)
    ensures UpcomingEvents(a + b, year) == UpcomingEvents(a, year) + UpcomingEvents(b, year)
    decreases |b|
  {
    if b == [] {
      assert a + b == a;
    } else {
      var b', last := b[..|b| - 1], b[|b| - 1];
      assert (a + b)[..|a + b| - 1] == a + b';
      assert (a + b)[|a + b| - 1] == last;
      UpcomingEventsAppend(a, b', year);
    }
  }

  /** A block that is skipped or raises leaves the blocks around it
      untouched. */
  lemma BadListingIsolated(a: seq<Listing>, l: Listing, b: seq<Listing>, year: int)
    requires BuildEvent(l, year).None?
    ensures UpcomingEvents(a + [l] + b, year) == UpcomingEvents(a, year) + UpcomingEvents(b, year)
  {
    assert [l][..0] == [] && [l][0] == l;
    assert UpcomingEvents([l], year) == [];
    UpcomingEventsAppend(a + [l], b, year);
    UpcomingEventsAppend(a, [l], year);
  }

  /** Every extracted event has a valid date and a keyword list that is
      never empty. */
  lemma {:induction false} UpcomingEventsWellFormed(listings: seq<Listing>, year: int, ev: UpcomingEvent)
    requires ev in UpcomingEvents(listings, year)
    ensures WellFormed(ev) && ev.date.year == year
  {
    var n := |listings|;
    if ev !in UpcomingEvents(listings[..n - 1], year) {
      assert BuildEvent(listings[n - 1], year) == Some(ev);
    } else {
      UpcomingEventsWellFormed(listings[..n - 1], year, ev);
    }
  }

  /** `fetch_upcoming_events()`'s loop over the page's blocks. */
  method FetchUpcomingEvents(page: Option<seq<Listing>>, year: int) returns (events: seq<UpcomingEvent>)
    ensures events == FetchedEvents(page, year)
    ensures forall ev :: ev in events ==> WellFormed(ev)
  {
    events := [];
    if page.None? {
      return;
    }
    var listings := page.value;
    var i := 0;
    while i < |listings|
      invariant 0 <= i <= |listings|
      invariant events == UpcomingEvents(listings[..i], year)
    {
      var built := BuildEvent(listings[i], year);
      if built.Some? {
        events := events + [built.value];
      }
      assert listings[..i + 1][..i] == listings[..i];
      i := i + 1;
    }
    assert listings[..i] == listings;
    forall ev | ev in events
      ensures WellFormed(ev)
    {
      UpcomingEventsWellFormed(listings, year, ev);
    }
  }

  // ---------------------------------------------------------------------
  // Refreshing the events table

  /** The rows `add_event` appends for `events`, ids counting up from
      `firstId`. */
  function StoredRows(events: seq<UpcomingEvent>, firstId: int): seq<EventRow> {
    if events == [] then []
    else
      var n := |events|;
      StoredRows(events[..n - 1], firstId)
        + [EventRow(firstId + n - 1, events[n - 1].name, events[n - 1].date, Join(events[n - 1].keywords, [KeywordSeparator]))]
  }

  /** `update_events()`: purge first, then insert the fetched events in
      page order. Because the purge comes first, every fetched event is in
      the table afterwards, whatever its date. */
  method UpdateEvents(db: Database, today: Date, page: Option<seq<Listing>>, year: int)
    modifies db
    ensures db.events == Purge(old(db.events), today, RetentionDays)
                         + StoredRows(FetchedEvents(page, year), old(db.nextEventId))
    ensures db.nextEventId == old(db.nextEventId) + |FetchedEvents(page, year)|
    ensures db.published == old(db.published) && db.stats == old(db.stats)
  {
    db.ClearOldData(today, RetentionDays);
    var fetched := FetchUpcomingEvents(page, year);
    ghost var purged := db.events;
    var i := 0;
    while i < |fetched|
      invariant 0 <= i <= |fetched|
      invariant db.events == purged + StoredRows(fetched[..i], old(db.nextEventId))
      invariant db.nextEventId == old(db.nextEventId) + i
      invariant db.published == old(db.published) && db.stats == old(db.stats)
    {
      db.AddEvent(fetched[i].name, fetched[i].date, fetched[i].keywords);
      assert fetched[..i + 1][..i] == fetched[..i];
      i := i + 1;
    }
    assert fetched[..i] == fetched;
  }

  // ---------------------------------------------------------------------
  // Relevance

  /** Some keyword, lowercased, occurs in the lowercased text. */
  predicate Mentions(text: string, keywords: seq<string>) {
    exists k :: k in keywords && Contains(Lower(text), Lower(k))
  }

  /** The keyword list of a row, as `split(',')` yields it. */
  function RowKeywords(row: EventRow): seq<string> {
    Split(row.keywords, KeywordSeparator)
  }

  function AsRelevant(row: EventRow): RelevantEvent {
    RelevantEvent(row.id, row.name, row.date, RowKeywords(row))
  }

  /** The records `get_relevant_events` returns for `rows`, in row order. */
  function Relevant(rows: seq<EventRow>, text: string): seq<RelevantEvent> {
    if rows == [] then []
    else
      var last := rows[|rows| - 1];
      Relevant(rows[..|rows| - 1], text) + (if Mentions(text, RowKeywords(last)) then [AsRelevant(last)] else [])
  }

  /** `get_relevant_events(article_content)`: today's rows are read from
      the events table, then matched one by one. */
  method GetRelevantEvents(db: Database, today: Date, content: string) returns (relevant: seq<RelevantEvent>)
    ensures relevant == Relevant(db.TodayEvents(today), content)
    ensures |relevant| <= |db.TodayEvents(today)|
  {
    var todayRows := db.TodayEvents(today);
    relevant := [];
    var i := 0;
    while i < |todayRows|
      invariant 0 <= i <= |todayRows|
      invariant relevant == Relevant(todayRows[..i], content)
      invariant |relevant| <= i
    {
      var row := todayRows[i];
      var keywords := Split(row.keywords, KeywordSeparator);
      if Mentions(content, keywords) {
        relevant := relevant + [RelevantEvent(row.id, row.name, row.date, keywords)];
      }
      assert todayRows[..i + 1][..i] == todayRows[..i];
      i := i + 1;
    }
    assert todayRows[..i] == todayRows;
  }

  /** Matching a longer run of rows is matching its parts, in order: no
      ranking, no reordering. */
  lemma {:induction false} RelevantAppend(a: seq<EventRow>, b: seq<EventRow>, text: string)
    ensures Relevant(a + b, text) == Relevant(a, text) + Relevant(b, text)
    decreases |b|
  {
    if b == [] {
      assert a + b == a;
    } else {
      var b', last := b[..|b| - 1], b[|b| - 1];
      assert (a + b)[..|a + b| - 1] == a + b';
      assert (a + b)[|a + b| - 1] == last;
      RelevantAppend(a, b', text);
    }
  }

  /** A record is returned exactly when some row mentioned in the text
      produced it, with that row's id, name and date unchanged and its
      split keyword list. */
  lemma {:induction false} RelevantMembership(rows: seq<EventRow>, text: string, x: RelevantEvent)
    ensures x in Relevant(rows, text) <==>
      exists i :: 0 <= i < |rows| && Mentions(text, RowKeywords(rows[i])) && x == AsRelevant(rows[i])
  {
    if rows != [] {
      var n := |rows|;
      var front := rows[..n - 1];
      RelevantMembership(front, text, x);
      if exists i :: 0 <= i < |front| && Mentions(text, RowKeywords(front[i])) && x == AsRelevant(front[i]) {
        var i :| 0 <= i < |front| && Mentions(text, RowKeywords(front[i])) && x == AsRelevant(front[i]);
        assert rows[i] == front[i];
      }
      if exists i :: 0 <= i < n && Mentions(text, RowKeywords(rows[i])) && x == AsRelevant(rows[i]) {
        var i :| 0 <= i < n && Mentions(text, RowKeywords(rows[i])) && x == AsRelevant(rows[i]);
        if i < n - 1 {
          assert front[i] == rows[i];
        }
      }
    }
  }

  /** Every record returned for today's query names an event of the table
      dated today, carried over unchanged. */
  lemma RelevantAreToday(rows: seq<EventRow>, today: Date, text: string, x: RelevantEvent)
    requires x in Relevant(RowsOn(rows, today), text)
    ensures x.date == today
    ensures exists r :: r in rows && r.date == today && Mentions(text, RowKeywords(r)) && x == AsRelevant(r)
  {
    RelevantMembership(RowsOn(rows, today), text, x);
    var i :| 0 <= i < |RowsOn(rows, today)| && Mentions(text, RowKeywords(RowsOn(rows, today)[i])) && x == AsRelevant(RowsOn(rows, today)[i]);
    RowsOnMembership(rows, today, RowsOn(rows, today)[i]);
  }

  /** With every keyword non-empty, an empty text matches no event. */
  lemma {:induction false} EmptyTextMatchesNothing(rows: seq<EventRow>)
    requires forall i :: 0 <= i < |rows| ==> "" !in RowKeywords(rows[i])
    ensures Relevant(rows, "") == []
  {
    if rows != [] {
      var n := |rows|;
      EmptyTextMatchesNothing(rows[..n - 1]);
      forall k | k in RowKeywords(rows[n - 1])
        ensures !Contains(Lower(""), Lower(k))
      {
        assert k != "";
      }
    }
  }

  /** An empty keyword (from an empty cast entry, or a stray comma) occurs
      in every text, so such a row matches every article. */
  lemma EmptyKeywordMatchesAll(row: EventRow, text: string)
    requires "" in RowKeywords(row)
    ensures Mentions(text, RowKeywords(row))
  {
    assert OccursAt(Lower(text), Lower(""), 0);
  }

  /** Matching ignores the case of the text and of the keywords. */
  lemma MentionsIgnoresCase(text: string, keywords: seq<string>)
    ensures Mentions(Lower(text), keywords) <==> Mentions(text, keywords)
    ensures Mentions(text, seq(|keywords|, i requires 0 <= i < |keywords| => Lower(keywords[i]))) <==> Mentions(text, keywords)
  {
    LowerIdempotent(text);
    var lowered := seq(|keywords|, i requires 0 <= i < |keywords| => Lower(keywords[i]));
    if Mentions(text, keywords) {
      var k :| k in keywords && Contains(Lower(text), Lower(k));
      var i :| 0 <= i < |keywords| && keywords[i] == k;
      LowerIdempotent(k);
      assert lowered[i] in lowered;
    }
    if Mentions(text, lowered) {
      var k :| k in lowered && Contains(Lower(text), Lower(k));
      var i :| 0 <= i < |lowered| && lowered[i] == k;
      LowerIdempotent(keywords[i]);
      assert keywords[i] in keywords;
    }
  }

  /** A keyword written in mixed case is found in an upper-case headline. */
  lemma UpperCaseHeadlineMatches()
    ensures Mentions("Breaking: TOM HANKS visits", ["Tom Hanks"])
  {
    var text := "Breaking: TOM HANKS visits";
    assert Lower(text)[10..19] == "tom hanks";
    assert Lower("Tom Hanks") == "tom hanks";
    assert OccursAt(Lower(text), Lower("Tom Hanks"), 10);
  }

  /** The keywords a stored event comes back with are the ones it was
      stored with, provided none of them holds a comma. */
  lemma StoredKeywordsRoundTrip(ev: UpcomingEvent, id: int)
    requires |ev.keywords| >= 1
    requires forall k :: 0 <= k < |ev.keywords| ==> KeywordSeparator !in ev.keywords[k]
    ensures AsRelevant(EventRow(id, ev.name, ev.date, Join(ev.keywords, [KeywordSeparator]))).keywords == ev.keywords
  {
    SplitJoin(ev.keywords, KeywordSeparator);
  }

  // ---------------------------------------------------------------------
  // Digest

  const NoEventsMessage: string := "На ближайшее время " + "нет запланированных событий в мире знаменитостей."
  const Clapperboard: char := '\U{1F3AC}'
  const DigestHeader: string := [Clapperboard] + " Предстоящие премьеры и события в мире знаменитостей:\n\n"
  const DigestFooter: string := "\nСледите за обновлениями и не пропустите громкие премьеры! \U{1F37F}\U{1F3A5}"

  /** At most this many events are listed. */
  const DigestLimit: nat := 10

  /** The three lines of entry number `i`. */
  function DigestEntry(i: nat, ev: UpcomingEvent): string {
    NatToString(i) + ". <b>" + ev.name + "</b>\n"
      + "   \U{1F4C6} " + FormatDate(ev.date) + "\n"
      + "   \U{1F31F} В ролях: " + Join(Cast(ev), ", ") + "\n\n"
  }

  /** `render(first, items[0]) + render(first + 1, items[1]) + ...`:
      the shape of `enumerate(items, first)` feeding a string. */
  function Numbered<T>(items: seq<T>, first: nat, render: (nat, T) -> string): string {
    if items == [] then ""
    else
      var n := |items|;
      Numbered(items[..n - 1], first, render) + render(first + n - 1, items[n - 1])
  }

  /** Entries for `events`, numbered from `first`. */
  function Entries(events: seq<UpcomingEvent>, first: nat): string {
    Numbered(events, first, DigestEntry)
  }

  /** The digest text for the fetched events. */
  function Digest(events: seq<UpcomingEvent>): string {
    if events == [] then NoEventsMessage
    else DigestHeader + Entries(Take(events, DigestLimit), 1) + DigestFooter
  }

  /** Consecutive runs of items are numbered consecutively. */
  lemma {:induction false} NumberedAppend<T>(a: seq<T>, b: seq<T>, first: nat, render: (nat, T) -> string)
    ensures Numbered(a + b, first, render) == Numbered(a, first, render) + Numbered(b, first + |a|, render)
    decreases |b|
  {
    if b == [] {
      assert a + b == a;
    } else {
      var b', last := b[..|b| - 1], b[|b| - 1];
      assert (a + b)[..|a + b| - 1] == a + b';
      assert (a + b)[|a + b| - 1] == last;
      NumberedAppend(a, b', first, render);
    }
  }

  /** The `k`-th event (from 0) is shown as entry number `k + 1`, after the
      entries of the events before it. */
  lemma EntryNumbering(events: seq<UpcomingEvent>, k: int)
    requires 0 <= k < |events|
    ensures Entries(events, 1) ==
      Entries(events[..k], 1) + DigestEntry(k + 1, events[k]) + Entries(events[k + 1..], k + 2)
  {
    assert events == events[..k] + [events[k]] + events[k + 1..];
    NumberedAppend(events[..k] + [events[k]], events[k + 1..], 1, DigestEntry);
    NumberedAppend(events[..k], [events[k]], 1, DigestEntry);
    assert [events[k]][..0] == [];
  }

  /** The fixed message is given exactly when there are no events. */
  lemma DigestFixedMessageIffNoEvents(events: seq<UpcomingEvent>)
    ensures Digest(events) == NoEventsMessage <==> events == []
  {
    if events != [] {
      assert Digest(events)[0] == Clapperboard != NoEventsMessage[0];
    }
  }

  /** Events after the tenth do not change the digest. */
  lemma DigestShowsFirstTen(events: seq<UpcomingEvent>, more: seq<UpcomingEvent>)
    requires |events| >= DigestLimit
    ensures Digest(events + more) == Digest(events)
  {
    assert Take(events + more, DigestLimit) == Take(events, DigestLimit);
  }

  /** One more event adds one more entry, numbered after the others. */
  lemma EntriesStep(events: seq<UpcomingEvent>, i: int)
    requires 0 <= i < |events|
    ensures Entries(events[..i + 1], 1) == Entries(events[..i], 1) + DigestEntry(i + 1, events[i])
  {
    assert events[..i + 1][..i] == events[..i];
    assert events[..i + 1][i] == events[i];
  }

  /** `generate_events_digest()`. The entries are accumulated apart from
      the header, which is the same text in the same order. */
  method GenerateEventsDigest(page: Option<seq<Listing>>, year: int) returns (digest: string)
    ensures digest == Digest(FetchedEvents(page, year))
  {
    var upcoming := FetchUpcomingEvents(page, year);
    if |upcoming| == 0 {
      return NoEventsMessage;
    }
    var shown := Take(upcoming, DigestLimit);
    var entries := "";
    var i := 0;
    while i < |shown|
      invariant 0 <= i <= |shown|
      invariant entries == Entries(shown[..i], 1)
    {
      EntriesStep(shown, i);
      entries := entries + DigestEntry(i + 1, shown[i]);
      i := i + 1;
    }
    assert shown[..i] == shown;
    digest := DigestHeader + entries + DigestFooter;
  }
}
