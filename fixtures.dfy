/**
 * The repository's test fixtures as concrete tables, and what the model
 * computes on them.
 */
module Fixtures {
  import opened Wrappers
  import opened Calendar
  import opened Relational
  import opened Silver
  import opened TimestampFormats
  import Gold

  // ------------------------------------------- filters over short tables

  /** The rows a one-row filter keeps. */
  function Selected<T>(p: T -> bool, x: T): seq<T> {
    if p(x) then [x] else []
  }

  lemma FilterCons<T(!new)>(p: T -> bool, x: T, s: seq<T>)
    ensures Filter(p, [x] + s) == Selected(p, x) + Filter(p, s)
  {
    var t := [x] + s;
    assert t[0] == x && t[1..] == s;
    if !p(x) {
      assert Selected(p, x) + Filter(p, s) == Filter(p, s);
    }
  }

  lemma Filter1<T(!new)>(p: T -> bool, a: T)
    ensures Filter(p, [a]) == Selected(p, a)
  {
    FilterCons(p, a, []);
    assert [a] + [] == [a];
  }

  lemma Filter2<T(!new)>(p: T -> bool, a: T, b: T)
    ensures Filter(p, [a, b]) == Selected(p, a) + Selected(p, b)
  {
    assert [a, b] == [a] + [b];
    FilterCons(p, a, [b]);
    Filter1(p, b);
  }

  lemma Filter3<T(!new)>(p: T -> bool, a: T, b: T, c: T)
    ensures Filter(p, [a, b, c]) == Selected(p, a) + (Selected(p, b) + Selected(p, c))
  {
    assert [a, b, c] == [a] + [b, c];
    FilterCons(p, a, [b, c]);
    Filter2(p, b, c);
  }

  lemma Filter4<T(!new)>(p: T -> bool, a: T, b: T, c: T, d: T)
    ensures Filter(p, [a, b, c, d]) == Selected(p, a) + (Selected(p, b) + (Selected(p, c) + Selected(p, d)))
  {
    assert [a, b, c, d] == [a] + [b, c, d];
    FilterCons(p, a, [b, c, d]);
    Filter3(p, b, c, d);
  }

  /** Rows appended that the filter drops leave its result as it was. */
  lemma FilterNoneAfter<T(!new)>(p: T -> bool, a: seq<T>, b: seq<T>)
    requires forall i :: 0 <= i < |b| ==> !p(b[i])
    ensures Filter(p, a + b) == Filter(p, a)
  {
    FilterConcat(p, a, b);
    FilterNone(p, b);
    assert Filter(p, a) + [] == Filter(p, a);
  }

  lemma Sum3<T>(f: T -> real, a: T, b: T, c: T)
    ensures Sum(f, [a, b, c]) == f(a) + f(b) + f(c)
  {
    assert Sum(f, [c]) == f(c) by { assert [c][1..] == []; }
    assert Sum(f, [b, c]) == f(b) + f(c) by { assert [b, c][1..] == [c]; }
    assert [a, b, c][1..] == [b, c];
  }

  // Filters of four rows that the fixtures produce, one lemma per pattern of kept rows.

  lemma FilterKeepFirstTwo<T(!new)>(p: T -> bool, a: T, b: T, c: T, d: T)
    requires p(a) && p(b) && !p(c) && !p(d)
    ensures Filter(p, [a, b, c, d]) == [a, b]
  {
    Filter4(p, a, b, c, d);
    assert Selected(p, a) == [a];
    assert Selected(p, b) == [b];
    assert Selected(p, c) == [];
    assert Selected(p, d) == [];
    KeepFirstTwo(a, b);
  }

  lemma FilterKeepLastTwo<T(!new)>(p: T -> bool, a: T, b: T, c: T, d: T)
    requires !p(a) && !p(b) && p(c) && p(d)
    ensures Filter(p, [a, b, c, d]) == [c, d]
  {
    Filter4(p, a, b, c, d);
    assert Selected(p, a) == [];
    assert Selected(p, b) == [];
    assert Selected(p, c) == [c];
    assert Selected(p, d) == [d];
    KeepLastTwo(c, d);
  }

  lemma FilterKeepSecond<T(!new)>(p: T -> bool, a: T, b: T, c: T, d: T)
    requires !p(a) && p(b) && !p(c) && !p(d)
    ensures Filter(p, [a, b, c, d]) == [b]
  {
    Filter4(p, a, b, c, d);
    assert Selected(p, a) == [];
    assert Selected(p, b) == [b];
    assert Selected(p, c) == [];
    assert Selected(p, d) == [];
    KeepSecond(b);
  }

  lemma FilterDropSecond<T(!new)>(p: T -> bool, a: T, b: T, c: T, d: T)
    requires p(a) && !p(b) && p(c) && p(d)
    ensures Filter(p, [a, b, c, d]) == [a, c, d]
  {
    Filter4(p, a, b, c, d);
    assert Selected(p, a) == [a];
    assert Selected(p, b) == [];
    assert Selected(p, c) == [c];
    assert Selected(p, d) == [d];
    DropSecond(a, c, d);
  }

  // The joins of one-row filters, as displays; kept apart from the Filter facts, which make them expensive.

  lemma KeepFirstTwo<T>(a: T, b: T)
    ensures [a] + ([b] + ([] + [])) == [a, b]
  {
  }

  lemma KeepLastTwo<T>(c: T, d: T)
    ensures [] + ([] + ([c] + [d])) == [c, d]
  {
  }

  lemma KeepSecond<T>(b: T)
    ensures [] + ([b] + ([] + [])) == [b]
  {
  }

  lemma DropSecond<T>(a: T, c: T, d: T)
    ensures [a] + ([] + ([c] + [d])) == [a, c, d]
  {
  }

  lemma KeepAllThree<T>(a: T, b: T, c: T)
    ensures [a] + ([b] + [c]) == [a, b, c]
  {
  }

  // ----------------------------------------------------- the engine casts

  /** 2026-01-01 as a day number. */
  function NewYear(): Date { DaysFromCivil(2026, 1, 1) }

  /** 2026-01-01 10:00:00 as an instant. */
  function TenAm(): Timestamp { TimestampAt(NewYear(), 10, 0, 0) }

  /** 2026-01-02 11:00:00, the second of the bot burst. */
  function BotInstant(): Timestamp { TimestampAt(DaysFromCivil(2026, 1, 2), 11, 0, 0) }

  /**
   * What the fixtures need of the engine's casts: DOUBLE reads the numeric
   * texts and refuses "ten", DATE reads the ISO date, and TIMESTAMP reads
   * all three ISO 8601 spellings of 10:00 on 2026-01-01 and the burst's
   * 11:00 on 2026-01-02.
   */
  predicate ReadsFixture(c: Casts) {
    && c.double("100") == Some(100.0)
    && c.double("-50") == Some(-50.0)
    && c.double("10.5") == Some(10.5)
    && c.double("ten").None?
    && c.date("2026-01-01") == Some(NewYear())
    && c.timestamp("2026-01-01 10:00:00") == Some(TenAm())
    && c.timestamp("2026-01-01T10:00:00Z") == Some(TenAm())
    && c.timestamp("2026-01-01T10:00:00+00:00") == Some(TenAm())
    && c.timestamp("2026-01-02 11:00:00") == Some(BotInstant())
  }

  function FixtureDouble(s: string): Option<real> {
    if s == "100" then Some(100.0)
    else if s == "-50" then Some(-50.0)
    else if s == "10.5" then Some(10.5)
    else None
  }

  function FixtureDate(s: string): Option<Date> {
    if s == "2026-01-01" then Some(NewYear()) else None
  }

  function FixtureTimestamp(s: string): Option<Timestamp> {
    if s == "2026-01-01 10:00:00" || s == "2026-01-01T10:00:00Z" || s == "2026-01-01T10:00:00+00:00"
    then Some(TenAm())
    else if s == "2026-01-02 11:00:00" then Some(BotInstant())
    else None
  }

  /** Casts that read the fixture as required exist. */
  lemma FixtureCastsExist()
    ensures ReadsFixture(Casts(FixtureDouble, FixtureTimestamp, FixtureDate))
  {
  }

  // ------------------------------------------------------------ marketing

  function GoogleRow(spend: string): BronzeMarketing {
    BronzeMarketing(Some("2026-01-01"), Some("Google"), Some(spend))
  }

  function FacebookTen(): BronzeMarketing {
    BronzeMarketing(Some("2026-01-01"), Some("Facebook"), Some("ten"))
  }

  /** Two identical rows, a negative spend and a non-numeric spend. */
  function MarketingFixture(): seq<BronzeMarketing> {
    [GoogleRow("100"), GoogleRow("100"), GoogleRow("-50"), FacebookTen()]
  }

  /**
   * Both copies of the duplicated row stay clean, since nothing
   * deduplicates marketing rows; "-50" is quarantined as negative and "ten"
   * as non-numeric.
   */
  lemma MarketingOnFixture(c: Casts)
    requires ReadsFixture(c)
    ensures SilverMarketing(c, MarketingFixture())
         == Ok([MarketingRow(Some(NewYear()), Some("Google"), 100.0),
                MarketingRow(Some(NewYear()), Some("Google"), 100.0)])
    ensures QuarantineMarketing(c, MarketingFixture())
         == [QuarantinedMarketing(GoogleRow("-50"), Some(NegativeSpend)),
             QuarantinedMarketing(FacebookTen(), Some(NonNumericSpend))]
  {
    MarketingKeptRows(c);
    CleanGoogleRows(c);
    MarketingQuarantinedRows(c);
    AuditedPair(c);
  }

  lemma MarketingKeptRows(c: Casts)
    requires ReadsFixture(c)
    ensures Filter(MarketingWhere(c), MarketingFixture()) == [GoogleRow("100"), GoogleRow("100")]
  {
    var r0, r2, r3 := GoogleRow("100"), GoogleRow("-50"), FacebookTen();
    assert MarketingKept(c, r0) && !MarketingKept(c, r2) && !MarketingKept(c, r3);
    FilterKeepFirstTwo(MarketingWhere(c), r0, r0, r2, r3);
  }

  lemma MarketingQuarantinedRows(c: Casts)
    requires ReadsFixture(c)
    ensures Filter(MarketingQuarantineWhere(c), MarketingFixture()) == [GoogleRow("-50"), FacebookTen()]
  {
    var r0, r2, r3 := GoogleRow("100"), GoogleRow("-50"), FacebookTen();
    assert !MarketingQuarantined(c, r0) && MarketingQuarantined(c, r2) && MarketingQuarantined(c, r3);
    FilterKeepLastTwo(MarketingQuarantineWhere(c), r0, r0, r2, r3);
  }

  lemma AuditedPair(c: Casts)
    requires ReadsFixture(c)
    ensures Project(AuditMarketing(c), [GoogleRow("-50"), FacebookTen()])
         == [QuarantinedMarketing(GoogleRow("-50"), Some(NegativeSpend)),
             QuarantinedMarketing(FacebookTen(), Some(NonNumericSpend))]
  {
    var q := Project(AuditMarketing(c), [GoogleRow("-50"), FacebookTen()]);
    assert q[0] == QuarantinedMarketing(GoogleRow("-50"), Some(NegativeSpend));
    assert q[1] == QuarantinedMarketing(FacebookTen(), Some(NonNumericSpend));
  }

  lemma CleanGoogleRows(c: Casts)
    requires ReadsFixture(c)
    ensures SelectMarketing(c, [GoogleRow("100"), GoogleRow("100")])
         == Ok([MarketingRow(Some(NewYear()), Some("Google"), 100.0),
                MarketingRow(Some(NewYear()), Some("Google"), 100.0)])
  {
    var r0 := GoogleRow("100");
    assert MarketingKept(c, r0);
    assert CastDate(c, r0.date) == Ok(Some(NewYear()));
    assert forall x :: x in [r0, r0] ==> CastDate(c, x.date).Ok?;
    var t := SelectMarketing(c, [r0, r0]);
    var m := MarketingRow(Some(NewYear()), Some("Google"), 100.0);
    assert t.Ok? && |t.value| == 2;
    assert t.value[0] == m && t.value[1] == m;
    assert t.value == [m, m];
  }

  // --------------------------------------------------------------- events

  function PurchaseEv1(): BronzeEvent {
    BronzeEvent(Some("ev_1"), Some("u1"), Some("purchase"), Some("2026-01-01 10:00:00"), Some("10.5"), Some("USD"), None)
  }

  function PurchaseTen(): BronzeEvent {
    BronzeEvent(Some("ev_bad"), Some("u2"), Some("purchase"), Some("2026-01-01 10:00:00"), Some("ten"), Some("USD"), None)
  }

  function SignupZulu(): BronzeEvent {
    BronzeEvent(Some("ts_1"), Some("u3"), Some("signup"), Some("2026-01-01T10:00:00Z"), None, None, None)
  }

  function ViewOffset(): BronzeEvent {
    BronzeEvent(Some("ts_2"), Some("u3"), Some("page_view"), Some("2026-01-01T10:00:00+00:00"), None, None, None)
  }

  /** A standard row, the "ten" amount, and the two other timestamp spellings. */
  function HandWrittenEvents(): seq<BronzeEvent> {
    [PurchaseEv1(), PurchaseTen(), SignupZulu(), ViewOffset()]
  }

  /** `n` in decimal, without leading zeros: the text of `'bot_ev_' || range`. */
  function Numeral(n: nat): string
    decreases n
  {
    if n < 10 then [DigitChar(n)] else Numeral(n / 10) + [DigitChar(n % 10)]
  }

  /** The `i`-th row of the burst: one page view of user "bot_1" at 11:00 on 2026-01-02. */
  function BotEvent(i: nat): BronzeEvent {
    BronzeEvent(Some("bot_ev_" + Numeral(i)), Some("bot_1"), Some("page_view"), Some("2026-01-02 11:00:00"), None, None, None)
  }

  /** The 25 events of `range(25)`, all in one second. */
  function BotBurst(): seq<BronzeEvent> {
    seq(25, i requires 0 <= i < 25 => BotEvent(i))
  }

  /** The whole event table: the hand-written rows, then the burst. */
  function EventFixture(): seq<BronzeEvent> {
    HandWrittenEvents() + BotBurst()
  }

  /** The burst row `i` once cleaned. */
  function BotCandidate(i: nat): SilverEvent {
    SilverEvent(Some("bot_ev_" + Numeral(i)), Some("bot_1"), Some("page_view"), Some(BotInstant()), 0.0, None, None)
  }

  function BotCandidates(): seq<SilverEvent> {
    seq(25, i requires 0 <= i < 25 => BotCandidate(i))
  }

  /**
   * The "ten" amount is the one quarantined event, and its reason contains
   * "ten"; all 28 other events are the candidates, a NULL amount becomes 0,
   * every clean event has a timestamp, user "bot_1" is among the clean
   * events, and the timestamp expression as written does not abort on any
   * of these rows.
   */
  lemma EventsOnFixture(c: Casts)
    requires ReadsFixture(c)
    ensures QuarantineEvents(c, EventFixture()) == [QuarantinedEvent(PurchaseTen(), Some(InvalidAmount))]
    ensures "ten" <= InvalidAmount[|"Invalid numeric amount (e.g. "|..]
    ensures EventCandidates(c, EventFixture()) == CleanFixtureEvents() + BotCandidates()
    ensures |EventCandidates(c, EventFixture())| == 28
    ensures forall e :: e in SilverEvents(c, EventFixture()) ==> e.eventTs == Some(TenAm()) || e.eventTs == Some(BotInstant())
    ensures exists e :: e in SilverEvents(c, EventFixture()) && e.userId == Some("bot_1")
    ensures forall r :: r in EventFixture() ==> NormaliseTimestampAsWritten(c, r.timestamp).Ok?
  {
    EventsQuarantinedRows(c);
    QuarantinedTen(c);
    EventsCandidateRows(c);
    CleanFixtureEventsTimed();
    BotCandidatesTimed();
    CleanEventsTimed(c, EventFixture(), Some(TenAm()), Some(BotInstant()));
    BotSurvives(c);
    AsWrittenOnFixture(c);
  }

  /** The candidates of the whole table, layer by layer. */
  lemma EventsCandidateRows(c: Casts)
    requires ReadsFixture(c)
    ensures EventCandidates(c, EventFixture()) == CleanFixtureEvents() + BotCandidates()
  {
    var kept := [PurchaseEv1(), SignupZulu(), ViewOffset()];
    FilterConcat(EventWhere(c), HandWrittenEvents(), BotBurst());
    EventsKeptRows(c);
    BurstKept(c);
    ProjectConcat(ValidateIn(c), kept, BotBurst());
    ValidatedTriple(c);
    BurstValidated(c);
  }

  lemma BurstKept(c: Casts)
    ensures Filter(EventWhere(c), BotBurst()) == BotBurst()
  {
    FilterAll(EventWhere(c), BotBurst());
  }

  lemma BurstValidated(c: Casts)
    requires ReadsFixture(c)
    ensures Project(ValidateIn(c), BotBurst()) == BotCandidates()
  {
    var v := Project(ValidateIn(c), BotBurst());
    forall i | 0 <= i < 25 ensures v[i] == BotCandidate(i) {
      ValidatedNative(c, BotEvent(i), BotInstant());
    }
  }

  /** A row whose timestamp the engine reads and whose amount is NULL is validated field for field. */
  lemma ValidatedNative(c: Casts, r: BronzeEvent, t: Timestamp)
    requires r.timestamp.Some? && c.timestamp(r.timestamp.value) == Some(t) && r.amount.None?
    ensures ValidateEvent(c, r) == SilverEvent(r.eventId, r.userId, r.eventType, Some(t), 0.0, r.currency, r.refersToEventId)
  {
  }

  /** The one survivor with the id of the first burst row is that row, so "bot_1" has a clean event. */
  lemma BotSurvives(c: Casts)
    requires ReadsFixture(c)
    ensures exists e :: e in SilverEvents(c, EventFixture()) && e.userId == Some("bot_1")
  {
    EventsCandidateRows(c);
    var cands := EventCandidates(c, EventFixture());
    var k := BotCandidate(0).eventId;
    assert cands[3] == BotCandidate(0);
    SilverEventsOnePerId(c, EventFixture());
    ProjectMember(SilverEventId, SilverEvents(c, EventFixture()), k);
    var y :| y in SilverEvents(c, EventFixture()) && y.eventId == k;
    SilverEventsLatest(c, EventFixture(), y);
    BotIdsOnlyBots(cands, y);
  }

  /** Every candidate with a "b" id is a burst row; the hand-written ids start otherwise. */
  lemma BotIdsOnlyBots(cands: seq<SilverEvent>, y: SilverEvent)
    requires cands == CleanFixtureEvents() + BotCandidates()
    requires y in cands && y.eventId.Some? && |y.eventId.value| > 0 && y.eventId.value[0] == 'b'
    ensures y.userId == Some("bot_1")
  {
    var i :| 0 <= i < |cands| && cands[i] == y;
    assert i >= 3;
    assert y == BotCandidate(i - 3);
  }

  /** The three clean events, with the NULL amounts turned into 0. */
  function CleanFixtureEvents(): seq<SilverEvent> {
    [ SilverEvent(Some("ev_1"), Some("u1"), Some("purchase"), Some(TenAm()), 10.5, Some("USD"), None),
      SilverEvent(Some("ts_1"), Some("u3"), Some("signup"), Some(TenAm()), 0.0, None, None),
      SilverEvent(Some("ts_2"), Some("u3"), Some("page_view"), Some(TenAm()), 0.0, None, None) ]
  }

  /** Deduplication keeps candidates only, so timestamps every candidate has one of are every clean event's too. */
  lemma CleanEventsTimed(c: Casts, rows: seq<BronzeEvent>, ts: Option<Timestamp>, us: Option<Timestamp>)
    requires forall e :: e in EventCandidates(c, rows) ==> e.eventTs == ts || e.eventTs == us
    ensures forall e :: e in SilverEvents(c, rows) ==> e.eventTs == ts || e.eventTs == us
  {
    forall y | y in SilverEvents(c, rows) ensures y.eventTs == ts || y.eventTs == us {
      SilverEventsLatest(c, rows, y);
    }
  }

  lemma BotCandidatesTimed()
    ensures forall e :: e in BotCandidates() ==> e.eventTs == Some(BotInstant())
  {
  }

  lemma CleanFixtureEventsTimed()
    ensures forall e :: e in CleanFixtureEvents() ==> e.eventTs == Some(TenAm())
  {
    var w := CleanFixtureEvents();
    assert w[0].eventTs == w[1].eventTs == w[2].eventTs == Some(TenAm());
  }

  /** A text the engine's own cast reads never reaches `strptime`. */
  lemma AsWrittenReadsNative(c: Casts, rows: seq<BronzeEvent>)
    requires forall r :: r in rows ==> r.timestamp.Some? && c.timestamp(r.timestamp.value).Some?
    ensures forall r :: r in rows ==> NormaliseTimestampAsWritten(c, r.timestamp).Ok?
  {
  }

  lemma AsWrittenOnFixture(c: Casts)
    requires ReadsFixture(c)
    ensures forall r :: r in EventFixture() ==> NormaliseTimestampAsWritten(c, r.timestamp).Ok?
  {
    var rows, hand := EventFixture(), HandWrittenEvents();
    forall r | r in rows ensures r.timestamp.Some? && c.timestamp(r.timestamp.value).Some? {
      var i :| 0 <= i < |rows| && rows[i] == r;
      if i < 4 {
        assert r == hand[i];
        assert r == hand[0] || r == hand[1] || r == hand[2] || r == hand[3];
      } else {
        assert r == BotEvent(i - 4);
      }
    }
    AsWrittenReadsNative(c, rows);
  }

  lemma EventsQuarantinedRows(c: Casts)
    requires ReadsFixture(c)
    ensures QuarantineEvents(c, EventFixture()) == [QuarantinedEvent(PurchaseTen(), Some(InvalidAmount))]
  {
    TenQuarantined(c);
    var q := Project(AuditEvent(c), [PurchaseTen()]);
    assert q[0] == QuarantinedEvent(PurchaseTen(), Some(InvalidAmount));
  }

  lemma TenQuarantined(c: Casts)
    requires ReadsFixture(c)
    ensures Filter(EventQuarantineWhere(c), EventFixture()) == [PurchaseTen()]
  {
    TenQuarantinedByHand(c);
    BurstNotQuarantined(c);
    FilterNoneAfter(EventQuarantineWhere(c), HandWrittenEvents(), BotBurst());
  }

  lemma BurstNotQuarantined(c: Casts)
    ensures forall i :: 0 <= i < |BotBurst()| ==> !EventQuarantineWhere(c)(BotBurst()[i])
  {
  }

  lemma TenQuarantinedByHand(c: Casts)
    requires ReadsFixture(c)
    ensures Filter(EventQuarantineWhere(c), HandWrittenEvents()) == [PurchaseTen()]
  {
    var e0, e1, e2, e3 := PurchaseEv1(), PurchaseTen(), SignupZulu(), ViewOffset();
    assert !EventQuarantined(c, e0) && EventQuarantined(c, e1);
    assert !EventQuarantined(c, e2) && !EventQuarantined(c, e3);
    FilterKeepSecond(EventQuarantineWhere(c), e0, e1, e2, e3);
  }

  lemma QuarantinedTen(c: Casts)
    ensures "ten" <= InvalidAmount[|"Invalid numeric amount (e.g. "|..]
  {
  }

  lemma EventsKeptRows(c: Casts)
    requires ReadsFixture(c)
    ensures Filter(EventWhere(c), HandWrittenEvents()) == [PurchaseEv1(), SignupZulu(), ViewOffset()]
  {
    var e0, e1, e2, e3 := PurchaseEv1(), PurchaseTen(), SignupZulu(), ViewOffset();
    assert EventKept(c, e0) && !EventKept(c, e1);
    assert EventKept(c, e2) && EventKept(c, e3);
    FilterDropSecond(EventWhere(c), e0, e1, e2, e3);
  }

  lemma ValidatedTriple(c: Casts)
    requires ReadsFixture(c)
    ensures Project(ValidateIn(c), [PurchaseEv1(), SignupZulu(), ViewOffset()]) == CleanFixtureEvents()
  {
    var v := Project(ValidateIn(c), [PurchaseEv1(), SignupZulu(), ViewOffset()]);
    var w := CleanFixtureEvents();
    assert v[0] == w[0];
    assert v[1] == w[1];
    assert v[2] == w[2];
  }

  // ------------------------------------------------------- subscriptions

  function Sub1(): Subscription {
    Subscription(Some("sub1"), Some(10.0), Some(TimestampAt(NewYear(), 0, 0, 0)), Some("active"))
  }

  function SubWithoutId(): Subscription {
    Subscription(None, Some(20.0), Some(TimestampAt(NewYear(), 0, 0, 0)), Some("active"))
  }

  /** The subscription without an id is quarantined; the other one is the whole clean table. */
  lemma SubscriptionsOnFixture()
    ensures QuarantineSubscriptions([Sub1(), SubWithoutId()]) == [QuarantinedSubscription(SubWithoutId(), MissingIdOrPrice)]
    ensures SilverSubscriptions([Sub1(), SubWithoutId()]) == [Sub1()]
  {
    var s0, s1 := Sub1(), SubWithoutId();
    Filter2(SubscriptionKept, s0, s1);
    Filter2(SubscriptionQuarantined, s0, s1);
    assert Filter(SubscriptionKept, [s0, s1]) == [s0];
    assert Filter(SubscriptionQuarantined, [s0, s1]) == [s1];
    OneSubscription(s0);
  }

  lemma OneSubscription(s: Subscription)
    ensures LatestPerKey(SubscriptionId, SubscriptionCreatedAt, [s]) == [s]
  {
    LatestPerKeyUnique(SubscriptionId, SubscriptionCreatedAt, [s]);
    var r := LatestPerKey(SubscriptionId, SubscriptionCreatedAt, [s]);
    assert KeysOf(SubscriptionId, [s]) == {SubscriptionId(s)};
    assert |r| == 1;
    LatestPerKeyIsLatest(SubscriptionId, SubscriptionCreatedAt, [s], r[0]);
  }

  // ------------------------------------------------------------- metrics

  /** A signup, a purchase of 100 and a refund of 20 by one user, at the given instants. */
  function GoldEvents(t1: Timestamp, t2: Timestamp, t3: Timestamp): seq<Gold.Event> {
    [ Gold.Event(Some("u1"), Some("signup"), Some(t1), 0.0, false),
      Gold.Event(Some("u1"), Some("purchase"), Some(t2), 100.0, false),
      Gold.Event(Some("u1"), Some("refund"), Some(t3), 20.0, false) ]
  }

  /** The total net revenue is 80, and so is the user's lifetime value, whatever the days. */
  lemma NetRevenueOnFixture(t1: Timestamp, t2: Timestamp, t3: Timestamp)
    ensures Sum(RowValue, Gold.DailyRevenueNet(GoldEvents(t1, t2, t3))) == 80.0
    ensures Sum(RowValue, Gold.LtvPerUser(GoldEvents(t1, t2, t3))) == 80.0
  {
    Gold.NetTotalIsLtvTotal(GoldEvents(t1, t2, t3));
    GoldEventsHuman(t1, t2, t3);
    GoldEventsTotal(t1, t2, t3);
  }

  lemma GoldEventsHuman(t1: Timestamp, t2: Timestamp, t3: Timestamp)
    ensures Gold.Humans(GoldEvents(t1, t2, t3)) == GoldEvents(t1, t2, t3)
  {
    var e := GoldEvents(t1, t2, t3);
    Filter3(Gold.IsHuman, e[0], e[1], e[2]);
    KeepAllThree(e[0], e[1], e[2]);
  }

  lemma GoldEventsTotal(t1: Timestamp, t2: Timestamp, t3: Timestamp)
    ensures Sum(Gold.SignedAmount, GoldEvents(t1, t2, t3)) == 80.0
  {
    var e := GoldEvents(t1, t2, t3);
    Sum3(Gold.SignedAmount, e[0], e[1], e[2]);
  }

  function GoldSubscription(status: string, price: real, t: Timestamp): Subscription {
    Subscription(Some("s1"), Some(price), Some(t), Some(status))
  }

  /**
   * The fixture's one active subscription at 50 makes one month with an
   * MRR of 50. The second clause adds a case the fixture does not have: a
   * cancelled subscription at 99 beside it changes nothing.
   */
  lemma MrrOnFixture(t: Timestamp, u: Timestamp)
    ensures Gold.MrrMonthly([GoldSubscription("active", 50.0, t)])
         == [Row(Some(MonthStart(DayOf(t))), Some(50.0))]
    ensures Gold.MrrMonthly([GoldSubscription("active", 50.0, t), GoldSubscription("cancelled", 99.0, u)])
         == Gold.MrrMonthly([GoldSubscription("active", 50.0, t)])
  {
    MrrOneActive(GoldSubscription("active", 50.0, t));
    MrrCancelledIgnored(GoldSubscription("active", 50.0, t), GoldSubscription("cancelled", 99.0, u));
  }

  lemma MrrOneActive(s: Subscription)
    requires Gold.IsActive(s) && s.price.Some?
    ensures Gold.MrrMonthly([s]) == [Row(Gold.MonthOf(s), s.price)]
  {
    Filter1(Gold.IsActive, s);
    assert Selected(Gold.IsActive, s) == [s];
    OneMonth(s);
  }

  lemma MrrCancelledIgnored(s: Subscription, x: Subscription)
    requires !Gold.IsActive(x)
    ensures Gold.MrrMonthly([s, x]) == Gold.MrrMonthly([s])
  {
    Gold.MrrIgnoresInactive([s], x, []);
    assert [s] + [x] + [] == [s, x];
    assert [s] + [] == [s];
  }

  lemma OneMonth(s: Subscription)
    requires s.price.Some?
    ensures GroupBy(Gold.MonthOf, Gold.MonthlyRevenue, [s], Gold.DateKeys(Gold.MonthOf, [s]))
         == [Row(Gold.MonthOf(s), s.price)]
  {
    var m := Gold.MonthOf(s);
    assert Project(Gold.MonthOf, [s]) == [m];
    assert Distinct([m]) == [m] by { assert [m][1..] == []; }
    assert SortBy(Gold.NullsLastLe, [m]) == [m] by { assert [m][1..] == []; }
    assert WithKey(Gold.MonthOf, m, [s]) == [s] by { assert [s][1..] == []; }
    assert Project(Gold.Price, [s]) == [s.price];
    assert NonNull([s.price]) == [s.price.value] by { assert [s.price][1..] == []; }
    assert Sum(RealOf, [s.price.value]) == s.price.value by { assert [s.price.value][1..] == []; }
  }
}
