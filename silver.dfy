/**
 * The cleaning stage: each bronze table is split into a clean (silver) table
 * and a quarantine table carrying a rejection reason. Event timestamps are
 * normalised from three layouts, a null amount falls back to 0, and one row
 * per event id and per subscription id survives.
 */
module Silver {
  import opened Wrappers
  import opened Calendar
  import opened Relational
  import opened TimestampFormats

  // ------------------------------------------------------- engine casts

  /**
   * The engine's own conversions, left abstract:
   * `double` is `try_cast(x AS DOUBLE)`, `timestamp` is
   * `try_cast(x AS TIMESTAMP)` (both NULL when the text does not convert),
   * and `date` is `x::DATE`, whose `None` means the cast fails, which
   * aborts the statement.
   */
  datatype Casts = Casts(
    double: string -> Option<real>,
    timestamp: string -> Option<Timestamp>,
    date: string -> Option<Date>)

  /** `try_cast(v AS DOUBLE)`: NULL in, NULL out. */
  function TryCastDouble(c: Casts, v: Option<string>): (r: Option<real>)
    ensures v.None? ==> r.None?
    ensures v.Some? ==> r == c.double(v.value)
  {
    match v
    case None => None
    case Some(s) => c.double(s)
  }

  /** `v::DATE`: NULL in, NULL out; a text the engine cannot read as a date aborts the statement. */
  function CastDate(c: Casts, v: Option<string>): (r: Result<Option<Date>>)
    ensures r.Err? <==> v.Some? && c.date(v.value).None?
    ensures r.Ok? && v.None? ==> r.value.None?
    ensures r.Ok? && v.Some? ==> r.value == c.date(v.value)
  {
    match v
    case None => Ok(None)
    case Some(s) =>
      match c.date(s)
      case Some(d) => Ok(Some(d))
      case None => Err("Conversion Error: cannot cast to DATE")
  }

  // ------------------------------------------------------------ marketing

  datatype BronzeMarketing = BronzeMarketing(date: Option<string>, channel: Option<string>, spend: Option<string>)

  /** A row of `silver_marketing`. */
  datatype MarketingRow = MarketingRow(date: Option<Date>, channel: Option<string>, spend: real)

  /** A row of `quarantine_marketing`: the bronze row and its reason (NULL when no CASE arm matched). */
  datatype QuarantinedMarketing = QuarantinedMarketing(row: BronzeMarketing, rejectionReason: Option<string>)

  const NonNumericSpend: string := "Non-numeric spend"
  const NegativeSpend: string := "Negative spend"

  /** The WHERE clause of `silver_marketing`. */
  predicate MarketingKept(c: Casts, r: BronzeMarketing) {
    TryCastDouble(c, r.spend).Some? && TryCastDouble(c, r.spend).value >= 0.0
  }

  /** The WHERE clause of `quarantine_marketing`. */
  predicate MarketingQuarantined(c: Casts, r: BronzeMarketing) {
    TryCastDouble(c, r.spend).None? || TryCastDouble(c, r.spend).value < 0.0
  }

  function MarketingWhere(c: Casts): BronzeMarketing -> bool {
    r => MarketingKept(c, r)
  }

  function MarketingQuarantineWhere(c: Casts): BronzeMarketing -> bool {
    r => MarketingQuarantined(c, r)
  }

  /** The two WHERE clauses are exact complements. */
  lemma MarketingWhereComplement(c: Casts, r: BronzeMarketing)
    ensures MarketingQuarantined(c, r) <==> !MarketingKept(c, r)
  {
  }

  /** The CASE expression of `quarantine_marketing`, first matching arm wins. */
  function MarketingReason(c: Casts, r: BronzeMarketing): (reason: Option<string>)
    ensures reason.None? <==> !MarketingQuarantined(c, r)
    ensures TryCastDouble(c, r.spend).None? ==> reason == Some(NonNumericSpend)
    ensures TryCastDouble(c, r.spend).Some? && TryCastDouble(c, r.spend).value < 0.0 ==> reason == Some(NegativeSpend)
  {
    var spend := TryCastDouble(c, r.spend);
    if spend.None? then Some(NonNumericSpend)
    else if spend.value < 0.0 then Some(NegativeSpend)
    else None
  }

  function AuditMarketing(c: Casts): BronzeMarketing -> QuarantinedMarketing {
    r => QuarantinedMarketing(r, MarketingReason(c, r))
  }

  function QuarantinedMarketingRow(q: QuarantinedMarketing): BronzeMarketing { q.row }

  /** The SELECT list of `silver_marketing`, over rows that passed its WHERE clause. */
  function SelectMarketing(c: Casts, kept: seq<BronzeMarketing>): (r: Result<seq<MarketingRow>>)
    requires forall x :: x in kept ==> MarketingKept(c, x)
    ensures r.Ok? <==> forall x :: x in kept ==> CastDate(c, x.date).Ok?
    ensures r.Ok? ==> |r.value| == |kept|
    ensures r.Ok? ==> forall i :: 0 <= i < |kept| ==>
      kept[i] in kept && MarketingKept(c, kept[i]) && r.value[i] == MarketingRow(CastDate(c, kept[i].date).value, kept[i].channel, TryCastDouble(c, kept[i].spend).value)
  {
    if kept == [] then Ok([])
    else
      assert forall i :: 0 <= i < |kept[1..]| ==> kept[1..][i] == kept[i + 1];
      assert kept[0] in kept;
      match CastDate(c, kept[0].date)
      case Err(m) => Err(m)
      case Ok(d) =>
        match SelectMarketing(c, kept[1..])
        case Err(m) =>
          assert exists x :: x in kept[1..] && CastDate(c, x.date).Err?;
          Err(m)
        case Ok(rest) =>
          assert forall x :: x in kept ==> x == kept[0] || x in kept[1..];
          assert MarketingKept(c, kept[0]);
          Ok([MarketingRow(d, kept[0].channel, TryCastDouble(c, kept[0].spend).value)] + rest)
  }

  /** `silver_marketing`; an unreadable date in a kept row aborts the statement. */
  function SilverMarketing(c: Casts, rows: seq<BronzeMarketing>): Result<seq<MarketingRow>> {
    SelectMarketing(c, Filter(MarketingWhere(c), rows))
  }

  /** `quarantine_marketing`. */
  function QuarantineMarketing(c: Casts, rows: seq<BronzeMarketing>): seq<QuarantinedMarketing> {
    Project(AuditMarketing(c), Filter(MarketingQuarantineWhere(c), rows))
  }

  lemma AuditedRows<T, Q>(audit: T -> Q, row: Q -> T, s: seq<T>)
    requires forall x :: row(audit(x)) == x
    ensures Project(row, Project(audit, s)) == s
  {
  }

  /**
   * Every bronze marketing row lands in exactly one of the two tables: the
   * rows kept for `silver_marketing` and the rows of `quarantine_marketing`
   * together are the bronze table, counted with multiplicity.
   */
  lemma MarketingPartition(c: Casts, rows: seq<BronzeMarketing>)
    ensures multiset(Filter(MarketingWhere(c), rows))
          + multiset(Project(QuarantinedMarketingRow, QuarantineMarketing(c, rows))) == multiset(rows)
    ensures SilverMarketing(c, rows).Ok? ==>
      |SilverMarketing(c, rows).value| + |QuarantineMarketing(c, rows)| == |rows|
  {
    FilterPartition(MarketingWhere(c), MarketingQuarantineWhere(c), rows);
    AuditedRows(AuditMarketing(c), QuarantinedMarketingRow, Filter(MarketingQuarantineWhere(c), rows));
  }

  /**
   * Every clean marketing row comes from a bronze row whose spend parsed,
   * and its spend is that parsed value and is not negative. The statement
   * fails exactly when a kept row's date does not convert.
   */
  lemma SilverMarketingSpend(c: Casts, rows: seq<BronzeMarketing>)
    ensures SilverMarketing(c, rows).Err? <==>
      exists x :: x in rows && MarketingKept(c, x) && x.date.Some? && c.date(x.date.value).None?
    ensures SilverMarketing(c, rows).Ok? ==>
      var kept := Filter(MarketingWhere(c), rows);
      var t := SilverMarketing(c, rows).value;
      |t| == |kept| &&
      forall i :: 0 <= i < |t| ==>
        && kept[i] in rows
        && TryCastDouble(c, kept[i].spend) == Some(t[i].spend)
        && t[i].spend >= 0.0
        && t[i].channel == kept[i].channel
  {
    var kept := Filter(MarketingWhere(c), rows);
    if SilverMarketing(c, rows).Err? {
      var x :| x in kept && CastDate(c, x.date).Err?;
      assert x in rows && MarketingKept(c, x);
    }
  }

  /**
   * Every quarantined marketing row is a bronze row failing the clean WHERE
   * clause, with reason "Non-numeric spend" when its spend does not parse and
   * "Negative spend" otherwise.
   */
  lemma MarketingReasons(c: Casts, rows: seq<BronzeMarketing>)
    ensures forall q :: q in QuarantineMarketing(c, rows) ==>
      && q.row in rows
      && !MarketingKept(c, q.row)
      && q.rejectionReason == Some(if TryCastDouble(c, q.row.spend).None? then NonNumericSpend else NegativeSpend)
  {
    var f := Filter(MarketingQuarantineWhere(c), rows);
    forall q | q in QuarantineMarketing(c, rows)
      ensures q.row in rows && !MarketingKept(c, q.row)
      ensures q.rejectionReason == Some(if TryCastDouble(c, q.row.spend).None? then NonNumericSpend else NegativeSpend)
    {
      var i :| 0 <= i < |f| && QuarantineMarketing(c, rows)[i] == q;
      assert f[i] in f;
    }
  }

  // --------------------------------------------------------------- events

  datatype BronzeEvent = BronzeEvent(
    eventId: Option<string>, userId: Option<string>, eventType: Option<string>,
    timestamp: Option<string>, amount: Option<string>, currency: Option<string>,
    refersToEventId: Option<string>)

  /** A row of `silver_events`. */
  datatype SilverEvent = SilverEvent(
    eventId: Option<string>, userId: Option<string>, eventType: Option<string>,
    eventTs: Option<Timestamp>, amount: real, currency: Option<string>,
    refersToEventId: Option<string>)

  /** A row of `quarantine_events`. */
  datatype QuarantinedEvent = QuarantinedEvent(row: BronzeEvent, rejectionReason: Option<string>)

  const MissingUserId: string := "Missing user_id"
  const InvalidAmount: string := "Invalid numeric amount (e.g. ten)"

  /** The WHERE clause of the `validated` rows behind `silver_events`. */
  predicate EventKept(c: Casts, r: BronzeEvent) {
    r.userId.Some? && (TryCastDouble(c, r.amount).Some? || r.amount.None?)
  }

  /** The WHERE clause of `quarantine_events`. */
  predicate EventQuarantined(c: Casts, r: BronzeEvent) {
    r.userId.None? || (TryCastDouble(c, r.amount).None? && r.amount.Some?)
  }

  function EventWhere(c: Casts): BronzeEvent -> bool {
    r => EventKept(c, r)
  }

  function EventQuarantineWhere(c: Casts): BronzeEvent -> bool {
    r => EventQuarantined(c, r)
  }

  /**
   * A bronze event is quarantined exactly when its user is missing or its
   * amount is present but does not parse; otherwise it is a clean candidate.
   */
  lemma EventWhereComplement(c: Casts, r: BronzeEvent)
    ensures EventQuarantined(c, r) <==> r.userId.None? || (r.amount.Some? && c.double(r.amount.value).None?)
    ensures EventKept(c, r) <==> !EventQuarantined(c, r)
  {
  }

  /**
   * The COALESCE of the three timestamp readings: the engine's own
   * TIMESTAMP cast, then `%Y-%m-%d %H:%M:%S`, then `%Y-%m-%dT%H:%M:%SZ`.
   * Each reading is NULL where it does not apply.
   */
  function NormaliseTimestamp(c: Casts, ts: Option<string>): (r: Option<Timestamp>)
    ensures ts.None? ==> r.None?
    ensures ts.Some? ==>
      var s := ts.value;
      && (r.None? <==> c.timestamp(s).None? && Strptime(s, SpaceLayout).None? && Strptime(s, ZuluLayout).None?)
      && (r.Some? ==> r == c.timestamp(s) || r == Strptime(s, SpaceLayout) || r == Strptime(s, ZuluLayout))
      && (c.timestamp(s).Some? ==> r == c.timestamp(s))
      && (c.timestamp(s).None? && Strptime(s, SpaceLayout).Some? ==> r == Strptime(s, SpaceLayout))
  {
    match ts
    case None => None
    case Some(s) =>
      if c.timestamp(s).Some? then c.timestamp(s)
      else if Strptime(s, SpaceLayout).Some? then Strptime(s, SpaceLayout)
      else Strptime(s, ZuluLayout)
  }

  /** A text in either fixed layout always normalises to the instant it names, unless the engine's own cast read it first. */
  lemma NormaliseLayouts(c: Casts, t: DateTime)
    requires ValidDateTime(t)
    ensures NormaliseTimestamp(c, Some(Format(t, SpaceLayout))).Some?
    ensures NormaliseTimestamp(c, Some(Format(t, ZuluLayout))).Some?
    ensures c.timestamp(Format(t, SpaceLayout)).None? ==>
      NormaliseTimestamp(c, Some(Format(t, SpaceLayout))) == Some(ToTimestamp(t))
    ensures c.timestamp(Format(t, ZuluLayout)).None? ==>
      NormaliseTimestamp(c, Some(Format(t, ZuluLayout))) == Some(ToTimestamp(t))
  {
    StrptimeExact(t, SpaceLayout);
    StrptimeExact(t, ZuluLayout);
    LayoutsDisjoint(Format(t, ZuluLayout));
  }

  /** `COALESCE(try_cast(amount AS DOUBLE), 0)`. */
  function CoalesceAmount(c: Casts, v: Option<string>): (r: real)
    ensures TryCastDouble(c, v).Some? ==> r == TryCastDouble(c, v).value
    ensures TryCastDouble(c, v).None? ==> r == 0.0
  {
    match TryCastDouble(c, v)
    case Some(x) => x
    case None => 0.0
  }

  /** The SELECT list of `silver_events` applied to one bronze row. */
  function ValidateEvent(c: Casts, r: BronzeEvent): SilverEvent {
    SilverEvent(r.eventId, r.userId, r.eventType, NormaliseTimestamp(c, r.timestamp),
                CoalesceAmount(c, r.amount), r.currency, r.refersToEventId)
  }

  function ValidateIn(c: Casts): BronzeEvent -> SilverEvent {
    r => ValidateEvent(c, r)
  }

  /** The `validated` rows: candidates before survivorship. */
  function EventCandidates(c: Casts, rows: seq<BronzeEvent>): seq<SilverEvent> {
    Project(ValidateIn(c), Filter(EventWhere(c), rows))
  }

  function SilverEventId(e: SilverEvent): Option<string> { e.eventId }

  function SilverEventTs(e: SilverEvent): Option<Timestamp> { e.eventTs }

  /** `silver_events`: one candidate per event id, the one with the latest `event_ts`. */
  function SilverEvents(c: Casts, rows: seq<BronzeEvent>): seq<SilverEvent> {
    LatestPerKey(SilverEventId, SilverEventTs, EventCandidates(c, rows))
  }

  /** The CASE expression of `quarantine_events`, first matching arm wins. */
  function EventReason(c: Casts, r: BronzeEvent): (reason: Option<string>)
    ensures reason.None? <==> !EventQuarantined(c, r)
    ensures r.userId.None? ==> reason == Some(MissingUserId)
    ensures r.userId.Some? && EventQuarantined(c, r) ==> reason == Some(InvalidAmount)
  {
    if r.userId.None? then Some(MissingUserId)
    else if TryCastDouble(c, r.amount).None? && r.amount.Some? then Some(InvalidAmount)
    else None
  }

  function AuditEvent(c: Casts): BronzeEvent -> QuarantinedEvent {
    r => QuarantinedEvent(r, EventReason(c, r))
  }

  function QuarantinedEventRow(q: QuarantinedEvent): BronzeEvent { q.row }

  /** `quarantine_events`. */
  function QuarantineEvents(c: Casts, rows: seq<BronzeEvent>): seq<QuarantinedEvent> {
    Project(AuditEvent(c), Filter(EventQuarantineWhere(c), rows))
  }

  /** Every bronze event is either a clean candidate or quarantined, never both and never neither. */
  lemma EventPartition(c: Casts, rows: seq<BronzeEvent>)
    ensures multiset(Filter(EventWhere(c), rows))
          + multiset(Project(QuarantinedEventRow, QuarantineEvents(c, rows))) == multiset(rows)
    ensures |EventCandidates(c, rows)| + |QuarantineEvents(c, rows)| == |rows|
  {
    FilterPartition(EventWhere(c), EventQuarantineWhere(c), rows);
    AuditedRows(AuditEvent(c), QuarantinedEventRow, Filter(EventQuarantineWhere(c), rows));
  }

  /**
   * Every quarantined event is a bronze row that is not a candidate; its
   * reason is "Missing user_id" whenever the user is missing, even when the
   * amount is bad too, and the invalid-amount reason otherwise.
   */
  lemma EventReasons(c: Casts, rows: seq<BronzeEvent>)
    ensures forall q :: q in QuarantineEvents(c, rows) ==>
      && q.row in rows
      && !EventKept(c, q.row)
      && q.rejectionReason == Some(if q.row.userId.None? then MissingUserId else InvalidAmount)
  {
    var f := Filter(EventQuarantineWhere(c), rows);
    forall q | q in QuarantineEvents(c, rows)
      ensures q.row in rows && !EventKept(c, q.row)
      ensures q.rejectionReason == Some(if q.row.userId.None? then MissingUserId else InvalidAmount)
    {
      var i :| 0 <= i < |f| && QuarantineEvents(c, rows)[i] == q;
      assert f[i] in f;
    }
  }

  /**
   * The amount of a candidate is 0 by fallback only when the bronze amount
   * was NULL; otherwise it is the parsed value. A present amount that does
   * not parse never yields a candidate at all.
   */
  lemma CandidateAmounts(c: Casts, rows: seq<BronzeEvent>)
    ensures var kept := Filter(EventWhere(c), rows);
      forall i :: 0 <= i < |kept| ==>
        && EventCandidates(c, rows)[i] == ValidateEvent(c, kept[i])
        && (kept[i].amount.None? ==> EventCandidates(c, rows)[i].amount == 0.0)
        && (kept[i].amount.Some? ==> c.double(kept[i].amount.value) == Some(EventCandidates(c, rows)[i].amount))
    ensures forall x :: x in rows && x.amount.Some? && c.double(x.amount.value).None? ==>
      x !in Filter(EventWhere(c), rows)
  {
    var kept := Filter(EventWhere(c), rows);
    forall i | 0 <= i < |kept|
      ensures kept[i].amount.Some? ==> c.double(kept[i].amount.value) == Some(EventCandidates(c, rows)[i].amount)
    {
      assert kept[i] in kept;
    }
  }

  /** Every clean event has a user. */
  lemma SilverEventsHaveUser(c: Casts, rows: seq<BronzeEvent>)
    ensures forall e :: e in EventCandidates(c, rows) ==> e.userId.Some?
    ensures forall e :: e in SilverEvents(c, rows) ==> e.userId.Some?
  {
    var kept := Filter(EventWhere(c), rows);
    var cands := EventCandidates(c, rows);
    forall e | e in cands ensures e.userId.Some? {
      var i :| 0 <= i < |cands| && cands[i] == e;
      assert kept[i] in kept;
    }
    forall e | e in SilverEvents(c, rows) ensures e.userId.Some? {
      LatestPerKeyIsLatest(SilverEventId, SilverEventTs, cands, e);
    }
  }

  /**
   * `silver_events` keeps exactly one row per distinct event id among the
   * candidates.
   */
  lemma SilverEventsOnePerId(c: Casts, rows: seq<BronzeEvent>)
    ensures NoDup(Project(SilverEventId, SilverEvents(c, rows)))
    ensures forall x :: x in EventCandidates(c, rows) ==> x.eventId in Project(SilverEventId, SilverEvents(c, rows))
    ensures |SilverEvents(c, rows)| == |KeysOf(SilverEventId, EventCandidates(c, rows))|
  {
    LatestPerKeyUnique(SilverEventId, SilverEventTs, EventCandidates(c, rows));
  }

  /**
   * The survivor of an event id is a candidate whose `event_ts` is at least
   * that of every candidate with the same id (a NULL `event_ts` survives
   * only when all of them are NULL).
   */
  lemma SilverEventsLatest(c: Casts, rows: seq<BronzeEvent>, y: SilverEvent)
    requires y in SilverEvents(c, rows)
    ensures y in EventCandidates(c, rows)
    ensures forall x :: x in EventCandidates(c, rows) && x.eventId == y.eventId && x.eventTs.Some? ==>
      y.eventTs.Some? && x.eventTs.value <= y.eventTs.value
  {
    LatestPerKeyIsLatest(SilverEventId, SilverEventTs, EventCandidates(c, rows), y);
  }

  // --------------- the timestamp COALESCE as written (see README, Findings)

  /**
   * The timestamp expression as the statement writes it: `strptime` (unlike
   * `try_strptime`) raises on a text that does not fit its layout, and the
   * raise aborts the statement, so the third reading can only be reached by
   * texts the first two already read.
   */
  function NormaliseTimestampAsWritten(c: Casts, ts: Option<string>): (r: Result<Option<Timestamp>>)
    ensures r.Err? <==> ts.Some? && c.timestamp(ts.value).None? && Strptime(ts.value, SpaceLayout).None?
    ensures r.Ok? ==> r.value == NormaliseTimestamp(c, ts)
  {
    match ts
    case None => Ok(None)
    case Some(s) =>
      if c.timestamp(s).Some? then Ok(c.timestamp(s))
      else if Strptime(s, SpaceLayout).Some? then Ok(Strptime(s, SpaceLayout))
      else Err("Invalid Input Error: could not parse string according to format specifier")
  }

  /**
   * A text the engine's own cast misses and which is not in the space layout
   * aborts the statement as written, where the intended chain gives the
   * Zulu reading or NULL; "01/02/2026 10:00" is one such text.
   */
  lemma AsWrittenAborts(c: Casts, s: string)
    requires c.timestamp(s).None?
    requires Strptime(s, SpaceLayout).None?
    ensures NormaliseTimestampAsWritten(c, Some(s)).Err?
    ensures NormaliseTimestamp(c, Some(s)) == Strptime(s, ZuluLayout)
  {
  }

  lemma AsWrittenAbortsOnSlashDate(c: Casts)
    requires c.timestamp("01/02/2026 10:00").None?
    ensures NormaliseTimestampAsWritten(c, Some("01/02/2026 10:00")).Err?
    ensures NormaliseTimestamp(c, Some("01/02/2026 10:00")).None?
  {
    assert !Shaped("01/02/2026 10:00", SpaceLayout);
    assert !Shaped("01/02/2026 10:00", ZuluLayout);
  }

  /**
   * The SELECT list of `silver_events` as written, over rows that passed its
   * WHERE clause: the first row whose timestamp chain raises aborts the
   * statement; otherwise each row is that row's clean event.
   */
  function SelectEventsAsWritten(c: Casts, kept: seq<BronzeEvent>): (r: Result<seq<SilverEvent>>)
    ensures r.Err? <==> exists x :: x in kept && NormaliseTimestampAsWritten(c, x.timestamp).Err?
    ensures r.Ok? ==> r.value == Project(ValidateIn(c), kept)
  {
    if kept == [] then Ok([])
    else
      var x := kept[0];
      assert x in kept;
      match NormaliseTimestampAsWritten(c, x.timestamp)
      case Err(m) => Err(m)
      case Ok(ts) =>
        match SelectEventsAsWritten(c, kept[1..])
        case Err(m) =>
          assert exists y :: y in kept[1..] && NormaliseTimestampAsWritten(c, y.timestamp).Err?;
          Err(m)
        case Ok(rest) =>
          assert forall y :: y in kept ==> y == x || y in kept[1..];
          Ok([SilverEvent(x.eventId, x.userId, x.eventType, ts, CoalesceAmount(c, x.amount), x.currency, x.refersToEventId)] + rest)
  }

  /**
   * `silver_events` as written: it aborts exactly when a row that passes the
   * WHERE clause has a timestamp text that neither the native cast nor the
   * space layout reads; otherwise it is the intended table.
   */
  function SilverEventsAsWritten(c: Casts, rows: seq<BronzeEvent>): (r: Result<seq<SilverEvent>>)
    ensures r.Err? <==> exists x :: x in rows && EventKept(c, x) && NormaliseTimestampAsWritten(c, x.timestamp).Err?
    ensures r.Ok? ==> r.value == SilverEvents(c, rows)
  {
    var kept := Filter(EventWhere(c), rows);
    assert forall x :: x in kept <==> x in rows && EventKept(c, x);
    match SelectEventsAsWritten(c, kept)
    case Err(m) => Err(m)
    case Ok(candidates) => Ok(LatestPerKey(SilverEventId, SilverEventTs, candidates))
  }

  // -------------------------------------------------------- subscriptions

  /** A row of `bronze_subscriptions`; `silver_subscriptions` keeps the same columns. */
  datatype Subscription = Subscription(
    subscriptionId: Option<string>, price: Option<real>,
    createdAt: Option<Timestamp>, status: Option<string>)

  /** A row of `quarantine_subscriptions`. */
  datatype QuarantinedSubscription = QuarantinedSubscription(row: Subscription, rejectionReason: string)

  const MissingIdOrPrice: string := "Missing critical ID or price"

  predicate SubscriptionKept(r: Subscription) {
    r.subscriptionId.Some? && r.price.Some?
  }

  predicate SubscriptionQuarantined(r: Subscription) {
    r.subscriptionId.None? || r.price.None?
  }

  function AuditSubscription(r: Subscription): QuarantinedSubscription {
    QuarantinedSubscription(r, MissingIdOrPrice)
  }

  function QuarantinedSubscriptionRow(q: QuarantinedSubscription): Subscription { q.row }

  function SubscriptionId(r: Subscription): Option<string> { r.subscriptionId }

  function SubscriptionCreatedAt(r: Subscription): Option<Timestamp> { r.createdAt }

  /** `quarantine_subscriptions`. */
  function QuarantineSubscriptions(rows: seq<Subscription>): seq<QuarantinedSubscription> {
    Project(AuditSubscription, Filter(SubscriptionQuarantined, rows))
  }

  /** `silver_subscriptions`: one kept row per id, the one created last. */
  function SilverSubscriptions(rows: seq<Subscription>): seq<Subscription> {
    LatestPerKey(SubscriptionId, SubscriptionCreatedAt, Filter(SubscriptionKept, rows))
  }

  /**
   * A subscription is quarantined, always with the one reason, exactly when
   * its id or its price is missing; every other row is a candidate.
   */
  lemma SubscriptionPartition(rows: seq<Subscription>)
    ensures multiset(Filter(SubscriptionKept, rows))
          + multiset(Project(QuarantinedSubscriptionRow, QuarantineSubscriptions(rows))) == multiset(rows)
    ensures forall q :: q in QuarantineSubscriptions(rows) ==>
      q.row in rows && (q.row.subscriptionId.None? || q.row.price.None?) && q.rejectionReason == MissingIdOrPrice
  {
    FilterPartition(SubscriptionKept, SubscriptionQuarantined, rows);
    AuditedRows(AuditSubscription, QuarantinedSubscriptionRow, Filter(SubscriptionQuarantined, rows));
    var f := Filter(SubscriptionQuarantined, rows);
    forall q | q in QuarantineSubscriptions(rows)
      ensures q.row in rows && (q.row.subscriptionId.None? || q.row.price.None?)
    {
      var i :| 0 <= i < |f| && QuarantineSubscriptions(rows)[i] == q;
      assert f[i] in f;
    }
  }

  /**
   * `silver_subscriptions` holds bronze rows with id and price, one per id
   * and every candidate id represented, each created no earlier than any
   * candidate with its id.
   */
  lemma SilverSubscriptionsLatest(rows: seq<Subscription>)
    ensures NoDup(Project(SubscriptionId, SilverSubscriptions(rows)))
    ensures forall x :: x in rows && SubscriptionKept(x) ==> x.subscriptionId in Project(SubscriptionId, SilverSubscriptions(rows))
    ensures forall y :: y in SilverSubscriptions(rows) ==>
      && y in rows && SubscriptionKept(y)
      && forall x :: x in rows && SubscriptionKept(x) && x.subscriptionId == y.subscriptionId && x.createdAt.Some? ==>
           y.createdAt.Some? && x.createdAt.value <= y.createdAt.value
  {
    var kept := Filter(SubscriptionKept, rows);
    LatestPerKeyUnique(SubscriptionId, SubscriptionCreatedAt, kept);
    forall x | x in rows && SubscriptionKept(x)
      ensures x.subscriptionId in Project(SubscriptionId, SilverSubscriptions(rows))
    {
      assert x in kept;
    }
    forall y | y in SilverSubscriptions(rows)
      ensures y in rows && SubscriptionKept(y)
      ensures forall x :: x in rows && SubscriptionKept(x) && x.subscriptionId == y.subscriptionId && x.createdAt.Some? ==>
           y.createdAt.Some? && x.createdAt.value <= y.createdAt.value
    {
      SubscriptionIsLatest(rows, y);
    }
  }

  lemma SubscriptionIsLatest(rows: seq<Subscription>, y: Subscription)
    requires y in SilverSubscriptions(rows)
    ensures y in rows && SubscriptionKept(y)
    ensures forall x :: x in rows && SubscriptionKept(x) && x.subscriptionId == y.subscriptionId && x.createdAt.Some? ==>
      y.createdAt.Some? && x.createdAt.value <= y.createdAt.value
  {
    var kept := Filter(SubscriptionKept, rows);
    LatestPerKeyIsLatest(SubscriptionId, SubscriptionCreatedAt, kept, y);
    forall x | x in rows && SubscriptionKept(x) && x.subscriptionId == y.subscriptionId && x.createdAt.Some?
      ensures y.createdAt.Some? && x.createdAt.value <= y.createdAt.value
    {
      assert x in kept;
      assert !RankLt(y.createdAt, x.createdAt);
    }
  }

  // ------------------------------------------------------------ the stage

  /** The six tables `run_silver` creates. */
  datatype SilverTables = SilverTables(
    marketing: seq<MarketingRow>, quarantineMarketing: seq<QuarantinedMarketing>,
    events: seq<SilverEvent>, quarantineEvents: seq<QuarantinedEvent>,
    subscriptions: seq<Subscription>, quarantineSubscriptions: seq<QuarantinedSubscription>)

  /**
   * `run_silver` as written: the statements run in order, so it fails with
   * the marketing error when `silver_marketing` aborts, and otherwise fails
   * exactly when `silver_events` aborts.
   */
  function RunSilver(c: Casts, marketing: seq<BronzeMarketing>, events: seq<BronzeEvent>, subscriptions: seq<Subscription>)
    : (r: Result<SilverTables>)
    ensures r.Err? <==> (SilverMarketing(c, marketing).Err?
      || exists x :: x in events && EventKept(c, x) && NormaliseTimestampAsWritten(c, x.timestamp).Err?)
    ensures SilverMarketing(c, marketing).Err? ==> r == Err(SilverMarketing(c, marketing).message)
    ensures r.Ok? ==> r.value.marketing == SilverMarketing(c, marketing).value
    ensures r.Ok? ==> r.value.quarantineMarketing == QuarantineMarketing(c, marketing)
    ensures r.Ok? ==> r.value.events == SilverEvents(c, events)
    ensures r.Ok? ==> r.value.quarantineEvents == QuarantineEvents(c, events)
    ensures r.Ok? ==> r.value.subscriptions == SilverSubscriptions(subscriptions)
    ensures r.Ok? ==> r.value.quarantineSubscriptions == QuarantineSubscriptions(subscriptions)
  {
    match SilverMarketing(c, marketing)
    case Err(m) => Err(m)
    case Ok(t) =>
      match SilverEventsAsWritten(c, events)
      case Err(m) => Err(m)
      case Ok(clean) =>
        Ok(SilverTables(
          t, QuarantineMarketing(c, marketing),
          clean, QuarantineEvents(c, events),
          SilverSubscriptions(subscriptions), QuarantineSubscriptions(subscriptions)))
  }

  /** `run_silver` with the corrected timestamp chain: fails exactly when `silver_marketing` fails. */
  function RunSilverIntended(c: Casts, marketing: seq<BronzeMarketing>, events: seq<BronzeEvent>, subscriptions: seq<Subscription>)
    : (r: Result<SilverTables>)
    ensures r.Err? <==> SilverMarketing(c, marketing).Err?
    ensures SilverMarketing(c, marketing).Err? ==> r == Err(SilverMarketing(c, marketing).message)
    ensures r.Ok? ==> r.value.marketing == SilverMarketing(c, marketing).value
    ensures r.Ok? ==> r.value.quarantineMarketing == QuarantineMarketing(c, marketing)
    ensures r.Ok? ==> r.value.events == SilverEvents(c, events)
    ensures r.Ok? ==> r.value.quarantineEvents == QuarantineEvents(c, events)
    ensures r.Ok? ==> r.value.subscriptions == SilverSubscriptions(subscriptions)
    ensures r.Ok? ==> r.value.quarantineSubscriptions == QuarantineSubscriptions(subscriptions)
  {
    match SilverMarketing(c, marketing)
    case Err(m) => Err(m)
    case Ok(t) =>
      Ok(SilverTables(
        t, QuarantineMarketing(c, marketing),
        SilverEvents(c, events), QuarantineEvents(c, events),
        SilverSubscriptions(subscriptions), QuarantineSubscriptions(subscriptions)))
  }

  /** When no kept event has a timestamp the chain as written rejects, the stage as written is the corrected stage. */
  lemma RunSilverAgrees(c: Casts, marketing: seq<BronzeMarketing>, events: seq<BronzeEvent>, subscriptions: seq<Subscription>)
    requires forall x :: x in events && EventKept(c, x) ==> NormaliseTimestampAsWritten(c, x.timestamp).Ok?
    ensures RunSilver(c, marketing, events, subscriptions) == RunSilverIntended(c, marketing, events, subscriptions)
  {
  }

  /**
   * A single kept event whose timestamp the chain as written rejects makes
   * the whole stage fail, where the corrected stage succeeds on the same
   * tables.
   */
  lemma RunSilverAbortsOnEvent(c: Casts, ev: BronzeEvent)
    requires EventKept(c, ev) && NormaliseTimestampAsWritten(c, ev.timestamp).Err?
    ensures RunSilver(c, [], [ev], []).Err?
    ensures RunSilverIntended(c, [], [ev], []).Ok?
  {
    assert ev in [ev];
    assert Filter(MarketingWhere(c), []) == [];
  }

  /** For example an event with a user, no amount and the timestamp "01/02/2026 10:00". */
  lemma RunSilverAbortsOnSlashDate(c: Casts, ev: BronzeEvent)
    requires c.timestamp("01/02/2026 10:00").None?
    requires ev.userId.Some? && ev.amount.None? && ev.timestamp == Some("01/02/2026 10:00")
    ensures RunSilver(c, [], [ev], []).Err?
    ensures RunSilverIntended(c, [], [ev], []).Ok?
  {
    AsWrittenAbortsOnSlashDate(c);
    RunSilverAbortsOnEvent(c, ev);
  }
}
