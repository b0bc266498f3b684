# Silver and gold stages of the batch metrics pipeline

This project models the two transformation stages of a small DuckDB batch
pipeline and proves properties of them.

- `run_silver` (src/silver.py) splits each raw bronze table into a clean
  table and a quarantine table. Every quarantined row carries a rejection
  reason. The stage also coerces numbers, normalises timestamps and keeps
  one survivor per key.
- `run_gold` (src/gold.py) computes eight tables from the clean tables,
  all over human (non-bot) events only:
  - daily active users, daily gross revenue and daily net revenue;
  - MRR per month;
  - weekly cohort retention;
  - CAC per channel;
  - LTV per user;
  - the LTV/CAC ratio.

Every SQL statement is a filter, projection, window rank, join or
aggregate over a relation. Each one is modelled as a pure function over
`seq` of rows. The model uses these representations:

- SQL NULL is `Option`.
- A statement that raises is `Result.Err`.
- A timestamp is an `int` count of seconds since 1970-01-01 00:00:00.
- A date is an `int` count of days since 1970-01-01.
- Money is `real`.

The modules are:

- `Wrappers`: `Option` and `Result`.
- `Relational`: the relational operators as generic functions, with their laws:
  - `WHERE` (`Filter`), the select list (`Project`), `SUM`, `DISTINCT`;
  - `COUNT(DISTINCT)`, `SUM` and `AVG` over nullable values;
  - `GROUP BY` (`GroupBy`, `GroupSum`), `ORDER BY` (`SortBy`, an insertion sort);
  - `QUALIFY ROW_NUMBER() OVER (PARTITION BY k ORDER BY t DESC) = 1` (`LatestPerKey`).
- `Calendar`: civil dates to day numbers and back (the inverse is proved), days of instants, `date_trunc('week')` and `date_trunc('month')`.
- `TimestampFormats`: the two fixed `strptime` layouts `%Y-%m-%d %H:%M:%S` and `%Y-%m-%dT%H:%M:%SZ`, as concrete printers and parsers with round-trip lemmas.
- `Silver`: the five statements of `run_silver`, and the stage as a whole.
- `Gold`: the eight statements of `run_gold`, and the stage as a whole.
- `Fixtures`: the repository's test fixtures as concrete tables, and what the model computes on them. The event table holds all 29 rows of tests/test_silver.py:29-43: the four hand-written rows and the 25-row bot burst.

DuckDB's own casts cannot be modelled concretely. These are:

- `try_cast(x AS DOUBLE)`;
- `try_cast(x AS TIMESTAMP)`;
- the strict `x::DATE`.

They are a parameter `Silver.Casts`: three function values that every
silver function takes. Every result holds for every engine. The fixture
lemmas state, as `Fixtures.ReadsFixture`, exactly what they need of the
engine on the fixture texts.

Where the statements and the rest of the repository disagree, the model follows the statements:

- **Marketing dedup.** The test at tests/test_silver.py:57-61 expects the exact duplicate marketing row of tests/test_silver.py:14-15 to collapse to one clean row. The statement at src/silver.py:16-21 has no `DISTINCT`, so the model keeps both copies, and `Fixtures.MarketingOnFixture` shows two clean rows on that fixture.
- **Bot flag.** The test at tests/test_silver.py:39-49 expects a burst of 25 events from one user in one second to come out of `silver_events` with `is_bot` true, and the docstring at src/gold.py:5 speaks of flagged bots. `silver_events` has no `is_bot` column (src/silver.py:49-52), yet src/gold.py:11 filters on one. The gold model therefore takes `isBot` as an input field of `Gold.Event`.
- **Subscription reason text.** The comment at src/silver.py:70 speaks of a missing ID or price; the statement writes the reason "Missing critical ID or price" (src/silver.py:73), and the model uses that text.
- **Marketing date cast.** The marketing date cast is the strict `date::DATE` (src/silver.py:18). An unreadable date in a row that passed the WHERE clause therefore aborts the whole statement; it does not quarantine the row.
- **Timestamp chain.** The test at tests/test_silver.py:63-67 expects every timestamp spelling of the fixture to be read. As written, the chain at src/silver.py:39-43 aborts the statement on a text that neither the native cast nor the space layout reads (see Findings). `Silver.RunSilver` models the stage as written; `Silver.RunSilverIntended` is the stage with the corrected chain.

Chosen rules where the engine leaves the order open:

- `ORDER BY ... DESC` ranks NULL lowest. It places the NULL after every value, in both ascending and descending orders.
- Among rows that tie on the ranking timestamp, `ROW_NUMBER` keeps the earliest in input order.

## Model

| member | source | states |
|---|---|---|
| Silver.TryCastDouble | src/silver.py:18-20 | NULL in gives NULL out; otherwise the engine's DOUBLE reading of the text |
| Silver.CastDate | src/silver.py:18 | the strict `::DATE` cast fails (the statement aborts) exactly when a present text does not read as a date; NULL stays NULL |
| Silver.MarketingWhereComplement | src/silver.py:20-31 | the quarantine WHERE clause holds exactly when the clean WHERE clause fails |
| Silver.MarketingReason | src/silver.py:26-29 | the CASE gives "Non-numeric spend" when the spend does not parse (checked first), "Negative spend" when it parses below 0, and NULL exactly when the row is not quarantined |
| Silver.SelectMarketing | src/silver.py:17-18 | over rows that passed the WHERE clause: succeeds exactly when every date casts, and then row i is the cast date, the channel and the parsed spend of input row i |
| Silver.MarketingPartition | src/silver.py:16-32 | the clean rows and the quarantined rows together are exactly the bronze rows, as multisets; when the statement succeeds the two row counts add up to the bronze count |
| Silver.SilverMarketingSpend | src/silver.py:16-21 | the statement aborts exactly when a kept row has an unreadable date; otherwise every clean row comes from a bronze row with the same channel, and its spend is that row's parsed spend and is at least 0 |
| Silver.MarketingReasons | src/silver.py:24-32 | every quarantined marketing row is a bronze row that fails the clean filter, and its reason is non-numeric when the spend does not parse and negative otherwise |
| Silver.AuditedRows | src/silver.py:26 | `SELECT *, reason`: dropping the reason column from the audit rows gives back the filtered bronze rows |
| Silver.EventWhereComplement | src/silver.py:46-47 | an event is quarantined exactly when its user is NULL or its amount is present and does not parse, and it is a candidate exactly when it is not quarantined |
| Silver.NormaliseTimestamp | src/silver.py:39-43 | the COALESCE yields the first reading that succeeds: the native cast, then the space layout, then the Zulu layout; it is NULL exactly when all three fail |
| Silver.NormaliseLayouts | src/silver.py:39-43 | a text in either fixed layout always normalises to a non-NULL instant, and to the instant it spells when the native cast does not read it |
| Silver.CoalesceAmount | src/silver.py:44-51 | the amount is the parsed value when it parses, and 0 when the parse gives NULL |
| Silver.CandidateAmounts | src/silver.py:44-51 | a candidate's amount is 0 by fallback only when the bronze amount was NULL, and the parsed value otherwise; a present amount that does not parse, such as "ten", never yields a candidate |
| Silver.EventReason | src/silver.py:60-63 | the CASE gives "Missing user_id" whenever the user is NULL, also when the amount is bad too; it gives the invalid-amount reason for every other quarantined row, and NULL for rows that are not quarantined |
| Silver.EventPartition | src/silver.py:35-67 | the candidates and the quarantined events together are exactly the bronze events, as multisets and in count |
| Silver.EventReasons | src/silver.py:58-67 | every quarantined event is a bronze row that is not a candidate, with the reason the CASE assigns |
| Silver.SilverEventsHaveUser | src/silver.py:46 | every candidate and every clean event has a user id |
| Silver.SilverEventsOnePerId | src/silver.py:54 | `silver_events` has no two rows with the same event id, every candidate id is present, and the row count is the number of distinct candidate ids |
| Silver.SilverEventsLatest | src/silver.py:54 | each clean event is a candidate whose `event_ts` is at least that of every candidate with the same id; a NULL `event_ts` survives only when every such timestamp is NULL |
| Silver.NormaliseTimestampAsWritten | src/silver.py:39-43 | the COALESCE as written aborts exactly when the native cast and the space-layout `strptime` both fail on a present text; otherwise it agrees with the corrected chain |
| Silver.AsWrittenAborts | src/silver.py:41-42 | on any text outside the native cast and the space layout, the chain as written aborts where the corrected chain gives the Zulu reading |
| Silver.AsWrittenAbortsOnSlashDate | src/silver.py:39-43 | "01/02/2026 10:00" aborts the statement as written, and the corrected chain reads it as NULL |
| Silver.SubscriptionPartition | src/silver.py:71-84 | the subscriptions kept and those quarantined together are exactly the bronze rows, as multisets; every quarantined row has a NULL id or a NULL price and the reason "Missing critical ID or price" |
| Silver.SilverSubscriptionsLatest | src/silver.py:79-84 | the clean subscriptions have distinct ids and cover the id of every row with a non-NULL id and price; each one is such a row, with a `created_at` at least that of every such row with its id |
| Silver.SelectEventsAsWritten | src/silver.py:38-53 | over rows that passed the WHERE clause: the statement as written aborts exactly when some row's timestamp chain raises; otherwise row i is the clean event of input row i |
| Silver.SilverEventsAsWritten | src/silver.py:35-55 | `silver_events` as written aborts exactly when a row that passes its WHERE clause has a timestamp text that neither the native cast nor the space layout reads; otherwise it is the table `Silver.SilverEvents` describes |
| Silver.RunSilver | src/silver.py:3-84 | the stage as written fails with the marketing error when `silver_marketing` aborts, and otherwise fails exactly when `silver_events` aborts; when it succeeds its six tables are the six statement functions |
| Silver.RunSilverIntended | src/silver.py:3-84 | with the corrected timestamp chain the stage fails exactly when the marketing statement aborts; it then fails with the marketing error; otherwise its six tables, clean and quarantine, are the six statement functions |
| Silver.RunSilverAgrees | src/silver.py:35-55 | when no kept event has a timestamp the chain as written rejects, the stage as written and the corrected stage give the same result |
| Silver.RunSilverAbortsOnEvent | src/silver.py:35-55 | one kept event whose timestamp the chain as written rejects makes the whole stage fail, while the corrected stage succeeds on the same tables |
| Silver.RunSilverAbortsOnSlashDate | src/silver.py:39-43 | an event with a user, no amount and the timestamp "01/02/2026 10:00" makes the stage as written fail and the corrected stage succeed, whenever the native cast misses that text |
| Silver.SilverMarketing | src/silver.py:16-21 | `silver_marketing`, the SELECT list over the WHERE clause; what it computes is stated by `Silver.SelectMarketing` and `Silver.SilverMarketingSpend` |
| Silver.QuarantineMarketing | src/silver.py:24-32 | `quarantine_marketing`; its rows and reasons are stated by `Silver.MarketingReasons` and `Silver.MarketingPartition` |
| Silver.ValidateEvent | src/silver.py:38-52 | the select list of `silver_events` on one row; its timestamp is stated by `Silver.NormaliseTimestamp` and its amount by `Silver.CoalesceAmount` |
| Silver.EventCandidates | src/silver.py:37-48 | the `validated` rows; `Silver.EventPartition`, `Silver.CandidateAmounts` and `Silver.SilverEventsHaveUser` state which rows they are and what they hold |
| Silver.SilverEvents | src/silver.py:35-55 | `silver_events` with the corrected chain; `Silver.SilverEventsOnePerId` and `Silver.SilverEventsLatest` state its survivors |
| Silver.QuarantineEvents | src/silver.py:58-67 | `quarantine_events`; `Silver.EventReasons` and `Silver.EventPartition` state its rows and reasons |
| Silver.QuarantineSubscriptions | src/silver.py:71-76 | `quarantine_subscriptions`; `Silver.SubscriptionPartition` states its rows and reason |
| Silver.SilverSubscriptions | src/silver.py:79-84 | `silver_subscriptions`; `Silver.SilverSubscriptionsLatest` states its survivors |
| Relational.Filter | src/silver.py:20 | `WHERE` keeps exactly the rows that satisfy the predicate, never more rows than it had, each no more often than before |
| Relational.FilterPartition | src/silver.py:20-31 | two complementary WHERE clauses split a table: the two results together are the table, as multisets |
| Relational.Distinct | src/gold.py:61 | `SELECT DISTINCT` has no repeated row and the same rows as its input |
| Relational.CountDistinctIsSetSize | src/gold.py:16 | `COUNT(DISTINCT x)` is the size of the set of non-NULL values |
| Relational.CountDistinctZero | src/gold.py:77 | `COUNT(DISTINCT x)` is 0 exactly when every value is NULL |
| Relational.SqlSum | src/gold.py:46 | `SUM` is NULL exactly when every value is NULL, and otherwise the sum of the non-NULL values |
| Relational.SqlAvg | src/gold.py:99-100 | `AVG` is NULL exactly when there is no non-NULL value, and otherwise it times the count of non-NULL values is their sum |
| Relational.SqlMin | src/gold.py:57 | `MIN` is NULL exactly when every value is NULL; otherwise it is one of the values and at most every non-NULL value |
| Relational.GroupSumTotal | src/gold.py:33-41 | summing a `GROUP BY ... SUM` table over keys that cover the input each once gives the sum over the whole input |
| Relational.SortBySorted | src/gold.py:19 | `ORDER BY` under a total preorder really sorts |
| Relational.GroupBy | src/gold.py:16-18 | `GROUP BY` yields one row per requested key, in the order of the keys; row i holds key i and the aggregate of exactly the input rows with that key |
| Relational.GroupSum | src/gold.py:25-28 | `SUM ... GROUP BY` yields one row per requested key, in the order of the keys; row i holds key i and the sum over exactly the input rows with that key |
| Relational.LatestPerKey | src/silver.py:54 | `QUALIFY ROW_NUMBER() ... = 1`; its survivors are stated by `Relational.LatestPerKeyUnique` and `Relational.LatestPerKeyIsLatest` |
| Relational.SortBy | src/gold.py:19 | `ORDER BY` permutes: the sorted table has the same rows, each as often, and the same length |
| Relational.LatestPerKeyUnique | src/silver.py:54 | the `ROW_NUMBER() = 1` survivors have distinct keys, every key of the input survives, and there is one survivor per distinct key |
| Relational.LatestPerKeyIsLatest | src/silver.py:54 | a survivor is an input row whose rank no row with its key exceeds |
| Calendar.CivilFromDays | src/gold.py:46 | the civil date of a day number is a valid date whose day number is that number |
| Calendar.CivilRoundTrip | src/gold.py:46 | reading the day number of a valid civil date back gives the same date |
| Calendar.DayOf | src/gold.py:16 | `ts::DATE` is the day whose 86400 seconds contain the instant, rounding down also before 1970 |
| Calendar.DayOfTimestampAt | src/gold.py:16 | `event_ts::DATE` of the instant at h:m:s on day d is d |
| Calendar.WeekStart | src/gold.py:57 | `date_trunc('week')` on a day number; `Calendar.WeekStartFacts` states its properties |
| Calendar.WeekStartFacts | src/gold.py:57 | `date_trunc('week')` gives a Monday on or at most 6 days before the date, and truncating again changes nothing |
| Calendar.MonthStart | src/gold.py:46 | `date_trunc('month')` on a day number; `Calendar.MonthStartOfCivil` and `Calendar.MonthStartFacts` state its properties |
| Calendar.MonthStartOfCivil | src/gold.py:46 | `date_trunc('month')` of a valid civil date is day 1 of the same month and year |
| Calendar.MonthStartFacts | src/gold.py:46 | `date_trunc('month')` lies on or less than 31 days before the date, and truncating again changes nothing |
| TimestampFormats.Strptime | src/silver.py:41-42 | `strptime` with one fixed layout, NULL where the text does not fit; `TimestampFormats.StrptimeExact` and `TimestampFormats.FormatParse` state that it inverts the layout's printing |
| TimestampFormats.StrptimeExact | src/silver.py:41-42 | parsing a layout's own printing of a valid date-time gives that instant |
| TimestampFormats.FormatParse | src/silver.py:41-42 | a text that parses is exactly the layout's printing of the fields it parsed to |
| TimestampFormats.LayoutsDisjoint | src/silver.py:41-42 | no text fits both layouts |
| Gold.DateKeysFacts | src/gold.py:18-19 | the `GROUP BY` date keys are the dates present, each once, strictly ascending with NULL last |
| Gold.DailyActiveUsers | src/gold.py:14-20 | `daily_active_users`; stated by `Gold.DailyActiveUsersRows` |
| Gold.DailyActiveUsersRows | src/gold.py:14-20 | one row per distinct human event date, ascending; each value is the number of distinct users with a human event that day |
| Gold.DailyRevenueGross | src/gold.py:23-30 | `daily_revenue_gross`; stated by `Gold.GrossRevenueRows` |
| Gold.GrossRevenueRows | src/gold.py:23-30 | one row per date with a human purchase, strictly ascending with NULL last; each value is the sum of that day's purchase amounts |
| Gold.SignedSum | src/gold.py:36-37 | the CASE sums to the purchase total minus the refund total, and other event types contribute 0 |
| Gold.DailyRevenueNet | src/gold.py:33-41 | `daily_revenue_net`; stated by `Gold.NetRevenueRows` |
| Gold.NetRevenueRows | src/gold.py:33-41 | one row per human event date, strictly ascending with NULL last; each value is that day's purchases minus that day's refunds |
| Gold.LtvPerUser | src/gold.py:85-93 | `ltv_per_user`; stated by `Gold.LtvPerUserRows` |
| Gold.LtvPerUserRows | src/gold.py:85-93 | one row per human user id, sorted by LTV descending; each value is that user's purchases minus refunds |
| Gold.NetTotalIsLtvTotal | src/gold.py:33-41 | the net revenue over all dates and the LTV over all users both total the signed amount of all human events |
| Gold.MrrMonthly | src/gold.py:44-51 | `mrr_monthly`; stated by `Gold.MrrRows` and `Gold.MrrIgnoresInactive` |
| Gold.MrrRows | src/gold.py:44-51 | one row per month in which an active subscription was created, ascending; each value is the SUM of the prices of that month's active subscriptions, and non-NULL when every price is |
| Gold.MrrIgnoresInactive | src/gold.py:48 | adding a subscription that is not `active` changes no row of `mrr_monthly` |
| Gold.JoinCohorts | src/gold.py:64-69 | the join pairs each activity of a user who has a signup with that user's signup week and week number, and only those |
| Gold.WeeklyCohortRetention | src/gold.py:54-72 | `weekly_cohort_retention`; stated by `Gold.CohortRows` |
| Gold.CohortKeysPresent | src/gold.py:64-70 | a (signup week, week number) key is joined exactly when some human event of a user with a signup falls that many weeks after the user's signup week |
| Gold.CohortRows | src/gold.py:54-72 | there is a row for a (signup week, week number) key exactly when some human event of a user with a signup falls that many weeks after the user's signup week; the rows are strictly ascending and each key appears once; each value is the number of distinct users active that many weeks after their signup week |
| Gold.EarliestSignup | src/gold.py:57-58 | a user's signup week is the week of one of their signup events |
| Gold.WeekZeroRetained | src/gold.py:66-67 | the users counted at week 0 of a cohort are exactly the users whose signup week it is |
| Gold.WeekZeroIsWholeCohort | src/gold.py:54-72 | every cohort has a week-0 row, and it counts the whole cohort |
| Gold.JoinSpend | src/gold.py:77-79 | the LEFT JOIN gives each marketing row at least one output row; each output row has the marketing row's channel and spend, and a non-NULL user only from a signup on that date; every signup on that date appears |
| Gold.JoinMarketing | src/gold.py:78-79 | the joined table holds exactly the rows of the per-row joins; how often each spend occurs is stated by `Gold.ChannelSpendTotal` |
| Gold.ChannelSpendTotal | src/gold.py:77-79 | `SUM(m.spend)` over a channel's joined rows is the sum, over that channel's marketing rows, of each spend repeated once per human signup on its date, or once when there is none |
| Gold.ChannelUserCount | src/gold.py:77-79 | `COUNT(DISTINCT e.user_id)` over a channel's joined rows is the number of different users of the human signups on that channel's dates |
| Gold.ChannelUsers | src/gold.py:77 | a channel's count of distinct signup users is 0 exactly when no signup with a user falls on any of its dates |
| Gold.CacByChannel | src/gold.py:75-82 | `cac_by_channel`; stated by `Gold.CacRows` |
| Gold.CacRows | src/gold.py:74-82 | every marketing channel appears exactly once, in CAC-descending order with NULL last; its CAC is NULL, never an error, exactly when no human signup with a user falls on its dates; otherwise it is the channel's spend, repeated per matching signup, divided by the number of different signup users |
| Gold.SpendMultiplicity | src/gold.py:77-79 | the join repeats a day's spend once per signup on that date, and once when there are none |
| Gold.LtvCacRatioOf | src/gold.py:96-103 | the single row of `ltv_cac_ratio` over given LTV and CAC tables; stated by `Gold.RatioNullCases` and `Gold.AverageCacNull` |
| Gold.RatioNullCases | src/gold.py:96-103 | the ratio is NULL exactly when the average CAC is NULL or 0; otherwise the ratio times the average CAC is the average LTV |
| Gold.AverageCacNull | src/gold.py:100 | the average CAC is NULL exactly when every channel's CAC is NULL |
| Gold.AverageOfRows | src/gold.py:99 | `AVG(user_ltv)` is NULL exactly on an empty table, and otherwise it is the LTV total divided by the number of users |
| Gold.AverageLtv | src/gold.py:99 | the average LTV is NULL exactly when there is no human event, and otherwise it is the signed total of all human events divided by the number of users |
| Gold.RunGold | src/gold.py:3-103 | `ltv_cac_ratio` is computed from the stage's own `ltv_per_user` and `cac_by_channel` tables |
| Gold.HumansDropBot | src/gold.py:11 | the human-events subquery is the same with or without a bot event |
| Gold.BotsIgnored | src/gold.py:11-103 | adding a bot event anywhere changes none of the eight gold tables |
| Gold.OnlyHumansCount | src/gold.py:11-103 | the gold tables computed from all events equal those computed from the human events alone |
| Fixtures.MarketingOnFixture | tests/test_silver.py:11-18 | on the marketing fixture the clean table holds both copies of the duplicated row; "-50" is quarantined as negative spend and "ten" as non-numeric spend |
| Fixtures.EventsOnFixture | tests/test_silver.py:29-43 | on the 29-row event fixture, the "ten" row is the one quarantined event, and its reason contains "ten" (the test at tests/test_silver.py:51-55); the other 28 rows, three hand-written and the 25 burst rows, are exactly the candidates, with NULL amounts as 0; every clean event has a non-NULL `event_ts`, 10:00 on 2026-01-01 or 11:00 on 2026-01-02 (the test at tests/test_silver.py:63-67); user "bot_1" has a clean event; the chain as written does not abort on any row |
| Fixtures.SubscriptionsOnFixture | tests/test_silver.py:21-26 | on the subscription fixture the row without an id is quarantined, and the other row is the whole clean table |
| Fixtures.NetRevenueOnFixture | tests/test_gold.py:8-26 | a purchase of 100 and a refund of 20 total 80 in daily net revenue, and 80 in LTV |
| Fixtures.MrrOnFixture | tests/test_gold.py:16-31 | the one active subscription 's1' at 50 (the row at tests/test_gold.py:16-17, the test at tests/test_gold.py:28-31) makes one month with an MRR of 50; the second clause is a case added beyond the fixture: a cancelled subscription at 99 beside it changes nothing |

## Left out

- src/bronze.py, src/process.py, src/query.py and src/querytable.py are not part of this model. They cover file loading, orchestration and diagnostic printing.
- The `print` calls and the count queries (src/silver.py:12, 86-91; src/gold.py:8, 105) are left out, because they only report.
- DuckDB's `try_cast` to DOUBLE and TIMESTAMP and its `::DATE` cast are parameters, not implementations. The model does not say which texts the engine accepts.
- Sums and averages are exact `real` arithmetic. IEEE double rounding is not modelled.
- Silver.TryCastDouble: non-finite DOUBLE readings are not modelled, because a reading is an `Option<real>`. DuckDB reads 'NaN' and 'Infinity', and NaN compares greater than every number, so src/silver.py:20 keeps such a spend, src/silver.py:31 never quarantines it, and src/silver.py:47 keeps such an amount, which then enters the gold sums.
- `strptime` is modelled for the exact fixed-width layouts. DuckDB also accepts some texts that these layouts do not, such as single-digit fields; those are not modelled.
- The week number divides the day difference between two week starts by 7. DuckDB's typing of `((a - s)/7)::INT` over intervals is not modelled, but the difference is always a multiple of 7, so the division is exact.
- NULL placement in `ORDER BY ... DESC` and the tie-break among equal ranking timestamps are chosen rules, described above, not claims about the engine.
- The bot-burst rule (more than 20 events from one user in one second) is not in the code, so it is not modelled. `Gold.Event.isBot` is an input.
- `Gold.Event` omits `event_id`, `currency` and `refers_to_event_id`, because no gold statement reads them.
- The physical clustering mentioned in src/gold.py:6 is not modelled beyond the logical `ORDER BY`.
- `CREATE OR REPLACE TABLE` is modelled as a function result. Replacing an existing table is not modelled.
- Silver.RunSilver: an abort is a bare `Err`. Each `con.execute` at src/silver.py:16-84 commits on its own, so when the `silver_events` statement aborts, `silver_marketing` and `quarantine_marketing` have already been replaced; the model does not return that partial effect.
- Silver.SilverSubscriptionsLatest: does not state which row survives among rows with equal `created_at`, because the engine leaves that open.
- Silver.SilverEventsLatest: does not state which row survives among rows with equal `event_ts`, for the same reason.
- `Calendar.Timestamp` counts whole seconds. DuckDB's TIMESTAMP keeps microseconds, so two candidates with the same `event_id` a fraction of a second apart are ordered by the engine but fall under the tie rule in the model.

## Findings

| source | as written | input that shows it | evidently intended | confidence | as-written member | corrected member |
|---|---|---|---|---|---|---|
| src/silver.py:39-43 | `strptime` (not `try_strptime`) raises on text that does not fit its layout. When the native cast fails, the space-layout `strptime` aborts the whole `silver_events` statement, and the Zulu reading is never reached. `Silver.RunSilver` models the stage with this chain, and `Silver.RunSilverAbortsOnSlashDate` shows the stage failing | a bronze event timestamp "01/02/2026 10:00", which the native TIMESTAMP cast does not read | each reading yields NULL on failure, so the COALESCE falls through to the next reading and `event_ts` is NULL only when all three fail | not executed; medium, since it depends on the native cast missing the text | Silver.NormaliseTimestampAsWritten | Silver.NormaliseTimestamp |
