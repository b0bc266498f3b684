/**
 * The metrics stage: eight aggregate tables over the clean tables, every
 * event-derived one restricted to events not flagged as bots.
 */
module Gold {
  import opened Wrappers
  import opened Calendar
  import opened Relational
  import Silver

  /**
   * A row of `silver_events` as the metrics read it. `isBot` is an input
   * here: the cleaning stage does not produce that column.
   */
  datatype Event = Event(
    userId: Option<string>, eventType: Option<string>,
    eventTs: Option<Timestamp>, amount: real, isBot: bool)

  /** `is_bot = FALSE` */
  predicate IsHuman(e: Event) { !e.isBot }

  /** The human-only events every event metric reads. */
  function Humans(events: seq<Event>): seq<Event> {
    Filter(IsHuman, events)
  }

  predicate IsPurchase(e: Event) { e.eventType == Some("purchase") }

  predicate IsRefund(e: Event) { e.eventType == Some("refund") }

  predicate IsSignup(e: Event) { e.eventType == Some("signup") }

  function UserIdOf(e: Event): Option<string> { e.userId }

  function EventTsOf(e: Event): Option<Timestamp> { e.eventTs }

  function Amount(e: Event): real { e.amount }

  /** `event_ts::DATE` */
  function EventDate(e: Event): Option<Date> {
    match e.eventTs
    case None => None
    case Some(t) => Some(DayOf(t))
  }

  /** The revenue CASE: purchases count positive, refunds negative, anything else 0. */
  function SignedAmount(e: Event): real {
    if IsPurchase(e) then e.amount
    else if IsRefund(e) then -e.amount
    else 0.0
  }

  /** Ascending order with NULL after every value, the order of every `ORDER BY` on a date or number here. */
  predicate NullsLastLe(a: Option<int>, b: Option<int>) {
    match (a, b)
    case (Some(x), Some(y)) => x <= y
    case (_, None) => true
    case (None, Some(_)) => false
  }

  lemma NullsLastLeOrder()
    ensures TotalPreorder(NullsLastLe) && Antisymmetric(NullsLastLe)
  {
  }

  /** The groups of `GROUP BY key ORDER BY key`, for a date or number key. */
  function DateKeys<T(==,!new)>(key: T -> Option<int>, s: seq<T>): seq<Option<int>> {
    SortBy(NullsLastLe, Distinct(Project(key, s)))
  }

  /** The group keys are the key values present, each once, strictly ascending. */
  lemma DateKeysFacts<T(!new)>(key: T -> Option<int>, s: seq<T>)
    ensures NoDup(DateKeys(key, s))
    ensures forall i, j :: 0 <= i < j < |DateKeys(key, s)| ==>
      NullsLastLe(DateKeys(key, s)[i], DateKeys(key, s)[j]) && DateKeys(key, s)[i] != DateKeys(key, s)[j]
    ensures forall k :: k in DateKeys(key, s) <==> exists x :: x in s && key(x) == k
  {
    NullsLastLeOrder();
    GroupKeysFacts(NullsLastLe, key, s);
    forall k | k in DateKeys(key, s) ensures exists x :: x in s && key(x) == k {
      ProjectMember(key, s, k);
    }
    forall x | x in s ensures key(x) in DateKeys(key, s) {
      ProjectOf(key, s, x);
    }
  }

  // ---------------------------------------------------- daily_active_users

  /** `COUNT(DISTINCT user_id)` */
  function DistinctUsers(g: seq<Event>): nat {
    CountDistinct(Project(UserIdOf, g))
  }

  /** The users, NULL aside, of the events of `s` on day `d`. */
  ghost function UsersOn(s: seq<Event>, d: Option<Date>): set<string> {
    set e | e in s && EventDate(e) == d && e.userId.Some? :: e.userId.value
  }

  /** `daily_active_users` */
  function DailyActiveUsers(events: seq<Event>): seq<Row<Option<Date>, nat>> {
    var h := Humans(events);
    GroupBy(EventDate, DistinctUsers, h, DateKeys(EventDate, h))
  }

  /**
   * One row per date on which a human event happened, dates strictly
   * ascending, each with the number of different users active that day.
   */
  lemma DailyActiveUsersRows(events: seq<Event>)
    ensures var dau := DailyActiveUsers(events);
      && NoDup(Project(RowKey, dau))
      && (forall i, j :: 0 <= i < j < |dau| ==> NullsLastLe(dau[i].key, dau[j].key) && dau[i].key != dau[j].key)
      && (forall d :: d in Project(RowKey, dau) <==> exists e :: e in Humans(events) && EventDate(e) == d)
      && (forall i :: 0 <= i < |dau| ==> dau[i].value == |UsersOn(Humans(events), dau[i].key)|)
  {
    var h := Humans(events);
    var dau := DailyActiveUsers(events);
    DateKeysFacts(EventDate, h);
    GroupByKeys(EventDate, DistinctUsers, h, DateKeys(EventDate, h));
    forall i | 0 <= i < |dau| ensures dau[i].value == |UsersOn(h, dau[i].key)| {
      var g := WithKey(EventDate, dau[i].key, h);
      CountDistinctIsSetSize(Project(UserIdOf, g));
      UsersOfGroup(g, h, dau[i].key);
    }
  }

  lemma UsersOfGroup(g: seq<Event>, h: seq<Event>, d: Option<Date>)
    requires g == WithKey(EventDate, d, h)
    ensures (set o | o in Project(UserIdOf, g) && o.Some? :: o.value) == UsersOn(h, d)
  {
    forall u | u in UsersOn(h, d) ensures u in (set o | o in Project(UserIdOf, g) && o.Some? :: o.value) {
      var e :| e in h && EventDate(e) == d && e.userId == Some(u);
      ProjectOf(UserIdOf, g, e);
    }
    forall o | o in Project(UserIdOf, g) && o.Some? ensures o.value in UsersOn(h, d) {
      ProjectMember(UserIdOf, g, o);
    }
  }

  // ----------------------------------------- daily revenue, gross and net

  /** `daily_revenue_gross` */
  function DailyRevenueGross(events: seq<Event>): seq<Row<Option<Date>, real>> {
    var p := Filter(IsPurchase, Humans(events));
    GroupSum(Amount, EventDate, p, DateKeys(EventDate, p))
  }

  /** `daily_revenue_net` */
  function DailyRevenueNet(events: seq<Event>): seq<Row<Option<Date>, real>> {
    var h := Humans(events);
    GroupSum(SignedAmount, EventDate, h, DateKeys(EventDate, h))
  }

  /**
   * Gross revenue has a row exactly for the dates holding a human purchase,
   * each the sum of that day's purchase amounts.
   */
  lemma GrossRevenueRows(events: seq<Event>)
    ensures var gross := DailyRevenueGross(events);
      && NoDup(Project(RowKey, gross))
      && (forall i, j :: 0 <= i < j < |gross| ==> NullsLastLe(gross[i].key, gross[j].key) && gross[i].key != gross[j].key)
      && (forall d :: d in Project(RowKey, gross) <==> exists e :: e in Humans(events) && IsPurchase(e) && EventDate(e) == d)
      && (forall i :: 0 <= i < |gross| ==>
            gross[i].value == Sum(Amount, WithKey(EventDate, gross[i].key, Filter(IsPurchase, Humans(events)))))
  {
    var p := Filter(IsPurchase, Humans(events));
    var keys := DateKeys(EventDate, p);
    var gross := DailyRevenueGross(events);
    DateKeysFacts(EventDate, p);
    GroupSumKeys(Amount, EventDate, p, keys);
    forall i, j | 0 <= i < j < |gross| ensures NullsLastLe(gross[i].key, gross[j].key) && gross[i].key != gross[j].key {
      assert gross[i].key == keys[i] && gross[j].key == keys[j];
    }
  }

  /** The signed sum is the purchases' sum minus the refunds' sum. */
  lemma {:induction false} SignedSum(s: seq<Event>)
    ensures Sum(SignedAmount, s) == Sum(Amount, Filter(IsPurchase, s)) - Sum(Amount, Filter(IsRefund, s))
  {
    if s != [] {
      SignedSum(s[1..]);
    }
  }

  /**
   * Net revenue has a row for every date holding a human event; its value is
   * that day's purchases minus that day's refunds.
   */
  lemma NetRevenueRows(events: seq<Event>)
    ensures var net := DailyRevenueNet(events);
      && NoDup(Project(RowKey, net))
      && (forall i, j :: 0 <= i < j < |net| ==> NullsLastLe(net[i].key, net[j].key) && net[i].key != net[j].key)
      && (forall d :: d in Project(RowKey, net) <==> exists e :: e in Humans(events) && EventDate(e) == d)
      && (forall i :: 0 <= i < |net| ==>
            var day := WithKey(EventDate, net[i].key, Humans(events));
            net[i].value == Sum(Amount, Filter(IsPurchase, day)) - Sum(Amount, Filter(IsRefund, day)))
  {
    var h := Humans(events);
    var net := DailyRevenueNet(events);
    var keys := DateKeys(EventDate, h);
    DateKeysFacts(EventDate, h);
    GroupSumKeys(SignedAmount, EventDate, h, keys);
    forall i, j | 0 <= i < j < |net| ensures NullsLastLe(net[i].key, net[j].key) && net[i].key != net[j].key {
      assert net[i].key == keys[i] && net[j].key == keys[j];
    }
    forall i | 0 <= i < |net|
      ensures var day := WithKey(EventDate, net[i].key, h);
        net[i].value == Sum(Amount, Filter(IsPurchase, day)) - Sum(Amount, Filter(IsRefund, day))
    {
      SignedSum(WithKey(EventDate, net[i].key, h));
    }
  }

  // ---------------------------------------------------------- ltv_per_user

  /** `ORDER BY user_ltv DESC` */
  predicate LtvGe(a: Row<Option<string>, real>, b: Row<Option<string>, real>) {
    a.value >= b.value
  }

  /** The per-user rows before ORDER BY. */
  function LtvGroups(h: seq<Event>): seq<Row<Option<string>, real>> {
    GroupSum(SignedAmount, UserIdOf, h, Distinct(Project(UserIdOf, h)))
  }

  /** `ltv_per_user` */
  function LtvPerUser(events: seq<Event>): seq<Row<Option<string>, real>> {
    SortBy(LtvGe, LtvGroups(Humans(events)))
  }

  lemma LtvGroupsFacts(h: seq<Event>)
    ensures NoDup(Project(RowKey, LtvGroups(h)))
    ensures forall u :: u in Project(RowKey, LtvGroups(h)) <==> exists e :: e in h && e.userId == u
    ensures forall r :: r in LtvGroups(h) ==> r.value == Sum(SignedAmount, WithKey(UserIdOf, r.key, h))
  {
    var groups := LtvGroups(h);
    GroupSumKeys(SignedAmount, UserIdOf, h, Distinct(Project(UserIdOf, h)));
    forall u ensures u in Project(RowKey, groups) <==> exists e :: e in h && e.userId == u {
      if u in Project(UserIdOf, h) {
        ProjectMember(UserIdOf, h, u);
      }
      if exists e :: e in h && e.userId == u {
        var e :| e in h && e.userId == u;
        ProjectOf(UserIdOf, h, e);
      }
    }
    forall r | r in groups ensures r.value == Sum(SignedAmount, WithKey(UserIdOf, r.key, h)) {
      var i :| 0 <= i < |groups| && groups[i] == r;
    }
  }

  /**
   * One row per user id of the human events (NULL ids form one group),
   * descending by lifetime value, which is the user's signed revenue.
   */
  lemma LtvPerUserRows(events: seq<Event>)
    ensures var ltv := LtvPerUser(events);
      && NoDup(Project(RowKey, ltv))
      && (forall u :: u in Project(RowKey, ltv) <==> exists e :: e in Humans(events) && e.userId == u)
      && (forall i, j :: 0 <= i < j < |ltv| ==> ltv[i].value >= ltv[j].value)
      && (forall r :: r in ltv ==> r.value == Sum(SignedAmount, WithKey(UserIdOf, r.key, Humans(events))))
  {
    LtvRowsOfGroups(events);
    LtvDescending(events);
  }

  lemma LtvRowsOfGroups(events: seq<Event>)
    ensures var ltv := LtvPerUser(events);
      && NoDup(Project(RowKey, ltv))
      && (forall u :: u in Project(RowKey, ltv) <==> exists e :: e in Humans(events) && e.userId == u)
      && (forall r :: r in ltv ==> r.value == Sum(SignedAmount, WithKey(UserIdOf, r.key, Humans(events))))
  {
    var h := Humans(events);
    LtvGroupsFacts(h);
    SortedRowKeys(LtvGe, LtvGroups(h));
  }

  lemma LtvDescending(events: seq<Event>)
    ensures var ltv := LtvPerUser(events);
      forall i, j :: 0 <= i < j < |ltv| ==> ltv[i].value >= ltv[j].value
  {
    var ltv := LtvPerUser(events);
    LtvGeOrder();
    SortBySorted(LtvGe, LtvGroups(Humans(events)));
    assert forall i, j :: 0 <= i < j < |ltv| ==> LtvGe(ltv[i], ltv[j]);
  }

  lemma LtvGeOrder()
    ensures TotalPreorder(LtvGe)
  {
  }

  /**
   * Daily net revenue and lifetime value group the same signed amounts two
   * ways, so their totals agree: both are the human events' signed total.
   */
  lemma NetTotalIsLtvTotal(events: seq<Event>)
    ensures Sum(RowValue, DailyRevenueNet(events)) == Sum(SignedAmount, Humans(events))
    ensures Sum(RowValue, LtvPerUser(events)) == Sum(SignedAmount, Humans(events))
  {
    var h := Humans(events);
    DateKeysFacts(EventDate, h);
    GroupSumTotal(SignedAmount, EventDate, h, DateKeys(EventDate, h));
    var users := Distinct(Project(UserIdOf, h));
    forall e | e in h ensures UserIdOf(e) in users {
      ProjectOf(UserIdOf, h, e);
    }
    GroupSumTotal(SignedAmount, UserIdOf, h, users);
    SumPermutation(RowValue, LtvGroups(h), LtvPerUser(events));
  }

  // ----------------------------------------------------------- mrr_monthly

  predicate IsActive(s: Silver.Subscription) { s.status == Some("active") }

  /** `date_trunc('month', created_at)::DATE` */
  function MonthOf(s: Silver.Subscription): Option<Date> {
    match s.createdAt
    case None => None
    case Some(t) => Some(MonthStart(DayOf(t)))
  }

  function Price(s: Silver.Subscription): Option<real> { s.price }

  /** `SUM(price)` */
  function MonthlyRevenue(g: seq<Silver.Subscription>): Option<real> {
    SqlSum(Project(Price, g))
  }

  /** `mrr_monthly` */
  function MrrMonthly(subscriptions: seq<Silver.Subscription>): seq<Row<Option<Date>, Option<real>>> {
    var a := Filter(IsActive, subscriptions);
    GroupBy(MonthOf, MonthlyRevenue, a, DateKeys(MonthOf, a))
  }

  /**
   * One row per month in which an active subscription was created, months
   * strictly ascending, each the sum of those subscriptions' prices; NULL
   * only when all those prices are NULL, which the cleaning stage rules out.
   */
  lemma MrrRows(subscriptions: seq<Silver.Subscription>)
    ensures var mrr := MrrMonthly(subscriptions);
      && NoDup(Project(RowKey, mrr))
      && (forall i, j :: 0 <= i < j < |mrr| ==> NullsLastLe(mrr[i].key, mrr[j].key) && mrr[i].key != mrr[j].key)
      && (forall m :: m in Project(RowKey, mrr) <==> exists s :: s in subscriptions && IsActive(s) && MonthOf(s) == m)
      && (forall i :: 0 <= i < |mrr| ==> mrr[i].value == SqlSum(Project(Price, WithKey(MonthOf, mrr[i].key, Filter(IsActive, subscriptions)))))
      && ((forall s :: s in subscriptions ==> s.price.Some?) ==> forall i :: 0 <= i < |mrr| ==> mrr[i].value.Some?)
  {
    MrrMonths(subscriptions);
    MrrOrder(subscriptions);
    if forall s :: s in subscriptions ==> s.price.Some? {
      MrrNonNull(subscriptions);
    }
  }

  lemma MrrMonths(subscriptions: seq<Silver.Subscription>)
    ensures Project(RowKey, MrrMonthly(subscriptions)) == DateKeys(MonthOf, Filter(IsActive, subscriptions))
    ensures forall m :: m in Project(RowKey, MrrMonthly(subscriptions)) <==> exists s :: s in subscriptions && IsActive(s) && MonthOf(s) == m
  {
    var a := Filter(IsActive, subscriptions);
    DateKeysFacts(MonthOf, a);
    GroupByKeys(MonthOf, MonthlyRevenue, a, DateKeys(MonthOf, a));
  }

  lemma MrrOrder(subscriptions: seq<Silver.Subscription>)
    ensures var mrr := MrrMonthly(subscriptions);
      && NoDup(Project(RowKey, mrr))
      && (forall i, j :: 0 <= i < j < |mrr| ==> NullsLastLe(mrr[i].key, mrr[j].key) && mrr[i].key != mrr[j].key)
  {
    var a := Filter(IsActive, subscriptions);
    var keys := DateKeys(MonthOf, a);
    var mrr := MrrMonthly(subscriptions);
    DateKeysFacts(MonthOf, a);
    MrrMonths(subscriptions);
    forall i, j | 0 <= i < j < |mrr| ensures NullsLastLe(mrr[i].key, mrr[j].key) && mrr[i].key != mrr[j].key {
      assert mrr[i].key == keys[i] && mrr[j].key == keys[j];
    }
  }

  lemma MrrNonNull(subscriptions: seq<Silver.Subscription>)
    requires forall s :: s in subscriptions ==> s.price.Some?
    ensures forall i :: 0 <= i < |MrrMonthly(subscriptions)| ==> MrrMonthly(subscriptions)[i].value.Some?
  {
    var a := Filter(IsActive, subscriptions);
    var keys := DateKeys(MonthOf, a);
    var mrr := GroupBy(MonthOf, MonthlyRevenue, a, keys);
    assert MrrMonthly(subscriptions) == mrr;
    DateKeysFacts(MonthOf, a);
    forall i | 0 <= i < |mrr| ensures mrr[i].value.Some? {
      assert keys[i] in keys;
      var s :| s in a && MonthOf(s) == keys[i];
      PricedRevenue(WithKey(MonthOf, keys[i], a), s);
    }
  }

  /** A month with one priced subscription has a non-NULL revenue. */
  lemma PricedRevenue(g: seq<Silver.Subscription>, s: Silver.Subscription)
    requires s in g && s.price.Some?
    ensures MonthlyRevenue(g).Some?
  {
    var j :| 0 <= j < |g| && g[j] == s;
    assert Project(Price, g)[j].Some?;
  }

  /** A subscription that is not active changes no month's MRR. */
  lemma MrrIgnoresInactive(a: seq<Silver.Subscription>, x: Silver.Subscription, b: seq<Silver.Subscription>)
    requires !IsActive(x)
    ensures MrrMonthly(a + [x] + b) == MrrMonthly(a + b)
  {
    FilterConcat(IsActive, a + [x], b);
    FilterConcat(IsActive, a, [x]);
    FilterConcat(IsActive, a, b);
    assert Filter(IsActive, [x]) == [] by {
      assert [x][1..] == [];
    }
    assert Filter(IsActive, a) + [] == Filter(IsActive, a);
  }

  // ----------------------------------------------- weekly_cohort_retention

  /** `date_trunc('week', ts)`, as the day number of that Monday. */
  function WeekOf(ts: Option<Timestamp>): Option<Date> {
    match ts
    case None => None
    case Some(t) => Some(WeekStart(DayOf(t)))
  }

  /** A row of `user_signup` exists for `u`: `u` has a human signup event. */
  predicate HasSignup(h: seq<Event>, u: string) {
    Some(u) in Project(UserIdOf, Filter(IsSignup, h))
  }

  /** `signup_week` of `user_signup`: the week of the user's earliest signup timestamp. */
  function SignupWeek(h: seq<Event>, u: string): Option<Date> {
    WeekOf(SqlMin(Project(EventTsOf, WithKey(UserIdOf, Some(u), Filter(IsSignup, h)))))
  }

  /** A row of `user_activity`. */
  datatype Activity = Activity(user: Option<string>, week: Option<Date>)

  function ActivityOf(e: Event): Activity { Activity(e.userId, WeekOf(e.eventTs)) }

  /** `user_activity`: the different (user, week) pairs of the human events. */
  function Activities(h: seq<Event>): seq<Activity> {
    Distinct(Project(ActivityOf, h))
  }

  /** `((activity_week - signup_week) / 7)::INT`, a difference of days divided by 7. */
  function WeekNumber(signup: Option<Date>, activity: Option<Date>): Option<int> {
    if signup.Some? && activity.Some? then Some((activity.value - signup.value) / 7) else None
  }

  /** A row of the join of `user_signup` and `user_activity` on the user. */
  datatype CohortMember = CohortMember(user: string, signupWeek: Option<Date>, weekNumber: Option<int>)

  /**
   * `user_signup s JOIN user_activity a ON s.user_id = a.user_id`: each
   * activity of a user with a signup, beside that user's signup week.
   */
  function JoinCohorts(h: seq<Event>, acts: seq<Activity>): (r: seq<CohortMember>)
    ensures forall j :: j in r ==>
      && HasSignup(h, j.user)
      && j.signupWeek == SignupWeek(h, j.user)
      && exists a :: a in acts && a.user == Some(j.user) && j.weekNumber == WeekNumber(j.signupWeek, a.week)
    ensures forall a :: a in acts && a.user.Some? && HasSignup(h, a.user.value) ==>
      CohortMember(a.user.value, SignupWeek(h, a.user.value), WeekNumber(SignupWeek(h, a.user.value), a.week)) in r
  {
    if acts == [] then []
    else
      var rest := JoinCohorts(h, acts[1..]);
      assert forall a :: a in acts <==> a == acts[0] || a in acts[1..];
      var a := acts[0];
      if a.user.Some? && HasSignup(h, a.user.value) then
        var u := a.user.value;
        [CohortMember(u, SignupWeek(h, u), WeekNumber(SignupWeek(h, u), a.week))] + rest
      else rest
  }

  datatype CohortKey = CohortKey(signupWeek: Option<Date>, weekNumber: Option<int>)

  function CohortKeyOf(j: CohortMember): CohortKey { CohortKey(j.signupWeek, j.weekNumber) }

  function CohortUser(j: CohortMember): string { j.user }

  /** `ORDER BY signup_week, week_number` */
  predicate CohortKeyLe(a: CohortKey, b: CohortKey) {
    if a.signupWeek == b.signupWeek then NullsLastLe(a.weekNumber, b.weekNumber)
    else NullsLastLe(a.signupWeek, b.signupWeek)
  }

  lemma CohortKeyLeOrder()
    ensures TotalPreorder(CohortKeyLe) && Antisymmetric(CohortKeyLe)
  {
  }

  /** `COUNT(DISTINCT a.user_id)` */
  function CohortSize(g: seq<CohortMember>): nat {
    |Distinct(Project(CohortUser, g))|
  }

  function CohortMembers(h: seq<Event>): seq<CohortMember> {
    JoinCohorts(h, Activities(h))
  }

  /** `weekly_cohort_retention` */
  function WeeklyCohortRetention(events: seq<Event>): seq<Row<CohortKey, nat>> {
    var j := CohortMembers(Humans(events));
    GroupBy(CohortKeyOf, CohortSize, j, SortBy(CohortKeyLe, Distinct(Project(CohortKeyOf, j))))
  }

  /**
   * The users counted under a (signup week, week number) key: users with a
   * signup, in that signup week, with some event that many weeks later.
   */
  ghost function Retained(h: seq<Event>, k: CohortKey): set<string> {
    set e | e in h && e.userId.Some? && HasSignup(h, e.userId.value)
              && SignupWeek(h, e.userId.value) == k.signupWeek
              && WeekNumber(k.signupWeek, WeekOf(e.eventTs)) == k.weekNumber
          :: e.userId.value
  }

  /**
   * Some human event of a user with a signup falls `k.weekNumber` weeks
   * after that user's signup week `k.signupWeek`.
   */
  ghost predicate KeyReached(h: seq<Event>, k: CohortKey) {
    exists e :: e in h && e.userId.Some? && HasSignup(h, e.userId.value)
      && k == CohortKey(SignupWeek(h, e.userId.value), WeekNumber(SignupWeek(h, e.userId.value), WeekOf(e.eventTs)))
  }

  /** The keys of the joined members are exactly the keys some event reaches. */
  lemma CohortKeysPresent(h: seq<Event>, k: CohortKey)
    ensures k in Project(CohortKeyOf, CohortMembers(h)) <==> KeyReached(h, k)
  {
    var acts := Activities(h);
    var j := CohortMembers(h);
    if k in Project(CohortKeyOf, j) {
      ProjectMember(CohortKeyOf, j, k);
      var m :| m in j && CohortKeyOf(m) == k;
      var a :| a in acts && a.user == Some(m.user) && m.weekNumber == WeekNumber(m.signupWeek, a.week);
      ProjectMember(ActivityOf, h, a);
      var e :| e in h && ActivityOf(e) == a;
      assert e.userId == Some(m.user);
    }
    if KeyReached(h, k) {
      var e :| e in h && e.userId.Some? && HasSignup(h, e.userId.value)
        && k == CohortKey(SignupWeek(h, e.userId.value), WeekNumber(SignupWeek(h, e.userId.value), WeekOf(e.eventTs)));
      var u := e.userId.value;
      ProjectOf(ActivityOf, h, e);
      assert ActivityOf(e) in acts;
      var m := CohortMember(u, SignupWeek(h, u), WeekNumber(SignupWeek(h, u), WeekOf(e.eventTs)));
      assert m in j;
      ProjectOf(CohortKeyOf, j, m);
    }
  }

  /** The members joined under key `k` are exactly the retained users of `k`. */
  lemma CohortGroupUsers(h: seq<Event>, k: CohortKey)
    ensures (set x | x in Project(CohortUser, WithKey(CohortKeyOf, k, CohortMembers(h)))) == Retained(h, k)
  {
    var g := WithKey(CohortKeyOf, k, CohortMembers(h));
    var acts := Activities(h);
    forall u | u in Project(CohortUser, g) ensures u in Retained(h, k) {
      ProjectMember(CohortUser, g, u);
      var j :| j in g && j.user == u;
      var a :| a in acts && a.user == Some(u) && j.weekNumber == WeekNumber(j.signupWeek, a.week);
      ProjectMember(ActivityOf, h, a);
      var e :| e in h && ActivityOf(e) == a;
      assert e.userId == Some(u);
    }
    forall u | u in Retained(h, k) ensures u in Project(CohortUser, g) {
      var e :| e in h && e.userId == Some(u) && HasSignup(h, u)
              && SignupWeek(h, u) == k.signupWeek
              && WeekNumber(k.signupWeek, WeekOf(e.eventTs)) == k.weekNumber;
      ProjectOf(ActivityOf, h, e);
      var j := CohortMember(u, SignupWeek(h, u), WeekNumber(SignupWeek(h, u), WeekOf(e.eventTs)));
      assert ActivityOf(e) in acts;
      assert j in CohortMembers(h);
      assert j in g;
      ProjectOf(CohortUser, g, j);
    }
  }

  /**
   * One row per (signup week, week number) pair reached by some cohort
   * member, in order, counting exactly the users with a signup in that week
   * who were active that many weeks later.
   */
  lemma CohortRows(events: seq<Event>)
    ensures var rows := WeeklyCohortRetention(events);
      && NoDup(Project(RowKey, rows))
      && (forall i, j :: 0 <= i < j < |rows| ==> CohortKeyLe(rows[i].key, rows[j].key) && rows[i].key != rows[j].key)
      && (forall k :: k in Project(RowKey, rows) <==> KeyReached(Humans(events), k))
      && (forall i :: 0 <= i < |rows| ==> rows[i].value == |Retained(Humans(events), rows[i].key)|)
  {
    var h := Humans(events);
    var j := CohortMembers(h);
    var rows := WeeklyCohortRetention(events);
    CohortKeyLeOrder();
    GroupKeysFacts(CohortKeyLe, CohortKeyOf, j);
    StrictlySorted(CohortKeyLe, SortBy(CohortKeyLe, Distinct(Project(CohortKeyOf, j))));
    GroupByKeys(CohortKeyOf, CohortSize, j, SortBy(CohortKeyLe, Distinct(Project(CohortKeyOf, j))));
    forall k ensures k in Project(RowKey, rows) <==> KeyReached(h, k) {
      CohortKeysPresent(h, k);
    }
    forall i | 0 <= i < |rows| ensures rows[i].value == |Retained(h, rows[i].key)| {
      var g := WithKey(CohortKeyOf, rows[i].key, j);
      DistinctCount(Project(CohortUser, g));
      CohortGroupUsers(h, rows[i].key);
    }
  }

  /** The earliest signup of a user with a signup week is a human signup event in that week. */
  lemma EarliestSignup(h: seq<Event>, u: string, w: Date)
    requires SignupWeek(h, u) == Some(w)
    ensures exists e :: e in h && IsSignup(e) && e.userId == Some(u) && WeekOf(e.eventTs) == Some(w)
  {
    var g := WithKey(UserIdOf, Some(u), Filter(IsSignup, h));
    var m := SqlMin(Project(EventTsOf, g));
    ProjectMember(EventTsOf, g, m);
  }

  /** The users whose signup week is `w`. */
  ghost function Cohort(h: seq<Event>, w: Date): set<string> {
    set e | e in h && IsSignup(e) && e.userId.Some? && SignupWeek(h, e.userId.value) == Some(w) :: e.userId.value
  }

  /** Users retained in week 0 of cohort `w` are exactly the cohort. */
  lemma WeekZeroRetained(h: seq<Event>, w: Date)
    ensures Retained(h, CohortKey(Some(w), Some(0))) == Cohort(h, w)
  {
    var k := CohortKey(Some(w), Some(0));
    forall v | v in Cohort(h, w) ensures v in Retained(h, k) {
      EarliestSignup(h, v, w);
      var e :| e in h && IsSignup(e) && e.userId == Some(v) && WeekOf(e.eventTs) == Some(w);
      assert e in Filter(IsSignup, h);
      ProjectOf(UserIdOf, Filter(IsSignup, h), e);
    }
    forall v | v in Retained(h, k) ensures v in Cohort(h, w) {
      ProjectMember(UserIdOf, Filter(IsSignup, h), Some(v));
    }
  }

  /**
   * Week 0 of a cohort counts the whole cohort: for a user whose signup week
   * is `w`, the row (w, 0) exists, and it counts exactly the users who
   * signed up in week `w`.
   */
  lemma WeekZeroIsWholeCohort(events: seq<Event>, u: string, w: Date)
    requires SignupWeek(Humans(events), u) == Some(w)
    ensures CohortKey(Some(w), Some(0)) in Project(RowKey, WeeklyCohortRetention(events))
    ensures Retained(Humans(events), CohortKey(Some(w), Some(0))) == Cohort(Humans(events), w)
  {
    var h := Humans(events);
    var j := CohortMembers(h);
    EarliestSignup(h, u, w);
    var e :| e in h && IsSignup(e) && e.userId == Some(u) && WeekOf(e.eventTs) == Some(w);
    assert e in Filter(IsSignup, h);
    ProjectOf(UserIdOf, Filter(IsSignup, h), e);
    ProjectOf(ActivityOf, h, e);
    assert CohortMember(u, Some(w), Some(0)) in j;
    ProjectOf(CohortKeyOf, j, CohortMember(u, Some(w), Some(0)));
    CohortKeyLeOrder();
    GroupKeysFacts(CohortKeyLe, CohortKeyOf, j);
    GroupByKeys(CohortKeyOf, CohortSize, j, SortBy(CohortKeyLe, Distinct(Project(CohortKeyOf, j))));
    WeekZeroRetained(h, w);
  }

  // -------------------------------------------------------- cac_by_channel

  /** A row of `silver_marketing m LEFT JOIN human_events e`: the event's user, NULL when no event matched. */
  datatype SpendMatch = SpendMatch(channel: Option<string>, spend: real, user: Option<string>)

  function MatchChannel(x: SpendMatch): Option<string> { x.channel }

  function MatchSpend(x: SpendMatch): real { x.spend }

  function MatchUser(x: SpendMatch): Option<string> { x.user }

  /** The human signups with `d = event_ts::DATE`; a NULL date matches nothing. */
  function SignupsOn(h: seq<Event>, d: Option<Date>): seq<Event> {
    if d.None? then [] else WithKey(EventDate, d, Filter(IsSignup, h))
  }

  /** How many joined rows one marketing row yields: one per signup on its date, or one when there is none. */
  function JoinMultiplicity(h: seq<Event>, m: Silver.MarketingRow): nat {
    if |SignupsOn(h, m.date)| == 0 then 1 else |SignupsOn(h, m.date)|
  }

  /** The joined rows of one marketing row: one per matching signup, or one with a NULL user. */
  function JoinSpend(h: seq<Event>, m: Silver.MarketingRow): (r: seq<SpendMatch>)
    ensures |r| == JoinMultiplicity(h, m)
    ensures forall x :: x in r ==>
      x.channel == m.channel && x.spend == m.spend
      && (x.user.Some? ==> exists e :: e in SignupsOn(h, m.date) && e.userId == x.user)
    ensures forall e :: e in SignupsOn(h, m.date) ==> SpendMatch(m.channel, m.spend, e.userId) in r
  {
    var es := SignupsOn(h, m.date);
    if es == [] then [SpendMatch(m.channel, m.spend, None)]
    else
      var r := seq(|es|, i requires 0 <= i < |es| => SpendMatch(m.channel, m.spend, es[i].userId));
      assert forall e :: e in es ==> exists i :: 0 <= i < |es| && es[i] == e && r[i] == SpendMatch(m.channel, m.spend, e.userId);
      r
  }

  /** The LEFT JOIN of the marketing rows with the human signups on their dates. */
  function JoinMarketing(h: seq<Event>, ms: seq<Silver.MarketingRow>): (r: seq<SpendMatch>)
    ensures forall x :: x in r ==> exists m :: m in ms && x in JoinSpend(h, m)
    ensures forall m, x :: m in ms && x in JoinSpend(h, m) ==> x in r
  {
    if ms == [] then []
    else
      assert forall m :: m in ms <==> m == ms[0] || m in ms[1..];
      JoinSpend(h, ms[0]) + JoinMarketing(h, ms[1..])
  }

  /** `SUM(m.spend) / NULLIF(COUNT(DISTINCT e.user_id), 0)` */
  function CostPerSignup(g: seq<SpendMatch>): Option<real> {
    var n := CountDistinct(Project(MatchUser, g));
    if n == 0 then None else Some(Sum(MatchSpend, g) / (n as real))
  }

  /** `ORDER BY cac DESC`, NULL last. */
  predicate CacGe(a: Row<Option<string>, Option<real>>, b: Row<Option<string>, Option<real>>) {
    match (a.value, b.value)
    case (Some(x), Some(y)) => x >= y
    case (_, None) => true
    case (None, Some(_)) => false
  }

  lemma CacGeOrder()
    ensures TotalPreorder(CacGe)
  {
  }

  function CacGroups(h: seq<Event>, ms: seq<Silver.MarketingRow>): seq<Row<Option<string>, Option<real>>> {
    var j := JoinMarketing(h, ms);
    GroupBy(MatchChannel, CostPerSignup, j, Distinct(Project(MatchChannel, j)))
  }

  /** `cac_by_channel` */
  function CacByChannel(events: seq<Event>, marketing: seq<Silver.MarketingRow>): seq<Row<Option<string>, Option<real>>> {
    SortBy(CacGe, CacGroups(Humans(events), marketing))
  }

  function ChannelMatches(h: seq<Event>, ms: seq<Silver.MarketingRow>, ch: Option<string>): seq<SpendMatch> {
    WithKey(MatchChannel, ch, JoinMarketing(h, ms))
  }

  lemma ChannelUserFromSignup(h: seq<Event>, ms: seq<Silver.MarketingRow>, m: Silver.MarketingRow, e: Event)
    requires m in ms && e in SignupsOn(h, m.date) && e.userId.Some?
    ensures CountDistinct(Project(MatchUser, ChannelMatches(h, ms, m.channel))) != 0
  {
    var g := ChannelMatches(h, ms, m.channel);
    var x := SpendMatch(m.channel, m.spend, e.userId);
    assert x in JoinSpend(h, m);
    assert x in g;
    var i :| 0 <= i < |g| && g[i] == x;
    assert Project(MatchUser, g)[i].Some?;
    CountDistinctZero(Project(MatchUser, g));
  }

  lemma ChannelSignupFromUser(h: seq<Event>, ms: seq<Silver.MarketingRow>, ch: Option<string>)
    requires CountDistinct(Project(MatchUser, ChannelMatches(h, ms, ch))) != 0
    ensures exists m, e :: m in ms && m.channel == ch && e in SignupsOn(h, m.date) && e.userId.Some?
  {
    var g := ChannelMatches(h, ms, ch);
    CountDistinctZero(Project(MatchUser, g));
    var i :| 0 <= i < |g| && Project(MatchUser, g)[i].Some?;
    assert g[i] in g;
    var m :| m in ms && g[i] in JoinSpend(h, m);
    var e :| e in SignupsOn(h, m.date) && e.userId == g[i].user;
  }

  /** The joined rows of a channel hold a user exactly when a signup with a user falls on a date of that channel. */
  lemma ChannelUsers(h: seq<Event>, ms: seq<Silver.MarketingRow>, ch: Option<string>)
    ensures CountDistinct(Project(MatchUser, ChannelMatches(h, ms, ch))) == 0
        <==> forall m, e :: m in ms && m.channel == ch && e in SignupsOn(h, m.date) ==> e.userId.None?
  {
    if CountDistinct(Project(MatchUser, ChannelMatches(h, ms, ch))) != 0 {
      ChannelSignupFromUser(h, ms, ch);
    } else {
      forall m, e | m in ms && m.channel == ch && e in SignupsOn(h, m.date) ensures e.userId.None? {
        if e.userId.Some? {
          ChannelUserFromSignup(h, ms, m, e);
        }
      }
    }
  }

  /**
   * The numerator the join gives a channel, computed from the marketing rows
   * alone: each of the channel's spends, times the rows it joins to.
   */
  function ChannelSpend(h: seq<Event>, ms: seq<Silver.MarketingRow>, ch: Option<string>): real {
    if ms == [] then 0.0 else RowSpend(h, ms[0], ch) + ChannelSpend(h, ms[1..], ch)
  }

  /** The spend of marketing row `m` that counts toward channel `ch`. */
  function RowSpend(h: seq<Event>, m: Silver.MarketingRow, ch: Option<string>): real {
    if m.channel == ch then Repeated(m.spend, JoinMultiplicity(h, m)) else 0.0
  }

  /** `SUM(m.spend)` over a channel's joined rows is that channel's spends, each repeated per matching signup. */
  lemma {:induction false} ChannelSpendTotal(h: seq<Event>, ms: seq<Silver.MarketingRow>, ch: Option<string>)
    ensures Sum(MatchSpend, ChannelMatches(h, ms, ch)) == ChannelSpend(h, ms, ch)
  {
    if ms != [] {
      var a := WithKey(MatchChannel, ch, JoinSpend(h, ms[0]));
      var b := ChannelMatches(h, ms[1..], ch);
      ChannelMatchesCons(h, ms, ch);
      SumConcat(MatchSpend, a, b);
      RowChannelSpend(h, ms[0], ch);
      ChannelSpendTotal(h, ms[1..], ch);
    }
  }

  lemma ChannelMatchesCons(h: seq<Event>, ms: seq<Silver.MarketingRow>, ch: Option<string>)
    requires ms != []
    ensures ChannelMatches(h, ms, ch) == WithKey(MatchChannel, ch, JoinSpend(h, ms[0])) + ChannelMatches(h, ms[1..], ch)
  {
    assert JoinMarketing(h, ms) == JoinSpend(h, ms[0]) + JoinMarketing(h, ms[1..]);
    WithKeyConcat(MatchChannel, ch, JoinSpend(h, ms[0]), JoinMarketing(h, ms[1..]));
  }

  /** One marketing row adds its spend, times its joined rows, to its own channel and nothing to any other. */
  lemma RowChannelSpend(h: seq<Event>, m: Silver.MarketingRow, ch: Option<string>)
    ensures Sum(MatchSpend, WithKey(MatchChannel, ch, JoinSpend(h, m))) == RowSpend(h, m, ch)
  {
    if m.channel == ch {
      OwnChannelSpend(h, m);
    } else {
      OtherChannelSpend(h, m, ch);
    }
  }

  lemma OtherChannelSpend(h: seq<Event>, m: Silver.MarketingRow, ch: Option<string>)
    requires m.channel != ch
    ensures WithKey(MatchChannel, ch, JoinSpend(h, m)) == []
  {
    JoinSpendChannel(h, m);
    WithKeyUniform(MatchChannel, m.channel, ch, JoinSpend(h, m));
  }

  lemma OwnChannelSpend(h: seq<Event>, m: Silver.MarketingRow)
    ensures Sum(MatchSpend, WithKey(MatchChannel, m.channel, JoinSpend(h, m))) == Repeated(m.spend, JoinMultiplicity(h, m))
  {
    JoinSpendChannel(h, m);
    WithKeyUniform(MatchChannel, m.channel, m.channel, JoinSpend(h, m));
    SpendMultiplicity(h, m);
  }

  lemma JoinSpendChannel(h: seq<Event>, m: Silver.MarketingRow)
    ensures forall i :: 0 <= i < |JoinSpend(h, m)| ==> MatchChannel(JoinSpend(h, m)[i]) == m.channel
  {
    var r := JoinSpend(h, m);
    forall i | 0 <= i < |r| ensures MatchChannel(r[i]) == m.channel {
      assert r[i] in r;
    }
  }

  /** The different users of the human signups on any date of channel `ch`. */
  ghost function ChannelSignupUsers(h: seq<Event>, ms: seq<Silver.MarketingRow>, ch: Option<string>): set<string> {
    set m, e | m in ms && m.channel == ch && e in SignupsOn(h, m.date) && e.userId.Some? :: e.userId.value
  }

  /** `COUNT(DISTINCT e.user_id)` over a channel's joined rows counts that channel's signup users. */
  lemma ChannelUserCount(h: seq<Event>, ms: seq<Silver.MarketingRow>, ch: Option<string>)
    ensures CountDistinct(Project(MatchUser, ChannelMatches(h, ms, ch))) == |ChannelSignupUsers(h, ms, ch)|
  {
    var g := ChannelMatches(h, ms, ch);
    var users := set o | o in Project(MatchUser, g) && o.Some? :: o.value;
    CountDistinctIsSetSize(Project(MatchUser, g));
    MatchedUsersAreSignups(h, ms, ch);
    SignupsAreMatchedUsers(h, ms, ch);
    assert users == ChannelSignupUsers(h, ms, ch);
  }

  lemma MatchedUsersAreSignups(h: seq<Event>, ms: seq<Silver.MarketingRow>, ch: Option<string>)
    ensures forall o :: o in Project(MatchUser, ChannelMatches(h, ms, ch)) && o.Some? ==> o.value in ChannelSignupUsers(h, ms, ch)
  {
    var g := ChannelMatches(h, ms, ch);
    forall o | o in Project(MatchUser, g) && o.Some? ensures o.value in ChannelSignupUsers(h, ms, ch) {
      ProjectMember(MatchUser, g, o);
      var x :| x in g && x.user == o;
      var m :| m in ms && x in JoinSpend(h, m);
      var e :| e in SignupsOn(h, m.date) && e.userId == x.user;
    }
  }

  lemma SignupsAreMatchedUsers(h: seq<Event>, ms: seq<Silver.MarketingRow>, ch: Option<string>)
    ensures forall u :: u in ChannelSignupUsers(h, ms, ch) ==> Some(u) in Project(MatchUser, ChannelMatches(h, ms, ch))
  {
    var g := ChannelMatches(h, ms, ch);
    forall u | u in ChannelSignupUsers(h, ms, ch) ensures Some(u) in Project(MatchUser, g) {
      var m, e :| m in ms && m.channel == ch && e in SignupsOn(h, m.date) && e.userId == Some(u);
      var x := SpendMatch(m.channel, m.spend, e.userId);
      assert x in JoinSpend(h, m);
      assert x in g;
      ProjectOf(MatchUser, g, x);
    }
  }

  lemma CacGroupsFacts(h: seq<Event>, ms: seq<Silver.MarketingRow>)
    ensures NoDup(Project(RowKey, CacGroups(h, ms)))
    ensures forall ch :: ch in Project(RowKey, CacGroups(h, ms)) <==> exists m :: m in ms && m.channel == ch
    ensures forall r :: r in CacGroups(h, ms) ==> r.value == CostPerSignup(ChannelMatches(h, ms, r.key))
  {
    var j := JoinMarketing(h, ms);
    var groups := CacGroups(h, ms);
    GroupByKeys(MatchChannel, CostPerSignup, j, Distinct(Project(MatchChannel, j)));
    forall ch ensures ch in Project(RowKey, groups) <==> exists m :: m in ms && m.channel == ch {
      if ch in Project(MatchChannel, j) {
        ProjectMember(MatchChannel, j, ch);
        var x :| x in j && x.channel == ch;
        var m :| m in ms && x in JoinSpend(h, m);
      }
      if exists m :: m in ms && m.channel == ch {
        var m :| m in ms && m.channel == ch;
        var x := JoinSpend(h, m)[0];
        assert x in JoinSpend(h, m);
        ProjectOf(MatchChannel, j, x);
      }
    }
    forall r | r in groups ensures r.value == CostPerSignup(ChannelMatches(h, ms, r.key)) {
      var i :| 0 <= i < |groups| && groups[i] == r;
    }
  }

  /**
   * Every marketing channel appears exactly once, in descending cost order
   * with NULL last. A channel's cost is NULL, never an error, exactly when
   * no human signup with a user falls on any of that channel's dates;
   * otherwise it is the joined spend over the number of different users.
   */
  lemma CacRows(events: seq<Event>, marketing: seq<Silver.MarketingRow>)
    ensures var cac := CacByChannel(events, marketing);
      && NoDup(Project(RowKey, cac))
      && (forall ch :: ch in Project(RowKey, cac) <==> exists m :: m in marketing && m.channel == ch)
      && (forall i, j :: 0 <= i < j < |cac| ==> CacGe(cac[i], cac[j]))
      && (forall r :: r in cac ==>
            (r.value.None? <==> forall m, e :: m in marketing && m.channel == r.key && e in SignupsOn(Humans(events), m.date) ==> e.userId.None?))
      && (forall r :: r in cac ==>
            var users := |ChannelSignupUsers(Humans(events), marketing, r.key)|;
            r.value == if users == 0 then None else Some(ChannelSpend(Humans(events), marketing, r.key) / (users as real)))
  {
    var h := Humans(events);
    var groups := CacGroups(h, marketing);
    CacGroupsFacts(h, marketing);
    SortedRowKeys(CacGe, groups);
    CacGeOrder();
    SortBySorted(CacGe, groups);
    forall r | r in CacByChannel(events, marketing)
      ensures r.value.None? <==> forall m, e :: m in marketing && m.channel == r.key && e in SignupsOn(h, m.date) ==> e.userId.None?
    {
      ChannelUsers(h, marketing, r.key);
    }
    forall r | r in CacByChannel(events, marketing)
      ensures var users := |ChannelSignupUsers(h, marketing, r.key)|;
        r.value == if users == 0 then None else Some(ChannelSpend(h, marketing, r.key) / (users as real))
    {
      ChannelUserCount(h, marketing, r.key);
      ChannelSpendTotal(h, marketing, r.key);
    }
  }

  /** A marketing row's spend enters its channel's numerator once per matching signup, and once when none matches. */
  lemma SpendMultiplicity(h: seq<Event>, m: Silver.MarketingRow)
    ensures Sum(MatchSpend, JoinSpend(h, m)) == Repeated(m.spend, JoinMultiplicity(h, m))
  {
    var r := JoinSpend(h, m);
    forall i | 0 <= i < |r| ensures MatchSpend(r[i]) == m.spend {
      assert r[i] in r;
    }
    SumConstant(MatchSpend, r, m.spend);
  }

  // --------------------------------------------------------- ltv_cac_ratio

  /** The single row of `ltv_cac_ratio`. */
  datatype LtvCacRatio = LtvCacRatio(avgLtv: Option<real>, avgCac: Option<real>, ratio: Option<real>)

  function LtvValue(r: Row<Option<string>, real>): Option<real> { Some(r.value) }

  function CacValue(r: Row<Option<string>, Option<real>>): Option<real> { r.value }

  /** `ltv_cac_ratio`, from the `ltv_per_user` and `cac_by_channel` tables. */
  function LtvCacRatioOf(ltv: seq<Row<Option<string>, real>>, cac: seq<Row<Option<string>, Option<real>>>): LtvCacRatio {
    var avgLtv := SqlAvg(Project(LtvValue, ltv));
    var avgCac := SqlAvg(Project(CacValue, cac));
    var ratio := if avgLtv.Some? && avgCac.Some? && avgCac.value != 0.0 then Some(avgLtv.value / avgCac.value) else None;
    LtvCacRatio(avgLtv, avgCac, ratio)
  }

  /** The ratio is NULL, never an error, when either average is NULL or the cost average is 0. */
  lemma RatioNullCases(ltv: seq<Row<Option<string>, real>>, cac: seq<Row<Option<string>, Option<real>>>)
    ensures var t := LtvCacRatioOf(ltv, cac);
      && (t.ratio.None? <==> t.avgLtv.None? || t.avgCac.None? || t.avgCac == Some(0.0))
      && (t.ratio.Some? ==> t.ratio.value * t.avgCac.value == t.avgLtv.value)
  {
  }

  /** The cost average is NULL exactly when every channel's cost is NULL (or there is no channel). */
  lemma AverageCacNull(ltv: seq<Row<Option<string>, real>>, cac: seq<Row<Option<string>, Option<real>>>)
    ensures LtvCacRatioOf(ltv, cac).avgCac.None? <==> forall r :: r in cac ==> r.value.None?
  {
    var vs := Project(CacValue, cac);
    if NonNull(vs) != [] {
      var x := NonNull(vs)[0];
      assert x in NonNull(vs);
      ProjectMember(CacValue, cac, Some(x));
    } else {
      forall r | r in cac ensures r.value.None? {
        ProjectOf(CacValue, cac, r);
      }
    }
  }

  lemma {:induction false} LtvValues(ltv: seq<Row<Option<string>, real>>)
    ensures NonNull(Project(LtvValue, ltv)) == Project(RowValue, ltv)
  {
    if ltv != [] {
      LtvValues(ltv[1..]);
      assert Project(LtvValue, ltv) == [Some(ltv[0].value)] + Project(LtvValue, ltv[1..]);
      assert Project(RowValue, ltv) == [ltv[0].value] + Project(RowValue, ltv[1..]);
    }
  }

  lemma {:induction false} SumOfValues<K>(s: seq<Row<K, real>>)
    ensures Sum(RealOf, Project(RowValue, s)) == Sum(RowValue, s)
  {
    if s != [] {
      SumOfValues(s[1..]);
      assert Project(RowValue, s)[1..] == Project(RowValue, s[1..]);
    }
  }

  /** `AVG(user_ltv)` is NULL only on an empty table, and otherwise the total over the number of rows. */
  lemma AverageOfRows(ltv: seq<Row<Option<string>, real>>)
    ensures SqlAvg(Project(LtvValue, ltv)).None? <==> ltv == []
    ensures ltv != [] ==> SqlAvg(Project(LtvValue, ltv)) == Some(Sum(RowValue, ltv) / (|ltv| as real))
  {
    var vs := Project(LtvValue, ltv);
    LtvValues(ltv);
    SumOfValues(ltv);
    assert NonNull(vs) == Project(RowValue, ltv);
    assert |NonNull(vs)| == |ltv|;
    assert Sum(RealOf, NonNull(vs)) == Sum(RowValue, ltv);
  }

  /**
   * The average lifetime value is NULL exactly when there are no human
   * events; otherwise it is the human events' signed total spread over the
   * user groups.
   */
  lemma AverageLtv(events: seq<Event>, marketing: seq<Silver.MarketingRow>)
    ensures var ltv := LtvPerUser(events);
      var t := LtvCacRatioOf(ltv, CacByChannel(events, marketing));
      && (t.avgLtv.None? <==> Humans(events) == [])
      && (Humans(events) != [] ==> t.avgLtv == Some(Sum(SignedAmount, Humans(events)) / (|ltv| as real)))
  {
    var h := Humans(events);
    var ltv := LtvPerUser(events);
    AverageOfRows(ltv);
    NetTotalIsLtvTotal(events);
    LtvPerUserRows(events);
    if h != [] {
      assert h[0] in h;
      assert h[0].userId in Project(RowKey, ltv);
    }
  }

  // -------------------------------------------------------------- the stage

  /** The eight tables `run_gold` creates. */
  datatype GoldTables = GoldTables(
    dailyActiveUsers: seq<Row<Option<Date>, nat>>,
    dailyRevenueGross: seq<Row<Option<Date>, real>>,
    dailyRevenueNet: seq<Row<Option<Date>, real>>,
    mrrMonthly: seq<Row<Option<Date>, Option<real>>>,
    weeklyCohortRetention: seq<Row<CohortKey, nat>>,
    cacByChannel: seq<Row<Option<string>, Option<real>>>,
    ltvPerUser: seq<Row<Option<string>, real>>,
    ltvCacRatio: LtvCacRatio)

  /** `run_gold` over the clean events (with their bot flags), subscriptions and marketing rows. */
  function RunGold(events: seq<Event>, subscriptions: seq<Silver.Subscription>, marketing: seq<Silver.MarketingRow>)
    : (t: GoldTables)
    ensures t.ltvCacRatio == LtvCacRatioOf(t.ltvPerUser, t.cacByChannel)
  {
    var ltv := LtvPerUser(events);
    var cac := CacByChannel(events, marketing);
    GoldTables(
      DailyActiveUsers(events), DailyRevenueGross(events), DailyRevenueNet(events),
      MrrMonthly(subscriptions), WeeklyCohortRetention(events), cac, ltv,
      LtvCacRatioOf(ltv, cac))
  }

  lemma HumansDropBot(a: seq<Event>, x: Event, b: seq<Event>)
    requires x.isBot
    ensures Humans(a + [x] + b) == Humans(a + b)
  {
    FilterConcat(IsHuman, a + [x], b);
    FilterConcat(IsHuman, a, [x]);
    FilterConcat(IsHuman, a, b);
    assert Filter(IsHuman, [x]) == [] by {
      assert [x][1..] == [];
    }
    assert Filter(IsHuman, a) + [] == Filter(IsHuman, a);
  }

  /** Adding or removing an event flagged as a bot changes no table. */
  lemma BotsIgnored(a: seq<Event>, x: Event, b: seq<Event>,
                    subscriptions: seq<Silver.Subscription>, marketing: seq<Silver.MarketingRow>)
    requires x.isBot
    ensures RunGold(a + [x] + b, subscriptions, marketing) == RunGold(a + b, subscriptions, marketing)
  {
    HumansDropBot(a, x, b);
  }

  /** The tables depend on the human events only. */
  lemma OnlyHumansCount(events: seq<Event>, subscriptions: seq<Silver.Subscription>, marketing: seq<Silver.MarketingRow>)
    ensures RunGold(events, subscriptions, marketing) == RunGold(Humans(events), subscriptions, marketing)
  {
    FilterIdempotent(IsHuman, events);
  }
}
