/**
 * Pass B of the membership-metrics aggregator (`fetchMembershipMetrics`):
 * new memberships, renewals and churns per month of the window, counted
 * from the rows of the memberships table.
 */
module Lifecycle {
  import opened Optional
  import opened Seqs
  import opened Text
  import opened CivilDate
  import opened MonthWindow

  /**
   * A row of `memberships` (`created_at`, `last_renewal`, `status`), the
   * timestamps already parsed to local instants; `None` stands for a null
   * or empty column.
   */
  datatype MembershipRow = MembershipRow(createdAt: Option<Date>, lastRenewal: Option<Date>, status: Option<string>)

  /** The answer of the query: an error, or data that may be null. */
  datatype RowsResult = QueryFailed | Rows(data: Option<seq<MembershipRow>>)

  /** The month a row counts as a new membership in: its creation month. */
  function NewLanding(r: MembershipRow): Option<string> {
    if r.createdAt.Some? then Some(KeyOf(r.createdAt.value)) else None
  }

  /** The month a row counts as a renewal in: its last renewal's month, unless that is its creation month. */
  function RenewalLanding(r: MembershipRow): Option<string> {
    if r.lastRenewal.None? then None
    else
      var renewalMonth := KeyOf(r.lastRenewal.value);
      var createdMonth := if r.createdAt.Some? then Some(KeyOf(r.createdAt.value)) else None;
      if createdMonth != Some(renewalMonth) then Some(renewalMonth) else None
  }

  /** When the membership should have renewed: a year after its last renewal. */
  function ExpectedRenewal(lastRenewal: Date): Date {
    AddOneYear(lastRenewal)
  }

  /**
   * The month a row counts as a churn in: the month of its expected
   * renewal, when that date has passed and the status is not `Active`.
   */
  function ChurnLanding(r: MembershipRow, now: Date): Option<string> {
    if r.lastRenewal.None? then None
    else
      var expected := ExpectedRenewal(r.lastRenewal.value);
      if r.status != Some("Active") && Le(expected, now) then Some(KeyOf(expected)) else None
  }

  /** `ChurnLanding` against a fixed current instant. */
  function ChurnLandingAt(now: Date): MembershipRow -> Option<string> {
    r => ChurnLanding(r, now)
  }

  /** How many rows land in month `key` under `landing`. */
  function Count(rows: seq<MembershipRow>, key: string, landing: MembershipRow -> Option<string>): nat
    decreases |rows|
  {
    if |rows| == 0 then 0
    else Count(rows[..|rows| - 1], key, landing) + (if landing(rows[|rows| - 1]) == Some(key) then 1 else 0)
  }

  lemma CountSnoc(rows: seq<MembershipRow>, r: MembershipRow, key: string, landing: MembershipRow -> Option<string>)
    ensures Count(rows + [r], key, landing) == Count(rows, key, landing) + (if landing(r) == Some(key) then 1 else 0)
  {
    assert (rows + [r])[..|rows|] == rows;
  }

  /** A counter map holds, for every window month, the number of rows that land there. */
  ghost predicate CountsOf(keys: set<string>, m: map<string, int>, rows: seq<MembershipRow>,
                           landing: MembershipRow -> Option<string>) {
    m.Keys == keys && forall k :: k in keys ==> m[k] == Count(rows, k, landing)
  }

  ghost predicate Tallied(keys: set<string>, newMemberships: map<string, int>, renewals: map<string, int>,
                          churns: map<string, int>, rows: seq<MembershipRow>, now: Date) {
    && CountsOf(keys, newMemberships, rows, NewLanding)
    && CountsOf(keys, renewals, rows, RenewalLanding)
    && CountsOf(keys, churns, rows, ChurnLandingAt(now))
  }

  /** The rows pass B counts: none when the query failed or returned no data. */
  function CountedRows(result: RowsResult): seq<MembershipRow> {
    if result.Rows? && result.data.Some? then result.data.value else []
  }

  /** The new-membership block of the loop body. */
  method CountNew(keys: set<string>, newMemberships: map<string, int>, membership: MembershipRow,
                  ghost counted: seq<MembershipRow>)
    returns (newMemberships': map<string, int>)
    requires CountsOf(keys, newMemberships, counted, NewLanding)
    ensures CountsOf(keys, newMemberships', counted + [membership], NewLanding)
  {
    newMemberships' := newMemberships;
    forall k ensures Count(counted + [membership], k, NewLanding)
        == Count(counted, k, NewLanding) + (if NewLanding(membership) == Some(k) then 1 else 0) {
      CountSnoc(counted, membership, k, NewLanding);
    }
    if membership.createdAt.Some? {
      var createdMonth := KeyOf(membership.createdAt.value);
      if createdMonth in newMemberships' {
        newMemberships' := newMemberships'[createdMonth := newMemberships'[createdMonth] + 1];
      }
    }
  }

  /** The renewal block of the loop body. */
  method CountRenewal(keys: set<string>, renewals: map<string, int>, membership: MembershipRow,
                      ghost counted: seq<MembershipRow>)
    returns (renewals': map<string, int>)
    requires CountsOf(keys, renewals, counted, RenewalLanding)
    ensures CountsOf(keys, renewals', counted + [membership], RenewalLanding)
  {
    renewals' := renewals;
    forall k ensures Count(counted + [membership], k, RenewalLanding)
        == Count(counted, k, RenewalLanding) + (if RenewalLanding(membership) == Some(k) then 1 else 0) {
      CountSnoc(counted, membership, k, RenewalLanding);
    }
    if membership.lastRenewal.Some? {
      var renewalMonth := KeyOf(membership.lastRenewal.value);
      var createdMonth := if membership.createdAt.Some? then Some(KeyOf(membership.createdAt.value)) else None;
      if createdMonth != Some(renewalMonth) && renewalMonth in renewals' {
        renewals' := renewals'[renewalMonth := renewals'[renewalMonth] + 1];
      }
    }
  }

  /** The churn block of the loop body. */
  method CountChurn(keys: set<string>, churns: map<string, int>, membership: MembershipRow, now: Date,
                    ghost counted: seq<MembershipRow>)
    returns (churns': map<string, int>)
    requires CountsOf(keys, churns, counted, ChurnLandingAt(now))
    ensures CountsOf(keys, churns', counted + [membership], ChurnLandingAt(now))
  {
    churns' := churns;
    forall k ensures Count(counted + [membership], k, ChurnLandingAt(now))
        == Count(counted, k, ChurnLandingAt(now)) + (if ChurnLanding(membership, now) == Some(k) then 1 else 0) {
      CountSnoc(counted, membership, k, ChurnLandingAt(now));
    }
    if membership.lastRenewal.Some? {
      var expectedRenewal := AddOneYear(membership.lastRenewal.value);
      var expectedRenewalMonth := KeyOf(expectedRenewal);
      if expectedRenewalMonth in churns' && membership.status != Some("Active") {
        if Le(expectedRenewal, now) {
          churns' := churns'[expectedRenewalMonth := churns'[expectedRenewalMonth] + 1];
        }
      }
    }
  }

  /** The three counters initialised to zero for every month of the window. */
  method ZeroCounters(months: seq<Bucket>, ghost now: Date)
    returns (newMemberships: map<string, int>, renewals: map<string, int>, churns: map<string, int>)
    ensures Tallied(KeySet(months), newMemberships, renewals, churns, [], now)
  {
    newMemberships, renewals, churns := map[], map[], map[];
    for j := 0 to |months|
      invariant ZeroOn(KeySet(months[..j]), newMemberships, 0)
      invariant ZeroOn(KeySet(months[..j]), renewals, 0)
      invariant ZeroOn(KeySet(months[..j]), churns, 0)
    {
      ZeroOnSnoc(months, j, newMemberships, 0);
      ZeroOnSnoc(months, j, renewals, 0);
      ZeroOnSnoc(months, j, churns, 0);
      newMemberships := newMemberships[months[j].key := 0];
      renewals := renewals[months[j].key := 0];
      churns := churns[months[j].key := 0];
    }
    assert months[..|months|] == months;
    ZerosCountNothing(KeySet(months), newMemberships, NewLanding);
    ZerosCountNothing(KeySet(months), renewals, RenewalLanding);
    ZerosCountNothing(KeySet(months), churns, ChurnLandingAt(now));
  }

  /** Zeroed counters are the counts of no rows. */
  lemma ZerosCountNothing(keys: set<string>, m: map<string, int>, landing: MembershipRow -> Option<string>)
    requires ZeroOn(keys, m, 0)
    ensures CountsOf(keys, m, [], landing)
  {
  }

  /** The body of `memberships.forEach`: the three blocks, one after the other. */
  method CountMembership(keys: set<string>, newMemberships: map<string, int>, renewals: map<string, int>,
                         churns: map<string, int>, membership: MembershipRow, now: Date,
                         ghost counted: seq<MembershipRow>)
    returns (newMemberships': map<string, int>, renewals': map<string, int>, churns': map<string, int>)
    requires Tallied(keys, newMemberships, renewals, churns, counted, now)
    ensures Tallied(keys, newMemberships', renewals', churns', counted + [membership], now)
  {
    newMemberships' := CountNew(keys, newMemberships, membership, counted);
    renewals' := CountRenewal(keys, renewals, membership, counted);
    churns' := CountChurn(keys, churns, membership, now, counted);
  }

  /**
   * `fetchMembershipMetrics`, with the query's answer and the current
   * instant passed in. All three maps have exactly the window's keys and
   * hold, per month, how many rows land there; a failed query or null
   * data leaves them all at zero.
   */
  method FetchMembershipMetrics(months: seq<Bucket>, result: RowsResult, now: Date)
    returns (newMemberships: map<string, int>, renewals: map<string, int>, churns: map<string, int>)
    ensures Tallied(KeySet(months), newMemberships, renewals, churns, CountedRows(result), now)
  {
    newMemberships, renewals, churns := ZeroCounters(months, now);
    if result.QueryFailed? || result.data.None? {
      return;
    }
    var memberships := result.data.value;
    var keys := KeySet(months);
    ghost var counted: seq<MembershipRow> := [];
    for j := 0 to |memberships|
      invariant counted == memberships[..j]
      invariant Tallied(keys, newMemberships, renewals, churns, counted, now)
    {
      newMemberships, renewals, churns :=
        CountMembership(keys, newMemberships, renewals, churns, memberships[j], now, counted);
      counted := counted + [memberships[j]];
    }
    assert counted == memberships;
  }

  // ---------------------------------------------------------------------
  // Properties of the lifecycle counts

  /** An `Active` membership is never counted as a churn, however long ago it renewed. */
  lemma {:induction false} ActiveNeverChurns(rows: seq<MembershipRow>, key: string, now: Date)
    requires forall i :: 0 <= i < |rows| ==> rows[i].status == Some("Active")
    ensures Count(rows, key, ChurnLandingAt(now)) == 0
    decreases |rows|
  {
    if |rows| > 0 {
      ActiveNeverChurns(rows[..|rows| - 1], key, now);
    }
  }

  /** A membership last renewed in the month it was created is never counted as a renewal. */
  lemma {:induction false} FirstMonthIsNoRenewal(rows: seq<MembershipRow>, key: string)
    requires forall i :: 0 <= i < |rows| ==>
      rows[i].createdAt.Some? && rows[i].lastRenewal.Some? && KeyOf(rows[i].createdAt.value) == KeyOf(rows[i].lastRenewal.value)
    ensures Count(rows, key, RenewalLanding) == 0
    decreases |rows|
  {
    if |rows| > 0 {
      FirstMonthIsNoRenewal(rows[..|rows| - 1], key);
    }
  }

  /**
   * A churn is counted only once its expected renewal has passed, and it
   * lands on the month of that expected renewal, which lies after the
   * last renewal: twelve months later, or thirteen when the day does
   * not exist a year on (for a real date, only a 29 February).
   */
  lemma ChurnTiming(r: MembershipRow, now: Date, key: string)
    requires ChurnLanding(r, now) == Some(key)
    ensures r.lastRenewal.Some? && r.status != Some("Active")
    ensures var lr := r.lastRenewal.value; var e := AddOneYear(lr);
      && Le(e, now) && Le(lr, e) && e != lr && key == KeyOf(e)
      && MonthIndex(e.year, e.month) == MonthIndex(lr.year, lr.month)
           + (if lr.day <= DaysIn(lr.year + 1, lr.month) then 12 else 13)
  {
    var lr := r.lastRenewal.value;
    if lr.day <= DaysIn(lr.year + 1, lr.month) {
      assert AddOneYear(lr) == lr.(year := lr.year + 1);
    } else {
      assert AddOneYear(lr) == Date(lr.year + 1, lr.month + 1, lr.day - DaysIn(lr.year + 1, lr.month), lr.millis);
    }
  }

  /** For a real date, the thirteen-month case of `ChurnTiming` is exactly 29 February. */
  lemma SkippedDayIsLeapDay(lr: Date)
    requires ValidDate(lr)
    ensures lr.day > DaysIn(lr.year + 1, lr.month) <==> lr.month == 2 && lr.day == 29
  {
  }

  /** Sum of the counts of `rows` over the months `ks`. */
  function CountOver(rows: seq<MembershipRow>, ks: seq<string>, landing: MembershipRow -> Option<string>): nat
    decreases |ks|
  {
    if |ks| == 0 then 0 else Count(rows, ks[0], landing) + CountOver(rows, ks[1..], landing)
  }

  /** How many of the months `ks` are the landing `l`. */
  function Hits(ks: seq<string>, l: Option<string>): nat
    decreases |ks|
  {
    if |ks| == 0 then 0 else (if l == Some(ks[0]) then 1 else 0) + Hits(ks[1..], l)
  }

  lemma {:induction false} HitsAtMostOne(ks: seq<string>, l: Option<string>)
    requires Distinct(ks)
    ensures Hits(ks, l) <= 1
    ensures l.None? || l.value !in ks ==> Hits(ks, l) == 0
    decreases |ks|
  {
    if |ks| > 0 {
      assert Distinct(ks[1..]) by {
        forall i, j | 0 <= i < j < |ks| - 1 ensures ks[1..][i] != ks[1..][j] {
          assert ks[1..][i] == ks[i + 1] && ks[1..][j] == ks[j + 1];
        }
      }
      HitsAtMostOne(ks[1..], l);
      if l == Some(ks[0]) {
        assert ks[0] !in ks[1..] by {
          forall i | 0 <= i < |ks| - 1 ensures ks[1..][i] != ks[0] {
            assert ks[1..][i] == ks[i + 1];
          }
        }
      } else if l.Some? && l.value !in ks {
        assert l.value !in ks[1..];
      }
    }
  }

  lemma {:induction false} CountOverSnoc(rows: seq<MembershipRow>, r: MembershipRow, ks: seq<string>,
                                          landing: MembershipRow -> Option<string>)
    ensures CountOver(rows + [r], ks, landing) == CountOver(rows, ks, landing) + Hits(ks, landing(r))
    decreases |ks|
  {
    if |ks| > 0 {
      CountSnoc(rows, r, ks[0], landing);
      CountOverSnoc(rows, r, ks[1..], landing);
    }
  }

  /**
   * Each row lands in at most one month, so over distinct months (such
   * as the window's) a counter adds up to at most the number of rows.
   */
  lemma {:induction false} CountsBoundedByRows(rows: seq<MembershipRow>, ks: seq<string>,
                                                landing: MembershipRow -> Option<string>)
    requires Distinct(ks)
    ensures CountOver(rows, ks, landing) <= |rows|
    decreases |rows|
  {
    if |rows| == 0 {
      CountOverEmpty(ks, landing);
    } else {
      var init, r := rows[..|rows| - 1], rows[|rows| - 1];
      assert rows == init + [r];
      CountsBoundedByRows(init, ks, landing);
      CountOverSnoc(init, r, ks, landing);
      HitsAtMostOne(ks, landing(r));
    }
  }

  lemma {:induction false} CountOverEmpty(ks: seq<string>, landing: MembershipRow -> Option<string>)
    ensures CountOver([], ks, landing) == 0
    decreases |ks|
  {
    if |ks| > 0 {
      CountOverEmpty(ks[1..], landing);
    }
  }

  /** The window's keys are distinct, so each counter sums to at most the number of rows over it. */
  lemma WindowCountsBounded(rows: seq<MembershipRow>, now: Date, landing: MembershipRow -> Option<string>)
    ensures CountOver(rows, Keys(Window(now)), landing) <= |rows|
  {
    WindowKeysDistinct(now);
    var ks := Keys(Window(now));
    assert Distinct(ks);
    CountsBoundedByRows(rows, ks, landing);
  }

  // ---------------------------------------------------------------------
  // Worked examples

  /** A lapsed membership renewed on 2023-06-01 churns in 2024-06, seen on 2024-07-01. */
  lemma LapsedChurnExample()
    ensures ChurnLanding(MembershipRow(Some(Date(2022, 6, 1, 0)), Some(Date(2023, 6, 1, 0)), Some("Lapsed")),
                         Date(2024, 7, 1, 0)) == Some("2024-06")
  {
    assert KeyOf(Date(2024, 6, 1, 0)) == "2024-06";
  }
}
