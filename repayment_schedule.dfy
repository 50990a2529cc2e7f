/** The monthly repayment schedule the subgraph writes when a pool is activated
    and when a roll is accepted: consecutive periods of `monthlyRound` seconds
    from a start date, the last one clipped to the end date. */
module RepaymentSchedule {
  import opened GraphStore
  import opened SubgraphIds
  import Tables

  /** The `[startDate, endDate]` pairs the period loop creates, in order: while
      the start is at most `end`, a period of `round` seconds that is clipped to
      `end` unless it ends strictly before it. */
  function Periods(start: int, end: int, round: int): (ps: seq<(int, int)>)
    requires round > 0
    ensures |ps| == 0 <==> start > end
    decreases if start <= end then end - start + 1 else 0
  {
    if start > end then []
    else
      var periodEnd := start + round;
      [(start, if periodEnd < end then periodEnd else end)] + Periods(periodEnd, end, round)
  }

  lemma DivUnique(x: int, round: int, q: int, m: int)
    requires round > 0 && 0 <= m < round && x == q * round + m
    ensures x / round == q && x % round == m
  {
    var q', m' := x / round, x % round;
    assert (q' - q) * round == m - m';
    if q' > q {
      MulAtLeast(q' - q, round);
    } else if q' < q {
      MulAtLeast(q - q', round);
    }
  }

  lemma MulAtLeast(a: int, b: int)
    requires a >= 1 && b > 0
    ensures a * b >= b
  {
    assert a * b == (a - 1) * b + b;
    assert (a - 1) * b >= 0;
  }

  lemma DivStep(x: int, round: int)
    requires round > 0 && x >= round
    ensures x / round == (x - round) / round + 1 && x % round == (x - round) % round
  {
    var q, m := (x - round) / round, (x - round) % round;
    assert x - round == q * round + m;
    assert (q + 1) * round == q * round + round;
    DivUnique(x, round, q + 1, m);
  }

  lemma DivSmall(x: int, round: int)
    requires 0 <= x < round
    ensures x / round == 0 && x % round == x
  {
    DivUnique(x, round, 0, x);
  }

  /** A schedule from `start` to `end` has `(end - start) / round + 1` periods. */
  lemma {:induction false} PeriodsCount(start: int, end: int, round: int)
    requires round > 0 && start <= end
    ensures |Periods(start, end, round)| == (end - start) / round + 1
    decreases end - start
  {
    if start + round > end {
      DivSmall(end - start, round);
    } else {
      PeriodsCount(start + round, end, round);
      DivStep(end - start, round);
    }
  }

  /** The periods are consecutive: the first starts at `start`, each one starts
      where the previous one ended, and the last one ends at `end`. */
  lemma {:induction false} PeriodsChain(start: int, end: int, round: int)
    requires round > 0 && start <= end
    ensures var ps := Periods(start, end, round);
      ps[0].0 == start && ps[|ps| - 1].1 == end &&
      forall k :: 0 < k < |ps| ==> ps[k].0 == ps[k - 1].1
    decreases end - start
  {
    var ps := Periods(start, end, round);
    if start + round <= end {
      PeriodsChain(start + round, end, round);
      var tail := Periods(start + round, end, round);
      assert ps == [ps[0]] + tail;
      forall k | 0 < k < |ps|
        ensures ps[k].0 == ps[k - 1].1
      {
        if k > 1 {
          assert ps[k] == tail[k - 1] && ps[k - 1] == tail[k - 2];
        }
      }
    }
  }

  /** Every period but the last lasts exactly `round`, and every period lies
      within `[start, end]` with its start at most its end. */
  lemma {:induction false} PeriodsLengths(start: int, end: int, round: int)
    requires round > 0
    ensures forall k :: 0 <= k < |Periods(start, end, round)| - 1 ==>
      Periods(start, end, round)[k].1 == Periods(start, end, round)[k].0 + round
    ensures forall k :: 0 <= k < |Periods(start, end, round)| ==>
      start <= Periods(start, end, round)[k].0 <= Periods(start, end, round)[k].1 <= end
    decreases if start <= end then end - start + 1 else 0
  {
    if start <= end {
      var ps := Periods(start, end, round);
      var tail := Periods(start + round, end, round);
      PeriodsLengths(start + round, end, round);
      assert ps == [ps[0]] + tail;
      assert ps[0] == (start, if start + round < end then start + round else end);
      forall k | 0 <= k < |ps|
        ensures k < |ps| - 1 ==> ps[k].1 == ps[k].0 + round
        ensures start <= ps[k].0 <= ps[k].1 <= end
      {
        if k > 0 {
          assert ps[k] == tail[k - 1];
          assert start + round <= tail[k - 1].0 <= tail[k - 1].1 <= end;
          assert k < |ps| - 1 ==> tail[k - 1].1 == tail[k - 1].0 + round;
        }
      }
    }
  }

  /** The last period is the empty period `[end, end]` exactly when `end - start`
      is a whole number of rounds. */
  lemma {:induction false} PeriodsTrailing(start: int, end: int, round: int)
    requires round > 0 && start <= end
    ensures var ps := Periods(start, end, round);
      ps[|ps| - 1] == (end, end) <==> (end - start) % round == 0
    decreases end - start
  {
    var ps := Periods(start, end, round);
    if start + round > end {
      DivSmall(end - start, round);
    } else {
      var tail := Periods(start + round, end, round);
      PeriodsTrailing(start + round, end, round);
      DivStep(end - start, round);
      assert ps[|ps| - 1] == tail[|tail| - 1];
    }
  }

  /** `createRepayment(pool, index, startDate, endDate, size)`: an unpaid
      period. */
  function NewRepayment(pool: string, index: int, startDate: int, endDate: int, size: int): Repayment
  {
    Repayment(CreateRepaymentId(pool, index), pool, index, startDate, endDate, 0, 0, 0, size)
  }

  /** The ids of `n` consecutive periods of a pool from `index`. */
  function RepaymentIds(pool: string, index: int, n: nat): (ids: seq<string>)
    decreases n
    ensures |ids| == n
  {
    if n == 0 then [] else [CreateRepaymentId(pool, index)] + RepaymentIds(pool, index + 1, n - 1)
  }

  /** The `k`-th id is the id of period `index + k`. */
  lemma {:induction false} RepaymentIdsAt(pool: string, index: int, n: nat, k: nat)
    requires k < n
    ensures RepaymentIds(pool, index, n)[k] == CreateRepaymentId(pool, index + k)
    decreases n
  {
    var tail := RepaymentIds(pool, index + 1, n - 1);
    assert RepaymentIds(pool, index, n) == [CreateRepaymentId(pool, index)] + tail;
    if k > 0 {
      RepaymentIdsAt(pool, index + 1, n - 1, k - 1);
      assert index + 1 + (k - 1) == index + k;
    }
  }

  lemma RepaymentIdsDistinct(pool: string, index: int, n: nat)
    ensures Tables.Distinct(RepaymentIds(pool, index, n))
  {
    var ids := RepaymentIds(pool, index, n);
    forall i, j | 0 <= i < j < n
      ensures ids[i] != ids[j]
    {
      RepaymentIdsAt(pool, index, n, i);
      RepaymentIdsAt(pool, index, n, j);
      RepaymentIdInjective(pool, index + i, index + j);
    }
  }

  /** The unpaid repayments for the periods `ps`, numbered from `index`. */
  function NewRepayments(pool: string, index: int, ps: seq<(int, int)>, size: int): (rs: seq<Repayment>)
    decreases |ps|
    ensures |rs| == |ps|
  {
    if |ps| == 0 then [] else [NewRepayment(pool, index, ps[0].0, ps[0].1, size)] + NewRepayments(pool, index + 1, ps[1..], size)
  }

  /** The `k`-th repayment covers the `k`-th period under index `index + k`. */
  lemma {:induction false} NewRepaymentsAt(pool: string, index: int, ps: seq<(int, int)>, size: int, k: nat)
    requires k < |ps|
    ensures NewRepayments(pool, index, ps, size)[k] == NewRepayment(pool, index + k, ps[k].0, ps[k].1, size)
    decreases |ps|
  {
    if k > 0 {
      NewRepaymentsAt(pool, index + 1, ps[1..], size, k - 1);
    }
  }

  /** The repayment table after saving the periods `ps` under the indices
      `index`, `index + 1`, …. */
  function Scheduled(repayments: map<string, Repayment>, pool: string, index: int, ps: seq<(int, int)>, size: int): map<string, Repayment>
  {
    Tables.PutAll(repayments, RepaymentIds(pool, index, |ps|), NewRepayments(pool, index, ps, size))
  }

  /** The table the period loop leaves, built one period at a time from the
      front, as the loop builds it. */
  function ScheduleFrom(repayments: map<string, Repayment>, pool: string, index: int, start: int, end: int, round: int, size: int): map<string, Repayment>
    requires round > 0
    decreases if start <= end then end - start + 1 else 0
  {
    if start > end then repayments
    else
      var periodEnd := start + round;
      var repayment := NewRepayment(pool, index, start, if periodEnd < end then periodEnd else end, size);
      ScheduleFrom(repayments[repayment.id := repayment], pool, index + 1, periodEnd, end, round, size)
  }

  lemma ScheduleFromStep(repayments: map<string, Repayment>, pool: string, index: int, start: int, end: int, round: int, size: int)
    requires round > 0 && start <= end
    ensures ScheduleFrom(repayments, pool, index, start, end, round, size) ==
      ScheduleFrom(repayments[CreateRepaymentId(pool, index) := NewRepayment(pool, index, start, if start + round < end then start + round else end, size)],
        pool, index + 1, start + round, end, round, size)
  {
  }

  lemma PeriodsStep(start: int, end: int, round: int)
    requires round > 0 && start <= end
    ensures |Periods(start, end, round)| == 1 + |Periods(start + round, end, round)|
  {
  }

  /** Building from the front gives the table of all the periods. */
  lemma {:induction false} ScheduleFromIsScheduled(repayments: map<string, Repayment>, pool: string, index: int, start: int, end: int, round: int, size: int)
    requires round > 0
    ensures ScheduleFrom(repayments, pool, index, start, end, round, size) == Scheduled(repayments, pool, index, Periods(start, end, round), size)
    decreases if start <= end then end - start + 1 else 0
  {
    if start <= end {
      var ps := Periods(start, end, round);
      var rest := Periods(start + round, end, round);
      var first := NewRepayment(pool, index, start, if start + round < end then start + round else end, size);
      var ids := RepaymentIds(pool, index + 1, |rest|);
      var rs := NewRepayments(pool, index + 1, rest, size);
      assert ps == [(start, if start + round < end then start + round else end)] + rest;
      assert ps[1..] == rest;
      assert RepaymentIds(pool, index, |ps|) == [first.id] + ids;
      assert NewRepayments(pool, index, ps, size) == [first] + rs;
      Tables.PutAllCons(repayments, first.id, first, ids, rs);
      ScheduleFromStep(repayments, pool, index, start, end, round, size);
      ScheduleFromIsScheduled(repayments[first.id := first], pool, index + 1, start + round, end, round, size);
    }
  }

  /** The `k`-th period is stored under the id of index `index + k`. */
  lemma ScheduledAt(repayments: map<string, Repayment>, pool: string, index: int, ps: seq<(int, int)>, size: int, k: nat)
    requires k < |ps|
    ensures var id := CreateRepaymentId(pool, index + k);
      id in Scheduled(repayments, pool, index, ps, size) &&
      Scheduled(repayments, pool, index, ps, size)[id] == NewRepayment(pool, index + k, ps[k].0, ps[k].1, size)
  {
    RepaymentIdsDistinct(pool, index, |ps|);
    RepaymentIdsAt(pool, index, |ps|, k);
    NewRepaymentsAt(pool, index, ps, size, k);
    Tables.PutAllAt(repayments, RepaymentIds(pool, index, |ps|), NewRepayments(pool, index, ps, size), k);
  }

  /** Every other entry of the table is left as it was. */
  lemma ScheduledOther(repayments: map<string, Repayment>, pool: string, index: int, ps: seq<(int, int)>, size: int, id: string)
    requires forall j :: index <= j < index + |ps| ==> id != CreateRepaymentId(pool, j)
    ensures var r := Scheduled(repayments, pool, index, ps, size);
      (id in r <==> id in repayments) && (id in repayments ==> r[id] == repayments[id])
  {
    var ids := RepaymentIds(pool, index, |ps|);
    forall k | 0 <= k < |ps|
      ensures ids[k] != id
    {
      RepaymentIdsAt(pool, index, |ps|, k);
    }
    Tables.PutAllOther(repayments, ids, NewRepayments(pool, index, ps, size), id);
  }

  /** `createRepayment`: saves a fresh period. */
  method CreateRepayment(st: Store, pool: string, index: int, startDate: int, endDate: int, size: int)
    modifies st`repayments
    ensures st.repayments == old(st.repayments)[CreateRepaymentId(pool, index) := NewRepayment(pool, index, startDate, endDate, size)]
  {
    var repayment := Repayment(CreateRepaymentId(pool, index), pool, index, startDate, endDate, 0, 0, 0, size);
    st.repayments := st.repayments[repayment.id := repayment];
  }

  /** The number of turns the period loop makes. */
  function PeriodCount(start: int, end: int, round: int): nat
    requires round > 0
    decreases if start <= end then end - start + 1 else 0
  {
    if start > end then 0 else 1 + PeriodCount(start + round, end, round)
  }

  lemma {:induction false} PeriodsLength(start: int, end: int, round: int)
    requires round > 0
    ensures |Periods(start, end, round)| == PeriodCount(start, end, round)
    decreases if start <= end then end - start + 1 else 0
  {
    if start <= end {
      PeriodsLength(start + round, end, round);
    }
  }

  /** One turn of the period loop: saves the period that starts at `start`. */
  method CreateNextRepayment(st: Store, pool: string, index: int, start: int, endDate: int, round: int, size: int)
    requires round > 0 && start <= endDate
    modifies st`repayments
    ensures ScheduleFrom(st.repayments, pool, index + 1, start + round, endDate, round, size) ==
      ScheduleFrom(old(st.repayments), pool, index, start, endDate, round, size)
    ensures PeriodCount(start + round, endDate, round) + 1 == PeriodCount(start, endDate, round)
  {
    var periodEnd := start + round;
    ScheduleFromStep(st.repayments, pool, index, start, endDate, round, size);
    PeriodsStep(start, endDate, round);
    if periodEnd < endDate {
      CreateRepayment(st, pool, index, start, periodEnd, size);
    } else {
      CreateRepayment(st, pool, index, start, endDate, size);
    }
  }

  /** The period loop of `handleActivate` and `handleRollAccept`; returns the
      index after the last period created. */
  method CreateRepayments(st: Store, pool: string, index: int, startDate: int, endDate: int, round: int, size: int) returns (next: int)
    requires round > 0
    modifies st`repayments
    ensures next == index + |Periods(startDate, endDate, round)|
    ensures st.repayments == ScheduleFrom(old(st.repayments), pool, index, startDate, endDate, round, size)
  {
    ghost var count := |Periods(startDate, endDate, round)|;
    PeriodsLength(startDate, endDate, round);
    ghost var final := ScheduleFrom(st.repayments, pool, index, startDate, endDate, round, size);
    next := index;
    var start := startDate;
    while start <= endDate
      invariant next - index + PeriodCount(start, endDate, round) == count
      invariant ScheduleFrom(st.repayments, pool, next, start, endDate, round, size) == final
      decreases if start <= endDate then endDate - start + 1 else 0
    {
      CreateNextRepayment(st, pool, next, start, endDate, round, size);
      next := next + 1;
      start := start + round;
    }
  }
}
