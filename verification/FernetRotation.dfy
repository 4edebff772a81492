/** The cron calendar for rotating keystone's fernet keys
    (ansible/roles/keystone/files/fernet_rotate_cron_generator.py).

    Host i of N rotates the keys in the time slots m with m % N == i, slot m starting T * m minutes into the
    calendar period.  The main results are about the minutes at which crond fires the generated jobs. */
module FernetRotation {
  import opened Common

  const MINUTE_SPAN := 1
  const HOUR_SPAN := 60
  const DAY_SPAN := 24 * HOUR_SPAN
  const WEEK_SPAN := 7 * DAY_SPAN

  datatype Field = Any | At(n: int)
  datatype Cron = Cron(min: Field, hour: Field, day: Field)
  datatype TooLong = RotationIntervalTooLong

  /** The calendar period over which a schedule repeats: one for each branch of the generator. */
  datatype Calendar = Weekly | Daily | Hourly

  function CalendarOf(n: int, t: int): Calendar {
    if t * n > DAY_SPAN then Weekly else if t * n > HOUR_SPAN then Daily else Hourly
  }

  function Span(c: Calendar): int {
    match c
    case Weekly => WEEK_SPAN
    case Daily => DAY_SPAN
    case Hourly => HOUR_SPAN
  }

  /** The job for the given minute of the calendar period.  The weekly calendar takes the hour modulo an hour
      rather than modulo a day, as the generator does. */
  function Encode(c: Calendar, time: int): Cron {
    match c
    case Weekly => Cron(At(time % HOUR_SPAN), At(time % HOUR_SPAN), At(time / DAY_SPAN))
    case Daily => Cron(At(time % HOUR_SPAN), At(time / HOUR_SPAN), Any)
    case Hourly => Cron(At(time / MINUTE_SPAN), Any, Any)
  }

  /** The number of whole slots in the calendar period. */
  function Slots(n: int, t: int): int
    requires 1 <= t
  {
    Span(CalendarOf(n, t)) / t
  }

  /** The number of slots m below Slots(n, t) with m == i, i + n, i + 2 * n, ... */
  function JobCount(i: int, n: int, t: int): nat
    requires 1 <= t && 1 <= n
  {
    if i < Slots(n, t) then (Slots(n, t) - 1 - i) / n + 1 else 0
  }

  /** The jobs of host i: what Generate returns. */
  function Schedule(i: int, n: int, t: int): seq<Cron>
    requires 1 <= t && 1 <= n
  {
    seq(JobCount(i, n, t), k => Encode(CalendarOf(n, t), t * (i + k * n)))
  }

  // ----- The generator -----

  lemma SlotFits(t: int, m: int, span: int)
    requires 1 <= t
    ensures t * m + t <= span <==> m < span / t
  {
    var q := span / t;
    assert span == q * t + span % t;
    assert t * m + t == (m + 1) * t && m * t == t * m;
    ScaleMonotone(m + 1, q, t);
    ScaleMonotone(q, m, t);
  }

  lemma CountIs(i: int, n: int, t: int, c: nat)
    requires 1 <= t && 1 <= n
    requires i + c * n >= Slots(n, t)
    requires c > 0 ==> i + (c - 1) * n < Slots(n, t)
    ensures c == JobCount(i, n, t)
  {
    if c > 0 {
      var d := Slots(n, t) - 1 - i;
      assert (c - 1) * n <= d < (c - 1) * n + n;
      Quotient(d, n, c - 1);
      assert 0 <= (c - 1) * n;
    }
  }

  lemma Quotient(d: int, n: int, q: int)
    requires 1 <= n && q * n <= d < q * n + n
    ensures d / n == q
  {
    var e := d / n;
    assert e * n <= d < e * n + n;
    ScaleMonotone(e + 1, q, n);
    ScaleMonotone(q + 1, e, n);
  }

  lemma ScaleMonotone(a: int, b: int, n: int)
    requires 0 <= n
    ensures a <= b ==> a * n <= b * n
  {
    if a <= b {
      assert 0 <= (b - a) * n;
    }
  }

  /** The loops only make progress for a positive interval and at least one host. */
  method Generate(hostIndex: int, totalHosts: int, totalRotationMins: int) returns (r: Result<seq<Cron>, TooLong>)
    requires hostIndex < totalHosts ==> 1 <= totalRotationMins && 1 <= totalHosts
    ensures r.Err? <==> hostIndex < totalHosts && totalRotationMins > WEEK_SPAN
    ensures hostIndex >= totalHosts ==> r == Ok([])
    ensures hostIndex < totalHosts && r.Ok? ==> r.value == Schedule(hostIndex, totalHosts, totalRotationMins)
  {
    var crons := [];
    if hostIndex >= totalHosts {
      return Ok(crons);
    }
    var hostRotationMins := totalRotationMins * totalHosts;
    var hostRotationOffset := totalRotationMins * hostIndex;
    ghost var cal := CalendarOf(totalHosts, totalRotationMins);
    ghost var m := hostIndex;
    if totalRotationMins > WEEK_SPAN {
      return Err(RotationIntervalTooLong);
    } else if hostRotationMins > DAY_SPAN {
      var time := hostRotationOffset;
      while time + totalRotationMins <= WEEK_SPAN
        invariant Progress(hostIndex, totalHosts, totalRotationMins, cal, crons, m, time)
        decreases WEEK_SPAN - time
      {
        var day := time / DAY_SPAN;
        var hour := time % HOUR_SPAN;
        var min := time % HOUR_SPAN;
        Advance(hostIndex, totalHosts, totalRotationMins, cal, crons, m, time);
        crons := crons + [Cron(At(min), At(hour), At(day))];
        time := time + hostRotationMins;
        m := m + totalHosts;
      }
      Finish(hostIndex, totalHosts, totalRotationMins, crons, m, time);
    } else if hostRotationMins > HOUR_SPAN {
      var time := hostRotationOffset;
      while time + totalRotationMins <= DAY_SPAN
        invariant Progress(hostIndex, totalHosts, totalRotationMins, cal, crons, m, time)
        decreases DAY_SPAN - time
      {
        var hour := time / HOUR_SPAN;
        var min := time % HOUR_SPAN;
        Advance(hostIndex, totalHosts, totalRotationMins, cal, crons, m, time);
        crons := crons + [Cron(At(min), At(hour), Any)];
        time := time + hostRotationMins;
        m := m + totalHosts;
      }
      Finish(hostIndex, totalHosts, totalRotationMins, crons, m, time);
    } else {
      var time := hostRotationOffset;
      while time + totalRotationMins <= HOUR_SPAN
        invariant Progress(hostIndex, totalHosts, totalRotationMins, cal, crons, m, time)
        decreases HOUR_SPAN - time
      {
        var min := time / MINUTE_SPAN;
        Advance(hostIndex, totalHosts, totalRotationMins, cal, crons, m, time);
        crons := crons + [Cron(At(min), Any, Any)];
        time := time + hostRotationMins;
        m := m + totalHosts;
      }
      Finish(hostIndex, totalHosts, totalRotationMins, crons, m, time);
    }
    return Ok(crons);
  }

  /** What the three loops maintain: m is the slot that comes next, and everything before it is scheduled. */
  ghost predicate Progress(i: int, n: int, t: int, cal: Calendar, crons: seq<Cron>, m: int, time: int) {
    && m == i + |crons| * n
    && time == t * m
    && (|crons| > 0 ==> t * (m - n) + t <= Span(cal))
    && forall k :: 0 <= k < |crons| ==> crons[k] == Encode(cal, t * (i + k * n))
  }

  lemma Advance(i: int, n: int, t: int, cal: Calendar, crons: seq<Cron>, m: int, time: int)
    requires 1 <= t && 1 <= n
    requires Progress(i, n, t, cal, crons, m, time)
    requires time + t <= Span(cal)
    ensures Progress(i, n, t, cal, crons + [Encode(cal, time)], m + n, time + t * n)
    ensures time < time + t * n
  {
    var c := |crons|;
    assert c * n + n == (c + 1) * n;
    assert t * (m + n) == t * m + t * n;
    assert 0 < t * n;
  }

  lemma Finish(i: int, n: int, t: int, crons: seq<Cron>, m: int, time: int)
    requires 1 <= t && 1 <= n
    requires Progress(i, n, t, CalendarOf(n, t), crons, m, time)
    requires time + t > Span(CalendarOf(n, t))
    ensures crons == Schedule(i, n, t)
  {
    var span := Span(CalendarOf(n, t));
    SlotFits(t, m, span);
    if |crons| > 0 {
      SlotFits(t, m - n, span);
      assert m - n == i + (|crons| - 1) * n;
    }
    CountIs(i, n, t, |crons|);
  }

  // ----- When crond runs the jobs -----

  /** Whether crond runs the job at minute x, minute 0 being the start of a week. */
  predicate Fires(c: Cron, x: int) {
    && (c.min.At? ==> x % 60 == c.min.n)
    && (c.hour.At? ==> x / 60 % 24 == c.hour.n)
    && (c.day.At? ==> x / 1440 % 7 == c.day.n)
  }

  ghost predicate HostFires(i: int, n: int, t: int, x: int)
    requires 1 <= t && 1 <= n
  {
    exists k :: 0 <= k < JobCount(i, n, t) && Fires(Schedule(i, n, t)[k], x)
  }

  /** The slot that begins at minute x of the period, if there is one, belongs to host i. */
  predicate OwnsSlotAt(i: int, n: int, t: int, x: int)
    requires 1 <= t && 1 <= n
  {
    var r := x % Span(CalendarOf(n, t));
    r % t == 0 && r / t < Slots(n, t) && r / t % n == i
  }

  /** A minute of the week whose hour of the day equals its minute of the hour: the minutes for which the weekly
      calendar writes the right hour. */
  predicate OnDiagonal(time: int) {
    time / 60 % 24 == time % 60
  }

  /** Exactly when the weekly calendar writes the right hour in every slot (EveryJobIsFaithful, below). */
  predicate Faithful(n: int, t: int)
    requires 1 <= t
  {
    CalendarOf(n, t).Weekly? ==>
      Slots(n, t) <= 1 || (t % DAY_SPAN % 61 == 0 && t % DAY_SPAN / 61 * (Slots(n, t) - 1) < 24)
  }

  /** The entry is one that crond takes. */
  predicate InRange(c: Cron) {
    && (c.min.At? ==> 0 <= c.min.n < 60)
    && (c.hour.At? ==> 0 <= c.hour.n < 24)
    && (c.day.At? ==> 0 <= c.day.n < 7)
  }

  /** The minute of the period at which crond runs the job meant for the given minute, if it ever does. */
  function FiringMinute(c: Calendar, time: int): Option<int> {
    if !c.Weekly? then Some(time)
    else if time % HOUR_SPAN < 24 then Some(time / DAY_SPAN * DAY_SPAN + time % HOUR_SPAN * 61)
    else None
  }

  /** A job fires at its firing minute of every period and at no other; that is the minute meant for it, unless it is
      weekly and off the diagonal. */
  lemma FiresAtItsTime(c: Calendar, time: int, x: int)
    requires 0 <= time < Span(c)
    ensures Fires(Encode(c, time), x) <==> FiringMinute(c, time) == Some(x % Span(c))
    ensures FiringMinute(c, time) == Some(time) <==> (c.Weekly? ==> OnDiagonal(time))
    ensures InRange(Encode(c, time)) <==> FiringMinute(c, time).Some?
  {
    match c
    case Hourly =>
    case Daily =>
      MixedRadixDay(x);
      MixedRadixDay(time);
    case Weekly =>
      MixedRadixDay(time);
      MixedRadixWeek(time);
      FiresWeekly(time / DAY_SPAN, time % HOUR_SPAN, x);
  }

  lemma FiresWeekly(d: int, v: int, x: int)
    requires 0 <= d < 7 && 0 <= v < 60
    ensures x % 60 == v && x / 60 % 24 == v && x / 1440 % 7 == d <==> v < 24 && x % 10080 == 1440 * d + 61 * v
  {
    MixedRadixDay(x);
    MixedRadixWeek(x);
    if v < 24 && x % 10080 == 1440 * d + 61 * v {
      assert x / 1440 % 7 == d && x % 1440 == 61 * v;
    }
  }

  lemma MixedRadixDay(x: int)
    ensures x % 1440 == x / 60 % 24 * 60 + x % 60
  {
    var h := x / 60;
    var d := h / 24;
    assert x == 1440 * d + (h % 24 * 60 + x % 60);
  }

  lemma MixedRadixWeek(x: int)
    ensures x % 10080 == x / 1440 % 7 * 1440 + x % 1440
  {
    var d := x / 1440;
    var w := d / 7;
    assert x == 10080 * w + (d % 7 * 1440 + x % 1440);
  }

  // ----- When the weekly calendar is right -----

  lemma DiagonalAt(days: int, v: int, time: int)
    requires time == 1440 * days + 61 * v && 0 <= v < 47
    ensures OnDiagonal(time) <==> v < 24
  {
    assert time == 60 * (24 * days + v) + v;
    assert time / 60 == 24 * days + v;
  }

  lemma DiagonalForm(time: int)
    requires OnDiagonal(time)
    ensures time % DAY_SPAN == 61 * (time % 60)
  {
    MixedRadixDay(time);
  }

  /** Slot m of an interval that is days whole days and 61 * h minutes. */
  lemma SlotOnDiagonal(t: int, m: int, h: int)
    requires t % DAY_SPAN == 61 * h && 0 <= h && 0 <= m && h * m < 47
    ensures OnDiagonal(t * m) <==> h * m < 24
  {
    var days := t / DAY_SPAN;
    calc {
      t * m;
      (1440 * days + 61 * h) * m;
      1440 * (days * m) + 61 * (h * m);
    }
    assert 0 <= h * m;
    DiagonalAt(days * m, h * m, t * m);
  }

  ghost predicate EverySlotOnDiagonal(n: int, t: int)
    requires 1 <= t
  {
    forall m :: 0 <= m < Slots(n, t) ==> OnDiagonal(t * m)
  }

  lemma FaithfulSlots(n: int, t: int)
    requires 1 <= t && 1 <= n && CalendarOf(n, t).Weekly?
    ensures Faithful(n, t) <==> EverySlotOnDiagonal(n, t)
  {
    if Faithful(n, t) {
      forall m | 0 <= m < Slots(n, t)
        ensures OnDiagonal(t * m)
      {
        FaithfulSlot(n, t, m);
      }
    } else {
      SomeSlotOffDiagonal(n, t);
    }
  }

  lemma FaithfulSlot(n: int, t: int, m: int)
    requires 1 <= t && CalendarOf(n, t).Weekly? && Faithful(n, t) && 0 <= m < Slots(n, t)
    ensures OnDiagonal(t * m)
  {
    if m > 0 {
      var h := t % DAY_SPAN / 61;
      ScaleMonotone(m, Slots(n, t) - 1, h);
      assert m * h == h * m;
      SlotOnDiagonal(t, m, h);
    }
  }

  lemma SomeSlotOffDiagonal(n: int, t: int)
    requires 1 <= t && CalendarOf(n, t).Weekly? && !Faithful(n, t)
    ensures !EverySlotOnDiagonal(n, t)
  {
    assert t * 1 == t;
    if OnDiagonal(t * 1) {
      DiagonalForm(t);
      var h := t % DAY_SPAN / 61;
      assert t % DAY_SPAN == 61 * h;
      OffDiagonal(t, h, Slots(n, t));
    }
  }

  lemma OffDiagonal(t: int, h: int, slots: int)
    requires 0 <= h < 24 && t % DAY_SPAN == 61 * h && 24 <= h * (slots - 1)
    ensures exists m :: 0 <= m < slots && !OnDiagonal(t * m)
  {
    var q, r := 23 / h, 23 % h;
    var m := q + 1;
    assert 23 == q * h + r && h * m == q * h + h;
    ScaleMonotone(slots - 1, q, h);
    assert (slots - 1) * h == h * (slots - 1);
    SlotOnDiagonal(t, m, h);
  }

  /** The minute of the period for which host i's k-th job is meant. */
  function JobTime(i: int, n: int, t: int, k: int): int {
    t * (i + k * n)
  }

  lemma JobTimeInPeriod(i: int, n: int, t: int, k: int)
    requires 1 <= t && 0 <= i < n && 0 <= k < JobCount(i, n, t)
    ensures 0 <= i + k * n < Slots(n, t)
    ensures 0 <= JobTime(i, n, t, k) && JobTime(i, n, t, k) + t <= Span(CalendarOf(n, t))
  {
    var d := Slots(n, t) - 1 - i;
    ScaleMonotone(k, d / n, n);
    assert 0 <= k * n <= d / n * n <= d;
    SlotFits(t, i + k * n, Span(CalendarOf(n, t)));
    assert 0 <= t * (i + k * n);
  }

  ghost predicate JobsFireOnTime(n: int, t: int)
    requires 1 <= t && 1 <= n
  {
    forall i, k, x :: 0 <= i < n && 0 <= k < JobCount(i, n, t) ==>
      (Fires(Schedule(i, n, t)[k], x) <==> x % Span(CalendarOf(n, t)) == JobTime(i, n, t, k))
  }

  /** Every job fires at its own minute of each period and at no other minute, exactly when Faithful(n, t): always
      in the daily and hourly calendars, not always in the weekly one. */
  lemma EveryJobIsFaithful(n: int, t: int)
    requires 1 <= t && 1 <= n
    ensures JobsFireOnTime(n, t) <==> Faithful(n, t)
  {
    if CalendarOf(n, t).Weekly? {
      FaithfulSlots(n, t);
    }
    if Faithful(n, t) {
      forall i, k, x | 0 <= i < n && 0 <= k < JobCount(i, n, t)
        ensures Fires(Schedule(i, n, t)[k], x) <==> x % Span(CalendarOf(n, t)) == JobTime(i, n, t, k)
      {
        JobFiresOnTime(i, n, t, k, x);
      }
    } else {
      SomeJobIsLate(n, t);
    }
  }

  lemma SomeJobIsLate(n: int, t: int)
    requires 1 <= t && 1 <= n && CalendarOf(n, t).Weekly? && !EverySlotOnDiagonal(n, t)
    ensures !JobsFireOnTime(n, t)
  {
    hide Fires, OnDiagonal, JobCount, JobsFireOnTime;
    var m :| 0 <= m < Slots(n, t) && !OnDiagonal(t * m);
    var i, k := SlotOwner(n, t, m);
    JobTimeInPeriod(i, n, t, k);
    FiresAtItsTime(CalendarOf(n, t), JobTime(i, n, t, k), JobTime(i, n, t, k));
    LateJob(i, n, t, k, JobTime(i, n, t, k));
  }

  lemma LateJob(i: int, n: int, t: int, k: int, x: int)
    requires 1 <= t && 0 <= i < n && 0 <= k < JobCount(i, n, t)
    requires !Fires(Schedule(i, n, t)[k], x) && x % Span(CalendarOf(n, t)) == JobTime(i, n, t, k)
    ensures !JobsFireOnTime(n, t)
  {
  }

  lemma JobFiresOnTime(i: int, n: int, t: int, k: int, x: int)
    requires 1 <= t && 0 <= i < n && 0 <= k < JobCount(i, n, t)
    requires CalendarOf(n, t).Weekly? ==> EverySlotOnDiagonal(n, t)
    ensures Fires(Schedule(i, n, t)[k], x) <==> x % Span(CalendarOf(n, t)) == JobTime(i, n, t, k)
  {
    JobTimeInPeriod(i, n, t, k);
    if CalendarOf(n, t).Weekly? {
      assert OnDiagonal(t * (i + k * n));
    }
    FiresAtItsTime(CalendarOf(n, t), JobTime(i, n, t, k), x);
  }

  /** Slot m is the (m / n)-th job of host m % n. */
  lemma SlotOwner(n: int, t: int, m: int) returns (i: int, k: int)
    requires 1 <= t && 1 <= n && 0 <= m < Slots(n, t)
    ensures 0 <= i < n && i == m % n && k == m / n && m == i + k * n
    ensures 0 <= k < JobCount(i, n, t)
  {
    i, k := m % n, m / n;
    var d := Slots(n, t) - 1 - i;
    assert k * n <= d;
    Quotient(d, n, d / n);
    ScaleMonotone(d / n + 1, k, n);
  }

  // ----- Safety of the rotation as crond runs it -----

  /** Minute x begins slot m. */
  ghost predicate Begins(n: int, t: int, m: int, x: int)
    requires 1 <= t
  {
    0 <= m < Slots(n, t) && x % Span(CalendarOf(n, t)) == t * m
  }

  lemma OwnedSlot(i: int, n: int, t: int, x: int) returns (m: int)
    requires 1 <= t && 1 <= n && OwnsSlotAt(i, n, t, x)
    ensures Begins(n, t, m, x) && m % n == i
  {
    m := x % Span(CalendarOf(n, t)) / t;
    assert 0 <= m by { Quotient(0, t, 0); ScaleMonotone(m + 1, 0, t); }
  }

  lemma OwnsIfBegins(n: int, t: int, m: int, x: int)
    requires 1 <= t && 1 <= n && Begins(n, t, m, x)
    ensures OwnsSlotAt(m % n, n, t, x)
  {
    var r := x % Span(CalendarOf(n, t));
    assert r == m * t;
    Quotient(r, t, m);
  }

  lemma ResidueIs(i: int, n: int, k: int)
    requires 0 <= i < n
    ensures (i + k * n) % n == i
  {
    Quotient(i + k * n, n, k);
  }

  /** Host i rotates exactly at the starts of its own slots. */
  lemma HostFiresInItsSlots(i: int, n: int, t: int, x: int)
    requires 1 <= t && 0 <= i < n && Faithful(n, t)
    ensures HostFires(i, n, t, x) <==> OwnsSlotAt(i, n, t, x)
  {
    EveryJobIsFaithful(n, t);
    if HostFires(i, n, t, x) {
      var k :| 0 <= k < JobCount(i, n, t) && Fires(Schedule(i, n, t)[k], x);
      JobTimeInPeriod(i, n, t, k);
      assert Begins(n, t, i + k * n, x);
      OwnsIfBegins(n, t, i + k * n, x);
      ResidueIs(i, n, k);
    }
    if OwnsSlotAt(i, n, t, x) {
      var m := OwnedSlot(i, n, t, x);
      var _, k := SlotOwner(n, t, m);
      assert JobTime(i, n, t, k) == t * m;
      assert Fires(Schedule(i, n, t)[k], x);
    }
  }

  lemma SlotsApart(t: int, m: int, m': int)
    requires 1 <= t
    ensures m < m' ==> t * m + t <= t * m'
  {
    ScaleMonotone(m + 1, m', t);
    assert (m + 1) * t == t * m + t && m' * t == t * m';
  }

  lemma SlotInPeriod(n: int, t: int, m: int, x: int)
    requires 1 <= t && Begins(n, t, m, x)
    ensures 0 <= t * m && t * m + t <= Span(CalendarOf(n, t))
  {
    SlotFits(t, m, Span(CalendarOf(n, t)));
  }

  lemma JobBegins(i: int, n: int, t: int, k: int, x: int)
    requires 1 <= t && 0 <= i < n && 0 <= k < JobCount(i, n, t)
    requires x % Span(CalendarOf(n, t)) == JobTime(i, n, t, k)
    ensures Begins(n, t, i + k * n, x) && (i + k * n) % n == i
  {
    JobTimeInPeriod(i, n, t, k);
    ResidueIs(i, n, k);
  }

  lemma SlotOf(i: int, k: int, n: int)
    requires 0 <= i < n
    ensures (i + k * n) / n == k && (i + k * n) % n == i
  {
    Quotient(i + k * n, n, k);
  }

  /** Minute x of some period is meant for host i's k-th job. */
  ghost predicate MeantFor(i: int, k: int, n: int, t: int, x: int)
    requires 1 <= t && 1 <= n
  {
    0 <= i < n && 0 <= k < JobCount(i, n, t) && x % Span(CalendarOf(n, t)) == JobTime(i, n, t, k)
  }

  /** The minutes meant for the jobs of all hosts, repeated over the calendar period for ever, are at least t apart, for
      every interval and number of hosts; no minute is meant for two jobs. */
  lemma JobTimesApart(n: int, t: int)
    requires 1 <= t && 1 <= n
    ensures forall i, k, j, l, x, y :: MeantFor(i, k, n, t, x) && MeantFor(j, l, n, t, y) && x < y ==> t <= y - x
    ensures forall i, k, j, l, x :: MeantFor(i, k, n, t, x) && MeantFor(j, l, n, t, x) ==> i == j && k == l
  {
    forall i, k, j, l, x, y | MeantFor(i, k, n, t, x) && MeantFor(j, l, n, t, y) && x <= y
      ensures (x < y ==> t <= y - x) && (x == y ==> i == j && k == l)
    {
      TwoJobTimes(i, k, j, l, n, t, x, y);
    }
  }

  lemma TwoJobTimes(i: int, k: int, j: int, l: int, n: int, t: int, x: int, y: int)
    requires 1 <= t && 1 <= n && MeantFor(i, k, n, t, x) && MeantFor(j, l, n, t, y) && x <= y
    ensures x < y ==> t <= y - x
    ensures x == y ==> i == j && k == l
  {
    JobBegins(i, n, t, k, x);
    JobBegins(j, n, t, l, y);
    BeginningsApart(n, t, i + k * n, j + l * n, x, y);
    SlotOf(i, k, n);
    SlotOf(j, l, n);
  }

  /** After the minute meant for one job the minute meant for another follows within 2 * t, across the end of the period
      as well. */
  lemma JobTimesFollow(i: int, k: int, n: int, t: int, x: int) returns (j: int, l: int, y: int)
    requires 1 <= t && 1 <= n && MeantFor(i, k, n, t, x)
    ensures MeantFor(j, l, n, t, y) && x < y < x + 2 * t
  {
    JobBegins(i, n, t, k, x);
    var m;
    m, y := NextBeginning(n, t, i + k * n, x);
    j, l := SlotOwner(n, t, m);
  }

  /** Host i of n rotates the keys at minute x. */
  ghost predicate Rotates(i: int, n: int, t: int, x: int)
    requires 1 <= t && 1 <= n
  {
    0 <= i < n && HostFires(i, n, t, x)
  }

  /** Two rotations are at least t minutes apart, and no two hosts rotate in the same minute. */
  ghost predicate RotationsApart(n: int, t: int)
    requires 1 <= t && 1 <= n
  {
    && (forall i, j, x, y :: Rotates(i, n, t, x) && Rotates(j, n, t, y) && x < y ==> t <= y - x)
    && (forall i, j, x :: Rotates(i, n, t, x) && Rotates(j, n, t, x) ==> i == j)
  }

  /** Keys are never over-rotated: over all hosts and all time, two rotations are at least t minutes apart, and no
      two hosts ever rotate in the same minute. */
  lemma NeverOverRotates(n: int, t: int)
    requires 1 <= t && 1 <= n && Faithful(n, t)
    ensures RotationsApart(n, t)
  {
    forall i, j, x, y | Rotates(i, n, t, x) && Rotates(j, n, t, y) && x <= y
      ensures (x < y ==> t <= y - x) && (x == y ==> i == j)
    {
      TwoRotations(i, j, n, t, x, y);
    }
  }

  lemma TwoRotations(i: int, j: int, n: int, t: int, x: int, y: int)
    requires 1 <= t && 1 <= n && Faithful(n, t)
    requires Rotates(i, n, t, x) && Rotates(j, n, t, y) && x <= y
    ensures x < y ==> t <= y - x
    ensures x == y ==> i == j
  {
    HostFiresInItsSlots(i, n, t, x);
    HostFiresInItsSlots(j, n, t, y);
    var m := OwnedSlot(i, n, t, x);
    var m' := OwnedSlot(j, n, t, y);
    BeginningsApart(n, t, m, m', x, y);
  }

  lemma BeginningsApart(n: int, t: int, m: int, m': int, x: int, y: int)
    requires 1 <= t && Begins(n, t, m, x) && Begins(n, t, m', y) && x <= y
    ensures x < y ==> t <= y - x
    ensures x == y ==> m == m'
  {
    SlotInPeriod(n, t, m, x);
    SlotInPeriod(n, t, m', y);
    SlotsApart(t, m, m');
    SlotsApart(t, m', m);
    PeriodsApart(x, y, Span(CalendarOf(n, t)));
  }

  lemma PeriodsApart(x: int, y: int, p: int)
    requires 1 <= p && x <= y
    ensures x / p == y / p ==> y - x == y % p - x % p
    ensures x / p != y / p ==> y - x >= p + y % p - x % p
  {
    var a, b := x / p, y / p;
    assert x == a * p + x % p && y == b * p + y % p;
    ScaleMonotone(b + 1, a, p);
    ScaleMonotone(a + 1, b, p);
    assert (b + 1) * p == b * p + p && (a + 1) * p == a * p + p;
  }

  /** Nor are they left unrotated: after each rotation the next follows within 2 * t minutes.  It is the next
      host's turn, t minutes later, except that host 0 opens every period. */
  lemma NeverUnderRotates(i: int, n: int, t: int, x: int) returns (j: int, y: int)
    requires 1 <= t && 1 <= n && Faithful(n, t) && Rotates(i, n, t, x)
    ensures Rotates(j, n, t, y) && x < y < x + 2 * t
    ensures (j == (i + 1) % n && y == x + t) || (j == 0 && y % Span(CalendarOf(n, t)) == 0)
  {
    HostFiresInItsSlots(i, n, t, x);
    var m := OwnedSlot(i, n, t, x);
    var m';
    m', y := NextBeginning(n, t, m, x);
    j := m' % n;
    NextResidue(m, n);
    Quotient(0, n, 0);
    OwnsIfBegins(n, t, m', y);
    HostFiresInItsSlots(j, n, t, y);
  }

  lemma NextBeginning(n: int, t: int, m: int, x: int) returns (m': int, y: int)
    requires 1 <= t && Begins(n, t, m, x)
    ensures Begins(n, t, m', y) && x < y < x + 2 * t
    ensures (m' == m + 1 && y == x + t) || (m' == 0 && y % Span(CalendarOf(n, t)) == 0)
  {
    var p := Span(CalendarOf(n, t));
    SlotInPeriod(n, t, m, x);
    SlotFits(t, m + 1, p);
    assert t * (m + 1) == t * m + t;
    if m + 1 < Slots(n, t) {
      m', y := m + 1, x + t;
      assert y == x / p * p + t * m';
      Quotient(y, p, x / p);
    } else {
      m', y := 0, x - x % p + p;
      assert y == (x / p + 1) * p;
      Quotient(y, p, x / p + 1);
    }
  }

  lemma NextResidue(m: int, n: int)
    requires 1 <= n
    ensures (m + 1) % n == (m % n + 1) % n
  {
    var q, r := m / n, m % n;
    assert m + 1 == q * n + (r + 1);
    Residue(q, r + 1, n);
    Residue(0, r + 1, n);
  }

  lemma Residue(q: int, r: int, n: int)
    requires 1 <= n && 0 <= r <= n
    ensures (q * n + r) % n == if r == n then 0 else r
  {
    assert (q + 1) * n == q * n + n;
    Quotient(q * n + r, n, if r == n then q + 1 else q);
  }

  // ----- Exactly when keys are over-rotated -----

  /** The minute of the period at which the job for slot m runs, if it ever does. */
  function SlotMinute(n: int, t: int, m: int): Option<int> {
    FiringMinute(CalendarOf(n, t), t * m)
  }

  ghost predicate FiresForSlot(n: int, t: int, m: int, x: int)
    requires 1 <= t
  {
    0 <= m < Slots(n, t) && SlotMinute(n, t, m) == Some(x % Span(CalendarOf(n, t)))
  }

  /** The firing minutes of the slots of one period keep t minutes between them, across its end as well. */
  predicate SlotMinutesApart(n: int, t: int)
    requires 1 <= t && 1 <= n
  {
    forall m, m' :: 0 <= m < Slots(n, t) && 0 <= m' < Slots(n, t) && m != m' ==>
      MinutesApart(SlotMinute(n, t, m), SlotMinute(n, t, m'), Span(CalendarOf(n, t)), t)
  }

  predicate MinutesApart(a: Option<int>, b: Option<int>, span: int, t: int) {
    a.Some? && b.Some? && a.value <= b.value ==> t <= b.value - a.value && t <= a.value + span - b.value
  }

  lemma RotatesForSlot(i: int, n: int, t: int, x: int) returns (m: int)
    requires 1 <= t && 1 <= n && Rotates(i, n, t, x)
    ensures FiresForSlot(n, t, m, x) && m % n == i
  {
    var k :| 0 <= k < JobCount(i, n, t) && Fires(Schedule(i, n, t)[k], x);
    JobTimeInPeriod(i, n, t, k);
    FiresAtItsTime(CalendarOf(n, t), JobTime(i, n, t, k), x);
    ResidueIs(i, n, k);
    m := i + k * n;
  }

  lemma SlotRotates(n: int, t: int, m: int, x: int)
    requires 1 <= t && 1 <= n && FiresForSlot(n, t, m, x)
    ensures Rotates(m % n, n, t, x)
  {
    var i, k := SlotOwner(n, t, m);
    JobTimeInPeriod(i, n, t, k);
    assert JobTime(i, n, t, k) == t * m;
    FiresAtItsTime(CalendarOf(n, t), t * m, x);
    assert Fires(Schedule(i, n, t)[k], x);
  }

  lemma SlotMinuteInPeriod(n: int, t: int, m: int)
    requires 1 <= t && 0 <= m < Slots(n, t) && SlotMinute(n, t, m).Some?
    ensures 0 <= SlotMinute(n, t, m).value < Span(CalendarOf(n, t)) && t <= Span(CalendarOf(n, t))
  {
    SlotFits(t, m, Span(CalendarOf(n, t)));
    assert 0 <= t * m;
  }

  /** For every interval and number of hosts: keys are never over-rotated exactly when the firing minutes of one period
      are apart, a matter of the period's slots. */
  lemma OverRotationIsVisible(n: int, t: int)
    requires 1 <= t && 1 <= n
    ensures RotationsApart(n, t) <==> SlotMinutesApart(n, t)
  {
    if SlotMinutesApart(n, t) {
      forall i, j, x, y | Rotates(i, n, t, x) && Rotates(j, n, t, y) && x <= y
        ensures (x < y ==> t <= y - x) && (x == y ==> i == j)
      {
        var m := RotatesForSlot(i, n, t, x);
        var m' := RotatesForSlot(j, n, t, y);
        TwoSlotsApart(n, t, m, m', x, y);
      }
    }
    if RotationsApart(n, t) {
      forall m, m' | 0 <= m < Slots(n, t) && 0 <= m' < Slots(n, t) && m != m'
        ensures MinutesApart(SlotMinute(n, t, m), SlotMinute(n, t, m'), Span(CalendarOf(n, t)), t)
      {
        SlotsKeepApart(n, t, m, m');
      }
    }
  }

  lemma TwoSlotsApart(n: int, t: int, m: int, m': int, x: int, y: int)
    requires 1 <= t && 1 <= n && SlotMinutesApart(n, t)
    requires FiresForSlot(n, t, m, x) && FiresForSlot(n, t, m', y) && x <= y
    ensures x < y ==> t <= y - x
    ensures x == y ==> m == m'
  {
    var p := Span(CalendarOf(n, t));
    SlotMinuteInPeriod(n, t, m);
    SlotMinuteInPeriod(n, t, m');
    PeriodsApart(x, y, p);
    if m != m' {
      assert MinutesApart(SlotMinute(n, t, m), SlotMinute(n, t, m'), p, t);
      assert MinutesApart(SlotMinute(n, t, m'), SlotMinute(n, t, m), p, t);
    }
  }

  lemma NextPeriod(a: int, p: int)
    requires 0 <= a < p
    ensures a % p == a && (a + p) % p == a
  {
    Quotient(a, p, 0);
    Quotient(a + p, p, 1);
  }

  lemma SlotRotatesEachPeriod(n: int, t: int, m: int)
    requires 1 <= t && 1 <= n && 0 <= m < Slots(n, t) && SlotMinute(n, t, m).Some?
    ensures Rotates(m % n, n, t, SlotMinute(n, t, m).value)
    ensures Rotates(m % n, n, t, SlotMinute(n, t, m).value + Span(CalendarOf(n, t)))
  {
    hide Rotates, SlotMinute;
    SlotMinuteInPeriod(n, t, m);
    NextPeriod(SlotMinute(n, t, m).value, Span(CalendarOf(n, t)));
    SlotRotates(n, t, m, SlotMinute(n, t, m).value);
    SlotRotates(n, t, m, SlotMinute(n, t, m).value + Span(CalendarOf(n, t)));
  }

  /** The slots of one host never fire in one minute: in the weekly calendar they are on different days. */
  lemma OneHostKeepsApart(n: int, t: int, m: int, m': int)
    requires 1 <= t && 1 <= n && 0 <= m < m'
    ensures m % n == m' % n && SlotMinute(n, t, m).Some? ==> SlotMinute(n, t, m) != SlotMinute(n, t, m')
  {
    hide FiringMinute;
    TimesGrow(t, m, m');
    if CalendarOf(n, t).Weekly? {
      if m % n == m' % n {
        NextTurn(n, m, m');
        TimesGrow(t, n, m' - m);
        assert t * m' - t * m == t * (m' - m);
        TimesGrow(t, 0, m);
        DaysApart(t * m, t * m');
      }
    } else {
      MeantMinute(CalendarOf(n, t), t * m);
      MeantMinute(CalendarOf(n, t), t * m');
    }
  }

  lemma MeantMinute(c: Calendar, time: int)
    requires !c.Weekly?
    ensures FiringMinute(c, time) == Some(time)
  {
  }

  lemma DaysApart(a: int, b: int)
    requires 0 <= a && a + DAY_SPAN < b
    ensures FiringMinute(Weekly, a).Some? ==> FiringMinute(Weekly, a) != FiringMinute(Weekly, b)
  {
    assert a / DAY_SPAN < b / DAY_SPAN;
  }

  lemma TimesGrow(t: int, a: int, b: int)
    requires 1 <= t
    ensures a < b ==> t * a < t * b
    ensures a <= b ==> t * a <= t * b
  {
    assert t * b - t * a == t * (b - a);
  }

  /** The next slot of a host comes after n slots. */
  lemma NextTurn(n: int, m: int, m': int)
    requires 1 <= n && m < m' && m % n == m' % n
    ensures n <= m' - m
  {
    assert m' - m == (m' / n - m / n) * n;
    if m' / n - m / n >= 1 {
      TimesGrow(n, 1, m' / n - m / n);
    } else {
      TimesGrow(n, m' / n - m / n, 0);
    }
  }

  lemma SlotsKeepApart(n: int, t: int, m: int, m': int)
    requires 1 <= t && 1 <= n && RotationsApart(n, t)
    requires 0 <= m < Slots(n, t) && 0 <= m' < Slots(n, t) && m != m'
    ensures MinutesApart(SlotMinute(n, t, m), SlotMinute(n, t, m'), Span(CalendarOf(n, t)), t)
  {
    OneHostKeepsApart(n, t, if m < m' then m else m', if m < m' then m' else m);
    hide Rotates, SlotMinute, Slots;
    if SlotMinute(n, t, m).Some? && SlotMinute(n, t, m').Some? {
      SlotMinuteInPeriod(n, t, m);
      SlotMinuteInPeriod(n, t, m');
      SlotRotatesEachPeriod(n, t, m);
      SlotRotatesEachPeriod(n, t, m');
    }
  }

  // ----- Round robin -----

  /** A host has a job exactly when there is a slot for it; in the daily and hourly calendars every host has one. */
  lemma WhoRotates(i: int, n: int, t: int)
    requires 1 <= t && 0 <= i < n
    ensures JobCount(i, n, t) > 0 <==> i < Slots(n, t)
    ensures !CalendarOf(n, t).Weekly? ==> JobCount(i, n, t) > 0
  {
    var slots := Slots(n, t);
    if i < slots {
      assert 0 <= (slots - 1 - i) / n;
    }
    if !CalendarOf(n, t).Weekly? {
      var span := Span(CalendarOf(n, t));
      assert t * (n - 1) + t == t * n;
      SlotFits(t, n - 1, span);
    }
  }

  function JobsOfFirst(hosts: nat, n: int, t: int): nat
    requires 1 <= t && 1 <= n
  {
    if hosts == 0 then 0 else JobsOfFirst(hosts - 1, n, t) + JobCount(hosts - 1, n, t)
  }

  /** Together the hosts have one job for every slot. */
  lemma JobsFillTheSlots(n: int, t: int)
    requires 1 <= t && 1 <= n
    ensures JobsOfFirst(n, n, t) == Slots(n, t)
  {
    assert 0 <= Slots(n, t) by { SlotFits(t, -1, Span(CalendarOf(n, t))); }
    JobsBelowSum(n, n, t, Slots(n, t));
    JobsFillPrefix(n, Slots(n, t));
  }

  /** The numbers below slots that are congruent to i modulo n. */
  function CountBelow(i: int, n: int, slots: nat): nat
    requires 0 <= i < n
  {
    if slots == 0 then 0 else CountBelow(i, n, slots - 1) + if (slots - 1) % n == i then 1 else 0
  }

  function SumBelow(hosts: nat, n: int, slots: nat): nat
    requires hosts <= n
  {
    if hosts == 0 then 0 else SumBelow(hosts - 1, n, slots) + CountBelow(hosts - 1, n, slots)
  }

  lemma {:induction false} CountBelowIs(i: int, n: int, slots: nat)
    requires 0 <= i < n
    ensures CountBelow(i, n, slots) == if i < slots then (slots - 1 - i) / n + 1 else 0
  {
    if slots > 0 {
      CountBelowIs(i, n, slots - 1);
      var m := slots - 1;
      if i < m {
        ResidueOf(i, n, m);
        NextQuotient(m - i - 1, n);
      } else {
        Quotient(0, n, 0);
        Quotient(m, n, 0);
      }
    }
  }

  lemma NextQuotient(d: int, n: int)
    requires 1 <= n
    ensures (d + 1) / n == d / n + if (d + 1) % n == 0 then 1 else 0
  {
    var q, r := d / n, d % n;
    assert d == q * n + r;
    assert (q + 1) * n == q * n + n;
    if r + 1 == n {
      Quotient(d + 1, n, q + 1);
    } else {
      Quotient(d + 1, n, q);
    }
  }

  lemma ResidueOf(i: int, n: int, m: int)
    requires 0 <= i < n
    ensures m % n == i <==> (m - i) % n == 0
  {
    var q, r := (m - i) / n, (m - i) % n;
    assert m - i == q * n + r;
    assert (q + 1) * n == q * n + n;
    if i + r < n {
      Quotient(m, n, q);
    } else {
      Quotient(m, n, q + 1);
    }
  }

  lemma {:induction false} JobsBelowSum(hosts: nat, n: int, t: int, slots: nat)
    requires 1 <= t && hosts <= n && 1 <= n && slots == Slots(n, t)
    ensures JobsOfFirst(hosts, n, t) == SumBelow(hosts, n, slots)
  {
    if hosts > 0 {
      JobsBelowSum(hosts - 1, n, t, slots);
      CountBelowIs(hosts - 1, n, slots);
    }
  }

  lemma {:induction false} JobsFillPrefix(n: int, slots: nat)
    requires 1 <= n
    ensures SumBelow(n, n, slots) == slots
  {
    if slots == 0 {
      SumOfNothing(n, n);
    } else {
      JobsFillPrefix(n, slots - 1);
      SumGrows(n, n, slots);
    }
  }

  lemma {:induction false} SumOfNothing(hosts: nat, n: int)
    requires hosts <= n
    ensures SumBelow(hosts, n, 0) == 0
  {
    if hosts > 0 {
      SumOfNothing(hosts - 1, n);
    }
  }

  lemma {:induction false} SumGrows(hosts: nat, n: int, slots: nat)
    requires hosts <= n && 1 <= n && 1 <= slots
    ensures SumBelow(hosts, n, slots) == SumBelow(hosts, n, slots - 1) + if (slots - 1) % n < hosts then 1 else 0
  {
    if hosts > 0 {
      SumGrows(hosts - 1, n, slots);
    }
  }

  // ----- The weekly calendar's hour -----

  /** An interval of thirteen hours on two hosts: the second host's first job, meant for 13:00 on day 0, is written
      as 00:00 on day 0, where the first host already rotates. */
  lemma WeeklyCollision()
    ensures !Faithful(2, 780)
    ensures JobTime(0, 2, 780, 0) == 0 && JobTime(1, 2, 780, 0) == 780
    ensures HostFires(0, 2, 780, 0) && HostFires(1, 2, 780, 0)
  {
    CollidingJobs();
    FiresAtMidnight(0, 2, 780);
    FiresAtMidnight(1, 2, 780);
  }

  lemma FiresAtMidnight(i: int, n: int, t: int)
    requires 1 <= t && 1 <= n
    requires JobCount(i, n, t) > 0 && Schedule(i, n, t)[0] == Cron(At(0), At(0), At(0))
    ensures HostFires(i, n, t, 0)
  {
    assert Fires(Schedule(i, n, t)[0], 0);
  }

  lemma CollidingJobs()
    ensures JobCount(0, 2, 780) > 0 && JobCount(1, 2, 780) > 0
    ensures Schedule(0, 2, 780)[0] == Cron(At(0), At(0), At(0)) == Schedule(1, 2, 780)[0]
  {
    WhoRotates(0, 2, 780);
    WhoRotates(1, 2, 780);
    assert Encode(Weekly, 0) == Cron(At(0), At(0), At(0)) == Encode(Weekly, 780);
  }

  // ----- What the interval and the number of hosts alone decide -----

  /** All hosts have had their turn after t * n minutes.  The schedule repeats every hour if that is at most an hour,
      every day if it is at most a day, and every week otherwise. */
  function Period(n: int, t: int): int {
    if t * n <= 60 then 60 else if t * n <= 1440 then 1440 else 10080
  }

  lemma PeriodIsSpan(n: int, t: int)
    ensures Span(CalendarOf(n, t)) == Period(n, t)
    ensures CalendarOf(n, t).Weekly? <==> t * n > 1440
  {
  }

  /** The job runs at the given minute of every period, and at no other. */
  ghost predicate RunsEvery(c: Cron, minute: int, period: int)
    requires period >= 1
  {
    forall x :: Fires(c, x) <==> x % period == minute
  }

  /** If all hosts have their turn within a day, nothing goes wrong: every host has a job, each job runs exactly at the
      minute meant for it, and keys are never over-rotated. */
  lemma RoundsWithinADay(n: int, t: int)
    requires 1 <= t && 1 <= n && t * n <= 1440
    ensures RotationsApart(n, t)
    ensures forall i :: 0 <= i < n ==> |Schedule(i, n, t)| >= 1
    ensures forall i, k :: 0 <= i < n && 0 <= k < |Schedule(i, n, t)| ==>
              RunsEvery(Schedule(i, n, t)[k], t * (i + k * n), if t * n <= 60 then 60 else 1440)
  {
    hide Fires, JobCount, RotationsApart;
    PeriodIsSpan(n, t);
    NeverOverRotates(n, t);
    EveryJobIsFaithful(n, t);
    forall i | 0 <= i < n
      ensures |Schedule(i, n, t)| >= 1
    {
      WhoRotates(i, n, t);
    }
  }

  /** Host i has a job for each of its turns, the slots i, i + n, i + 2 * n and so on, that ends within the period. */
  lemma JobForEachTurn(i: int, n: int, t: int, k: nat)
    requires 1 <= t && 0 <= i < n
    ensures k < |Schedule(i, n, t)| <==> t * (i + k * n) + t <= Period(n, t)
  {
    hide Period, CalendarOf, Span;
    PeriodIsSpan(n, t);
    SlotFits(t, i + k * n, Period(n, t));
    TurnsBelow(i, n, Slots(n, t), k);
  }

  lemma TurnsBelow(i: int, n: int, slots: int, k: nat)
    requires 0 <= i < n
    ensures k < (if i < slots then (slots - 1 - i) / n + 1 else 0) <==> i + k * n < slots
  {
    ScaleMonotone(0, k, n);
    if i < slots {
      var d := slots - 1 - i;
      var q := d / n;
      assert q * n <= d < q * n + n;
      ScaleMonotone(k, q, n);
      ScaleMonotone(q + 1, k, n);
      assert (q + 1) * n == q * n + n;
    }
  }

  /** Entries name an hour and a day of the week only if they must. */
  lemma EntriesNameWhatTheyMust(i: int, n: int, t: int, k: nat)
    requires 1 <= t && 1 <= n && k < |Schedule(i, n, t)|
    ensures Schedule(i, n, t)[k].min.At?
    ensures Schedule(i, n, t)[k].hour.At? <==> t * n > 60
    ensures Schedule(i, n, t)[k].day.At? <==> t * n > 1440
  {
    PeriodIsSpan(n, t);
  }

  /** The rotations repeat with the period. */
  lemma RotationsRepeat(i: int, n: int, t: int, x: int)
    requires 1 <= t && 1 <= n
    ensures Rotates(i, n, t, x) <==> Rotates(i, n, t, x + Period(n, t))
  {
    if 0 <= i < n {
      forall k | 0 <= k < JobCount(i, n, t)
        ensures Fires(Schedule(i, n, t)[k], x) <==> Fires(Schedule(i, n, t)[k], x + Period(n, t))
      {
        JobRepeats(i, n, t, k, x);
      }
      hide Fires, JobCount;
    }
  }

  lemma JobRepeats(i: int, n: int, t: int, k: int, x: int)
    requires 1 <= t && 0 <= i < n && 0 <= k < JobCount(i, n, t)
    ensures Fires(Schedule(i, n, t)[k], x) <==> Fires(Schedule(i, n, t)[k], x + Period(n, t))
  {
    hide Fires, Encode, FiringMinute;
    var p := Period(n, t);
    PeriodIsSpan(n, t);
    JobTimeInPeriod(i, n, t, k);
    SamePlace(x, p);
    FiresAtItsTime(CalendarOf(n, t), JobTime(i, n, t, k), x);
    FiresAtItsTime(CalendarOf(n, t), JobTime(i, n, t, k), x + p);
  }

  lemma SamePlace(x: int, p: int)
    requires 1 <= p
    ensures (x + p) % p == x % p
  {
    var q := x / p;
    assert x + p == (q + 1) * p + x % p && (q + 1) * p == q * p + p;
    Quotient(x + p, p, q + 1);
  }
}
