/**
 Times and the grid of end times.

 A time is a number of microseconds (the resolution of the database) since the Unix
 epoch; hours and UTC days start at multiples of HOUR and DAY.
 */
module Times {
  import opened Options

  const SECOND := 1_000_000
  const MINUTE := 60 * SECOND
  const HOUR := 60 * MINUTE
  const DAY := 24 * HOUR

  /** UserActivityInterval.MIN_INTERVAL_LENGTH. */
  const MIN_INTERVAL_LENGTH := 15 * MINUTE

  datatype Frequency = Hourly | Daily

  function Increment(f: Frequency): (inc: int)
    ensures inc > 0
  {
    match f
    case Hourly => HOUR
    case Daily => DAY
  }

  predicate Aligned(f: Frequency, t: int) {
    match f
    case Hourly => t % HOUR == 0
    case Daily => t % DAY == 0
  }

  /** floor_to_hour and floor_to_day: the latest aligned time not after t. */
  function Floor(f: Frequency, t: int): (r: int)
    ensures Aligned(f, r) && r <= t < r + Increment(f)
  {
    match f
    case Hourly => t - t % HOUR
    case Daily => t - t % DAY
  }

  /** ceiling_to_hour and ceiling_to_day: the earliest aligned time not before t. */
  function Ceiling(f: Frequency, t: int): (r: int)
    ensures Aligned(f, r) && r - Increment(f) < t <= r
  {
    var floor := Floor(f, t);
    if floor == t then floor else floor + Increment(f)
  }

  lemma HourStep(t: int)
    ensures (t + HOUR) % HOUR == t % HOUR
  {
    assert t + HOUR == HOUR * (t / HOUR + 1) + t % HOUR;
  }

  lemma DayStep(t: int)
    ensures (t + DAY) % DAY == t % DAY
  {
    assert t + DAY == DAY * (t / DAY + 1) + t % DAY;
  }

  lemma AlignedStep(f: Frequency, t: int)
    ensures Aligned(f, t + Increment(f)) <==> Aligned(f, t)
    ensures Aligned(f, t - Increment(f)) <==> Aligned(f, t)
  {
    match f
    case Hourly =>
      HourStep(t);
      HourStep(t - HOUR);
    case Daily =>
      DayStep(t);
      DayStep(t - DAY);
  }

  lemma AlignedDayIsAligned(f: Frequency, t: int)
    requires Aligned(Daily, t)
    ensures Aligned(f, t)
  {
    if f == Hourly {
      var days := t / DAY;
      assert t == DAY * days;
      assert t == HOUR * (24 * days);
    }
  }

  /** Two aligned times less than one increment apart are equal. */
  lemma AlignedApart(f: Frequency, a: int, b: int)
    requires Aligned(f, a) && Aligned(f, b) && a < b
    ensures a + Increment(f) <= b
  {
    match f
    case Hourly =>
      assert a == HOUR * (a / HOUR) && b == HOUR * (b / HOUR);
    case Daily =>
      assert a == DAY * (a / DAY) && b == DAY * (b / DAY);
  }

  /** Rounding up keeps the order, and does not cross an aligned time. */
  lemma CeilingMonotone(f: Frequency, s: int, t: int)
    ensures s <= t ==> Ceiling(f, s) <= Ceiling(f, t)
    ensures Aligned(f, s) ==> (Ceiling(f, t) <= s <==> t <= s)
  {
    if s <= t && Ceiling(f, t) < Ceiling(f, s) {
      AlignedApart(f, Ceiling(f, t), Ceiling(f, s));
    }
    if Aligned(f, s) && t <= s && s < Ceiling(f, t) {
      AlignedApart(f, s, Ceiling(f, t));
    }
  }

  /** The aligned times from lo to hi, in increasing order. */
  ghost function Grid(f: Frequency, lo: int, hi: int): seq<int>
    decreases Floor(f, hi) - lo
  {
    var last := Floor(f, hi);
    if last < lo then []
    else
      FloorBelow(f, last);
      Grid(f, lo, last - Increment(f)) + [last]
  }

  lemma FloorBelow(f: Frequency, t: int)
    requires Aligned(f, t)
    ensures Floor(f, t) == t && Floor(f, t - Increment(f)) == t - Increment(f)
  {
    AlignedStep(f, t);
  }

  lemma {:induction false} GridMember(f: Frequency, lo: int, hi: int, t: int)
    ensures t in Grid(f, lo, hi) <==> Aligned(f, t) && lo <= t <= hi
    decreases Floor(f, hi) - lo
  {
    var last := Floor(f, hi);
    if Aligned(f, t) && last < t {
      AlignedApart(f, last, t);
    }
    if lo <= last {
      FloorBelow(f, last);
      GridMember(f, lo, last - Increment(f), t);
      if Aligned(f, t) && t < last {
        AlignedApart(f, t, last);
      }
    }
  }

  lemma {:induction false} GridIncreasing(f: Frequency, lo: int, hi: int, i: nat, j: nat)
    requires i < j < |Grid(f, lo, hi)|
    ensures Grid(f, lo, hi)[i] < Grid(f, lo, hi)[j]
    decreases Floor(f, hi) - lo
  {
    var last := Floor(f, hi);
    FloorBelow(f, last);
    var shorter := Grid(f, lo, last - Increment(f));
    if j < |shorter| {
      GridIncreasing(f, lo, last - Increment(f), i, j);
    } else {
      GridMember(f, lo, last - Increment(f), shorter[i]);
    }
  }

  lemma {:induction false} GridLength(f: Frequency, hi: int, n: nat)
    requires Aligned(f, hi)
    ensures |Grid(f, hi - (n - 1) * Increment(f), hi)| == n
    decreases n
  {
    FloorBelow(f, hi);
    var inc := Increment(f);
    if n > 0 {
      AlignedStep(f, hi);
      GridLength(f, hi - inc, n - 1);
      assert hi - inc - (n - 1 - 1) * inc == hi - (n - 1) * inc;
      assert (n - 1) * inc >= 0;
    } else {
      assert hi - (n - 1) * inc == hi + inc;
    }
  }

  /** The start of a padded range: early enough for minLength end times. */
  function PaddedStart(start: int, last: int, f: Frequency, minLength: Option<int>): int {
    match minLength
    case None => start
    case Some(n) =>
      var padded := last - (n - 1) * Increment(f);
      if start <= padded then start else padded
  }

  lemma {:induction false} GridLonger(f: Frequency, early: int, late: int, hi: int)
    requires early <= late
    ensures |Grid(f, late, hi)| <= |Grid(f, early, hi)|
    ensures |Grid(f, late, hi)| == |Grid(f, early, hi)| ==> Grid(f, late, hi) == Grid(f, early, hi)
    decreases Floor(f, hi) - early
  {
    var last := Floor(f, hi);
    FloorBelow(f, last);
    if early <= last { GridLonger(f, early, late, last - Increment(f)); }
  }

  /** Padding makes the list as long as asked for if it would be shorter, and leaves it alone otherwise. */
  lemma PaddedLength(f: Frequency, start: int, end: int, minLength: Option<int>)
    ensures var plain := Grid(f, start, end);
            var padded := Grid(f, PaddedStart(start, Floor(f, end), f, minLength), end);
            if minLength.None? || minLength.value <= |plain| then padded == plain else |padded| == minLength.value
  {
    if minLength.Some? {
      var n, last := minLength.value, Floor(f, end);
      var first := last - (n - 1) * Increment(f);
      FloorBelow(f, last);
      assert Grid(f, first, end) == Grid(f, first, last);
      if n > 0 {
        GridLength(f, last, n);
        if start <= first { GridLonger(f, start, first, end); } else { GridLonger(f, first, start, end); }
      } else {
        assert first >= last + Increment(f);
        if first < start { assert Grid(f, start, end) == [] && Grid(f, first, end) == []; }
      }
    }
  }

  function Reversed(s: seq<int>): seq<int> {
    if s == [] then [] else Reversed(s[1..]) + [s[0]]
  }

  lemma {:induction false} ReversedAppend(s: seq<int>, x: int)
    ensures Reversed(s + [x]) == [x] + Reversed(s)
  {
    if s != [] {
      assert (s + [x])[1..] == s[1..] + [x];
      ReversedAppend(s[1..], x);
    }
  }

  /** time_range: filled backwards from the floor of end and then reversed. */
  method TimeRange(start: int, end: int, f: Frequency, minLength: Option<int>) returns (times: seq<int>)
    ensures times == Grid(f, PaddedStart(start, Floor(f, end), f, minLength), end)
  {
    var step := Increment(f);
    var current := Floor(f, end);
    var first := PaddedStart(start, current, f, minLength);
    times := [];
    FloorBelow(f, current);
    while current >= first
      invariant Aligned(f, current)
      invariant Grid(f, first, end) == Grid(f, first, current) + Reversed(times)
      decreases current - first
    {
      FloorBelow(f, current);
      AlignedStep(f, current);
      ReversedAppend(times, current);
      times := times + [current];
      current := current - step;
    }
    FloorBelow(f, current);
    times := Reversed(times);
  }
}
