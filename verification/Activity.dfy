/**
 Statistics over activity intervals: the actives windows and the minutes active.
 */
module Activity {
  import opened Options
  import opened Sums
  import opened Times
  import opened CountTables
  import opened Source
  import opened SourceGrowth
  import opened Stats
  import opened FillMachine
  import opened FillInvariant
  import opened FillSteps
  import opened FillActions
  import opened Stored

  // ---------------------------------------------------------- actives windows

  /** The window of the n-day actives ending at t leaves out its first 15 minutes. */
  function WindowStart(n: nat, t: int): int {
    t - (n * DAY - MIN_INTERVAL_LENGTH)
  }

  /** The interval meets the window of the n-day actives ending at t. */
  predicate Meets(i: ActivityInterval, n: nat, t: int) {
    i.start < t && t - (n * DAY - MIN_INTERVAL_LENGTH) <= i.end
  }

  ghost predicate InSomeDay(i: ActivityInterval, n: nat, t: int) {
    exists k: nat :: k < n && Meets(i, 1, t - k * DAY)
  }

  /** The interval lies within the 15 minutes after the start of a day, which no one-day window covers. */
  predicate InGap(i: ActivityInterval, k: nat, t: int) {
    t - k * DAY <= i.start && i.end < t - k * DAY + MIN_INTERVAL_LENGTH
  }

  /** An interval of any length: it starts before t and ends in the n-day window or later iff it meets
      some one-day window or lies in one of the n - 1 gaps between them. */
  lemma {:induction false} WindowDecomposition(i: ActivityInterval, n: nat, t: int)
    requires i.start <= i.end && n > 0
    ensures i.start < t && t - (n * DAY - MIN_INTERVAL_LENGTH) <= i.end
       <==> InSomeDay(i, n, t) || exists k: nat :: 0 < k < n && InGap(i, k, t)
    decreases n
  {
    if n == 1 {
      assert Meets(i, 1, t - 0 * DAY) <==> Meets(i, 1, t);
    } else {
      var m := n - 1;
      WindowDecomposition(i, m, t);
      if Meets(i, n, t) && !Meets(i, m, t) {
        assert i.start < t - m * DAY ==> Meets(i, 1, t - m * DAY);
        assert t - m * DAY <= i.start ==> InGap(i, m, t);
      }
      if k: nat :| k < n && Meets(i, 1, t - k * DAY) {
        if k == m { assert Meets(i, n, t); }
      }
      if k: nat :| 0 < k < n && InGap(i, k, t) {
        if k == m { assert Meets(i, n, t); }
      }
    }
  }

  lemma NoGaps(i: ActivityInterval, n: nat, t: int)
    requires i.start + MIN_INTERVAL_LENGTH <= i.end && n > 0
    ensures Meets(i, n, t) <==> InSomeDay(i, n, t)
  {
    WindowDecomposition(i, n, t);
  }

  ghost predicate ActiveSomeDay(src: Source, u: int, n: nat, t: int) {
    exists k: nat :: k < n && RecentlyActive(src, u, WindowStart(1, t - k * DAY), t - k * DAY)
  }

  lemma RecentlyActiveDays(src: Source, u: int, n: nat, t: int)
    requires LongIntervals(src.intervals) && n > 0
    ensures RecentlyActive(src, u, WindowStart(n, t), t) <==> ActiveSomeDay(src, u, n, t)
  {
    if i :| i in src.intervals && src.intervals[i].user == u && Meets(src.intervals[i], n, t) {
      NoGaps(src.intervals[i], n, t);
      var k: nat :| k < n && Meets(src.intervals[i], 1, t - k * DAY);
      assert RecentlyActive(src, u, WindowStart(1, t - k * DAY), t - k * DAY);
    }
    if k: nat :| k < n && RecentlyActive(src, u, WindowStart(1, t - k * DAY), t - k * DAY) {
      var i :| i in src.intervals && src.intervals[i].user == u && Meets(src.intervals[i], 1, t - k * DAY);
      assert InSomeDay(src.intervals[i], n, t);
      NoGaps(src.intervals[i], n, t);
    }
  }

  ghost predicate ActivesStat(env: Env, p: string, n: nat) {
    && p in env.registry && env.registry[p].collector == Pulls(ListActives)
    && env.registry[p].frequency == Daily && env.registry[p].interval == n * DAY - MIN_INTERVAL_LENGTH
  }

  lemma SeenInWindow(src: Source, u: int, n: nat, t: int)
    ensures RecentlyActive(src, u, WindowStart(n, t), t)
       <==> exists i :: i in src.intervals && src.intervals[i].user == u
              && src.intervals[i].start < t && t - (n * DAY - MIN_INTERVAL_LENGTH) <= src.intervals[i].end
  {}

  /** In a filled slot of the n-day actives, a user has a row iff some interval of the user starts before
      the end time and does not end before the window; so a user all of whose intervals end earlier has none. */
  lemma StoredActive(env: Env, src: Source, history: seq<Action>, filled: seq<string>, p: string, n: nat, upTo: int,
                     t: int, realm: int, u: int)
    requires ValidEnv(env) && ForeignKeys(src) && ActivesStat(env, p, n) && p in filled
    requires Aligned(Daily, t) && env.epoch < t <= upTo
    requires DependenciesReach(env, After(env, src, history), filled, upTo)
    ensures ForeignKeys(After(env, src, history).src)
    ensures var now := After(env, src, history).src;
            RowKey(OfUser(realm, u), p, None, t) in After(env, src, history).rows
            <==> (u in now.users && now.users[u].realm == realm
              && exists i :: i in now.intervals && now.intervals[i].user == u
                  && now.intervals[i].start < t && t - (n * DAY - MIN_INTERVAL_LENGTH) <= now.intervals[i].end)
  {
    hide Ready, RecentlyActive, IdealPull, DependenciesReach, After, ForeignKeys, ValidEnv, ValueAt;
    Reached(env, src, history, filled, p, upTo);
    var k := RowKey(OfUser(realm, u), p, None, t);
    StoredRow(env, After(env, src, history), env.registry[p], ListActives, t, k);
    PulledActive(env, env.registry[p], After(env, src, history).src, n, t, k);
    SeenInWindow(After(env, src, history).src, u, n, t);
  }

  lemma PulledActive(env: Env, stat: Stat, src: Source, n: nat, t: int, k: RowKey)
    requires ForeignKeys(src) && stat.interval == n * DAY - MIN_INTERVAL_LENGTH
    requires k.property == stat.property && k.endTime == t && k.subgroup == None && k.bucket.OfUser?
    ensures k in IdealPull(env, stat, ListActives, src, t) <==>
              && k.bucket.user in src.users && src.users[k.bucket.user].realm == k.bucket.realm
              && RecentlyActive(src, k.bucket.user, WindowStart(n, t), t)
  {
    hide RecentlyActive, ActiveRows, IdealActives, ForeignKeys;
    ActivesKeys(src, stat.property, WindowStart(n, t), t, k);
  }

  ghost predicate HasRowSomeDay(rows: Rows, b: Bucket, p: string, n: nat, t: int) {
    exists k: nat :: k < n && RowKey(b, p, None, t - k * DAY) in rows
  }

  lemma DaysBefore(t: int, k: nat)
    requires Aligned(Daily, t)
    ensures Aligned(Daily, t - k * DAY)
  {
    assert t == DAY * (t / DAY);
    assert t - k * DAY == DAY * (t / DAY - k);
  }

  /** Active-window decomposition: if no interval is shorter than MIN_INTERVAL_LENGTH, the users
      of the n-day actives at t are exactly the union of the one-day actives at t and on the
      n - 1 days before, although the shortened windows leave gaps: the known users with an interval
      that starts before t and does not end before the n-day window. */
  lemma ActivesAreUnionOfDays(env: Env, src: Source, history: seq<Action>, long: string, daily: string, n: nat, t: int,
                              realm: int, u: int)
    requires ValidEnv(env) && ForeignKeys(src) && LongIntervals(After(env, src, history).src.intervals)
    requires n > 0 && ActivesStat(env, long, n) && ActivesStat(env, daily, 1)
    requires Aligned(Daily, t) && env.epoch + n * DAY <= t
    requires DependenciesReach(env, After(env, src, history), [long, daily], t)
    ensures RowKey(OfUser(realm, u), long, None, t) in After(env, src, history).rows
       <==> HasRowSomeDay(After(env, src, history).rows, OfUser(realm, u), daily, n, t)
    ensures var now := After(env, src, history).src;
            HasRowSomeDay(After(env, src, history).rows, OfUser(realm, u), daily, n, t)
            <==> (u in now.users && now.users[u].realm == realm
              && exists i :: i in now.intervals && now.intervals[i].user == u
                  && now.intervals[i].start < t && t - (n * DAY - MIN_INTERVAL_LENGTH) <= now.intervals[i].end)
  {
    hide RecentlyActive, DependenciesReach, After, LongIntervals;
    var sys := After(env, src, history);
    var known := u in sys.src.users && sys.src.users[u].realm == realm;
    StoredActive(env, src, history, [long, daily], long, n, t, t, realm, u);
    SeenInWindow(sys.src, u, n, t);
    RecentlyActiveDays(sys.src, u, n, t);
    forall k: nat | k < n
      ensures RowKey(OfUser(realm, u), daily, None, t - k * DAY) in sys.rows
         <==> known && RecentlyActive(sys.src, u, WindowStart(1, t - k * DAY), t - k * DAY)
    {
      DaysBefore(t, k);
      StoredActive(env, src, history, [long, daily], daily, 1, t, t - k * DAY, realm, u);
      SeenInWindow(sys.src, u, 1, t - k * DAY);
    }
  }

  // ------------------------------------------------------------ minutes active

  /** How much of an interval lies inside a window. */
  function ClipLength(i: ActivityInterval, start: int, end: int): int {
    if Clips(i, start, end) then Clipped(i, start, end) else 0
  }

  ghost predicate Forward(intervals: map<int, ActivityInterval>) {
    forall i :: i in intervals ==> intervals[i].start <= intervals[i].end
  }

  ghost function ClipLengths(intervals: map<int, ActivityInterval>, start: int, end: int): map<int, int> {
    map i | i in intervals :: ClipLength(intervals[i], start, end)
  }

  ghost function ClipTotal(intervals: map<int, ActivityInterval>, start: int, end: int): int {
    Sum(ClipLengths(intervals, start, end))
  }

  ghost function IntervalsOf(src: Source, u: int): map<int, ActivityInterval> {
    map i | i in src.intervals && src.intervals[i].user == u :: src.intervals[i]
  }

  lemma ClipRemove(intervals: map<int, ActivityInterval>, x: int, start: int, end: int)
    requires x in intervals
    ensures ClipTotal(intervals, start, end)
         == ClipLength(intervals[x], start, end) + ClipTotal(intervals - {x}, start, end)
  {
    SumRemove(ClipLengths(intervals, start, end), x);
    assert ClipLengths(intervals, start, end) - {x} == ClipLengths(intervals - {x}, start, end);
  }

  /** Two adjacent windows partition every interval. */
  lemma {:induction false} ClipSplit(intervals: map<int, ActivityInterval>, start: int, mid: int, end: int)
    requires Forward(intervals) && start <= mid <= end
    ensures ClipTotal(intervals, start, end) == ClipTotal(intervals, start, mid) + ClipTotal(intervals, mid, end)
    decreases |intervals|
  {
    if intervals == map[] {
      NothingInside(intervals, start, end);
      NothingInside(intervals, start, mid);
      NothingInside(intervals, mid, end);
    } else {
      var x := SomeKey(intervals);
      ClipRemove(intervals, x, start, end);
      ClipRemove(intervals, x, start, mid);
      ClipRemove(intervals, x, mid, end);
      ClipSplit(intervals - {x}, start, mid, end);
    }
  }

  /** A window that covers an interval clips nothing off it. */
  lemma ClipWhole(i: ActivityInterval, start: int, end: int)
    requires start <= i.start < i.end <= end
    ensures ClipLength(i, start, end) == i.end - i.start
  {}

  ghost predicate PairwiseDisjoint(intervals: map<int, ActivityInterval>) {
    forall i, j :: i in intervals && j in intervals && i != j ==> Apart(intervals[i], intervals[j])
  }

  predicate Apart(i: ActivityInterval, j: ActivityInterval) {
    i.end <= j.start || j.end <= i.start
  }

  lemma {:induction false} NothingInside(intervals: map<int, ActivityInterval>, start: int, end: int)
    requires forall i :: i in intervals ==> !Clips(intervals[i], start, end)
    ensures ClipTotal(intervals, start, end) == 0
    decreases |intervals|
  {
    if intervals != map[] {
      var x := SomeKey(intervals);
      ClipRemove(intervals, x, start, end);
      NothingInside(intervals - {x}, start, end);
    } else {
      assert ClipLengths(intervals, start, end) == map[];
    }
  }

  /** Pairwise disjoint intervals cover no more of a window than there is. */
  lemma {:induction false} DisjointFit(intervals: map<int, ActivityInterval>, start: int, end: int)
    requires Forward(intervals) && PairwiseDisjoint(intervals) && start <= end
    ensures ClipTotal(intervals, start, end) <= end - start
    decreases |intervals|
  {
    if intervals != map[] {
      var x := SomeKey(intervals);
      var i := intervals[x];
      var others := intervals - {x};
      ClipRemove(intervals, x, start, end);
      if Clips(i, start, end) && i.start < i.end {
        var from := if start >= i.start then start else i.start;
        var to := if end <= i.end then end else i.end;
        ClipSplit(others, start, from, end);
        ClipSplit(others, from, to, end);
        DisjointFit(others, start, from);
        DisjointFit(others, to, end);
        forall j | j in others ensures !Clips(others[j], from, to) {
          assert Apart(i, others[j]);
        }
        NothingInside(others, from, to);
      } else {
        DisjointFit(others, start, end);
      }
    } else {
      assert ClipLengths(intervals, start, end) == map[];
    }
  }

  lemma {:induction false} SumOfNonZeros<K>(a: map<K, int>, b: map<K, int>)
    requires forall k :: k in a ==> k in b && b[k] == a[k]
    requires forall k :: k in b && k !in a ==> b[k] == 0
    ensures Sum(a) == Sum(b)
    decreases |b|
  {
    if k :| k in b {
      SumRemove(b, k);
      if k in a {
        SumRemove(a, k);
        SumOfNonZeros(a - {k}, b - {k});
      } else {
        SumOfNonZeros(a, b - {k});
      }
    } else {
      assert a == map[] && b == map[];
    }
  }

  lemma {:induction false} ClipTotalNonNegative(intervals: map<int, ActivityInterval>, start: int, end: int)
    requires Forward(intervals) && start <= end
    ensures 0 <= ClipTotal(intervals, start, end)
    decreases |intervals|
  {
    if intervals != map[] {
      var x := SomeKey(intervals);
      ClipRemove(intervals, x, start, end);
      ClipTotalNonNegative(intervals - {x}, start, end);
    } else {
      assert ClipLengths(intervals, start, end) == map[];
    }
  }

  /** The dictionary entry of a user is the sum of what the window clips out of the user's intervals. */
  lemma PulledSeconds(src: Source, p: string, start: int, end: int, u: int)
    requires ForeignKeys(src) && u in src.users
    ensures ValueAt(GroupBy(ClipEntries(src, p, start, end)), RowKey(OfUser(src.users[u].realm, u), p, None, end))
         == ClipTotal(IntervalsOf(src, u), start, end)
  {
    var entries := ClipEntries(src, p, start, end);
    var k := RowKey(OfUser(src.users[u].realm, u), p, None, end);
    var fiber := Fiber(entries, k);
    SumOfNonZeros(fiber, ClipLengths(IntervalsOf(src, u), start, end));
    if k !in Groups(entries) {
      forall i | i in entries ensures entries[i].group != k { assert entries[i].group in Groups(entries); }
      assert fiber == map[];
    }
  }

  lemma PulledMinutes(src: Source, p: string, start: int, end: int, u: int)
    requires ForeignKeys(src) && Forward(src.intervals) && u in src.users && start <= end
    ensures ValueAt(WholeMinutes(GroupBy(ClipEntries(src, p, start, end))),
              RowKey(OfUser(src.users[u].realm, u), p, None, end))
         == ClipTotal(IntervalsOf(src, u), start, end) / MINUTE
  {
    hide ForeignKeys, ClipEntries, GroupBy, ClipTotal;
    PulledSeconds(src, p, start, end, u);
    ClipTotalNonNegative(IntervalsOf(src, u), start, end);
  }

  ghost predicate MinutesStat(env: Env, p: string) {
    && p in env.registry && env.registry[p].collector == Pulls(SumMinutes)
    && env.registry[p].frequency == Daily && env.registry[p].interval == DAY
  }

  ghost function MinutesKey(src: Source, p: string, u: int, t: int): RowKey
    requires u in src.users
  {
    RowKey(OfUser(src.users[u].realm, u), p, None, t)
  }

  /** A filled day of minutes_active holds the whole minutes of what the user's intervals leave
      inside that day: a row iff there is at least one. */
  lemma StoredMinutes(env: Env, src: Source, history: seq<Action>, p: string, upTo: int, t: int, u: int)
    requires ValidEnv(env) && ForeignKeys(src) && MinutesStat(env, p)
    requires Forward(After(env, src, history).src.intervals) && u in After(env, src, history).src.users
    requires Aligned(Daily, t) && env.epoch < t <= upTo
    requires DependenciesReach(env, After(env, src, history), [p], upTo)
    ensures ValueAt(After(env, src, history).rows, MinutesKey(After(env, src, history).src, p, u, t))
         == ClipTotal(IntervalsOf(After(env, src, history).src, u), t - DAY, t) / MINUTE
  {
    hide Ready, ClipTotal, ClipEntries, WholeMinutes, DependenciesReach, Forward, After, ValueAt;
    var sys := After(env, src, history);
    Reached(env, src, history, [p], p, upTo);
    StoredRow(env, sys, env.registry[p], SumMinutes, t, MinutesKey(sys.src, p, u, t));
    PulledMinutes(sys.src, p, t - DAY, t, u);
  }

  /** The stored minutes of the n days ending at t. */
  ghost function MinutesOver(rows: Rows, src: Source, p: string, u: int, t: int, n: nat): int
    requires u in src.users
    decreases n
  {
    if n == 0 then 0 else ValueAt(rows, MinutesKey(src, p, u, t)) + MinutesOver(rows, src, p, u, t - DAY, n - 1)
  }

  /** Active-minutes arithmetic: over n consecutive days the stored minutes never exceed the
      time the user's intervals spend there, and fall short of it by less than n minutes. */
  lemma {:induction false} MinutesUndercount(env: Env, src: Source, history: seq<Action>, p: string, u: int, t: int,
                                             n: nat)
    requires ValidEnv(env) && ForeignKeys(src) && MinutesStat(env, p)
    requires Forward(After(env, src, history).src.intervals) && u in After(env, src, history).src.users
    requires Aligned(Daily, t) && env.epoch + n * DAY <= t
    requires DependenciesReach(env, After(env, src, history), [p], t)
    ensures var sys := After(env, src, history);
            var minutes := MinutesOver(sys.rows, sys.src, p, u, t, n);
            var active := ClipTotal(IntervalsOf(sys.src, u), t - n * DAY, t);
            minutes * MINUTE <= active && (n > 0 ==> active < (minutes + n) * MINUTE)
    decreases n
  {
    hide ClipTotal, DependenciesReach, Forward, After, ValueAt, IntervalsOf;
    var sys := After(env, src, history);
    var mine := IntervalsOf(sys.src, u);
    UserForward(sys.src, u);
    if n == 0 {
      ClipTotalNonNegative(mine, t, t);
    } else {
      AlignedStep(Daily, t);
      EarlierReach(env, sys, [p], t, t - DAY);
      MinutesUndercount(env, src, history, p, u, t - DAY, n - 1);
      StoredMinutes(env, src, history, p, t, t, u);
      ClipSplit(mine, t - n * DAY, t - DAY, t);
    }
  }

  lemma UserForward(src: Source, u: int)
    requires Forward(src.intervals)
    ensures Forward(IntervalsOf(src, u))
  {}

  lemma EarlierReach(env: Env, sys: System, deps: seq<string>, t: int, s: int)
    requires DependenciesReach(env, sys, deps, t) && s <= t
    ensures DependenciesReach(env, sys, deps, s)
  {}

  ghost function Lengths(intervals: map<int, ActivityInterval>): map<int, int> {
    map i | i in intervals :: intervals[i].end - intervals[i].start
  }

  /** What the n day windows ending at t clip out of the intervals, added up. */
  ghost function DailyClips(intervals: map<int, ActivityInterval>, t: int, n: nat): int
    decreases n
  {
    if n == 0 then 0 else ClipTotal(intervals, t - DAY, t) + DailyClips(intervals, t - DAY, n - 1)
  }

  /** Consecutive day windows partition the intervals. */
  lemma {:induction false} DaysPartition(intervals: map<int, ActivityInterval>, t: int, n: nat)
    requires Forward(intervals)
    ensures DailyClips(intervals, t, n) == ClipTotal(intervals, t - n * DAY, t)
    decreases n
  {
    hide ClipTotal, Forward;
    if n == 0 {
      EmptyWindow(intervals, t);
    } else {
      DaysPartition(intervals, t - DAY, n - 1);
      ClipSplit(intervals, t - n * DAY, t - DAY, t);
    }
  }

  lemma EmptyWindow(intervals: map<int, ActivityInterval>, t: int)
    requires Forward(intervals)
    ensures ClipTotal(intervals, t, t) == 0
  {
    ClipSplit(intervals, t, t, t);
  }

  /** If the windows cover the intervals, nothing is lost: the clipped times of all the days add
      up to the total length of the intervals. */
  lemma CoveringDays(intervals: map<int, ActivityInterval>, t: int, n: nat)
    requires forall i :: i in intervals ==> t - n * DAY <= intervals[i].start < intervals[i].end <= t
    ensures DailyClips(intervals, t, n) == Sum(Lengths(intervals))
  {
    DaysPartition(intervals, t, n);
    CoveringWindow(intervals, t - n * DAY, t);
  }

  lemma CoveringWindow(intervals: map<int, ActivityInterval>, start: int, end: int)
    requires forall i :: i in intervals ==> start <= intervals[i].start < intervals[i].end <= end
    ensures ClipTotal(intervals, start, end) == Sum(Lengths(intervals))
  {
    forall i | i in intervals ensures ClipLength(intervals[i], start, end) == intervals[i].end - intervals[i].start {
      ClipWhole(intervals[i], start, end);
    }
    assert ClipLengths(intervals, start, end) == Lengths(intervals);
  }

  /** A user whose intervals are pairwise disjoint has at most 1440 minutes on any day. */
  lemma AtMostADay(env: Env, src: Source, history: seq<Action>, p: string, u: int, t: int)
    requires ValidEnv(env) && ForeignKeys(src) && MinutesStat(env, p)
    requires Forward(After(env, src, history).src.intervals) && u in After(env, src, history).src.users
    requires PairwiseDisjoint(IntervalsOf(After(env, src, history).src, u))
    requires Aligned(Daily, t) && env.epoch < t
    requires DependenciesReach(env, After(env, src, history), [p], t)
    ensures 0 <= ValueAt(After(env, src, history).rows, MinutesKey(After(env, src, history).src, p, u, t)) <= 1440
  {
    hide DependenciesReach, After, ValueAt, ClipTotal;
    StoredMinutes(env, src, history, p, t, t, u);
    UserForward(After(env, src, history).src, u);
    DisjointFit(IntervalsOf(After(env, src, history).src, u), t - DAY, t);
    ClipTotalNonNegative(IntervalsOf(After(env, src, history).src, u), t - DAY, t);
  }

  ghost predicate UsersDisjoint(intervals: map<int, ActivityInterval>) {
    forall i, j :: i in intervals && j in intervals && i != j && intervals[i].user == intervals[j].user
      ==> Apart(intervals[i], intervals[j])
  }

  /** The user's other intervals do not reach into the 15 minutes a heartbeat stands for. */
  ghost predicate RoomFor(intervals: map<int, ActivityInterval>, user: int, last: Option<int>, logTime: int) {
    forall j :: j in intervals && intervals[j].user == user && Some(j) != last ==>
      intervals[j].end <= logTime || logTime + MIN_INTERVAL_LENGTH <= intervals[j].start
  }

  /** The interval a heartbeat extends or makes. */
  function Touched(intervals: map<int, ActivityInterval>, last: Option<int>, newId: int, logTime: int): int
    requires last.Some? ==> last.value in intervals
  {
    if last.Some? && logTime <= intervals[last.value].end
                  && logTime + MIN_INTERVAL_LENGTH >= intervals[last.value].start then last.value else newId
  }

  lemma TouchedApart(intervals: map<int, ActivityInterval>, user: int, last: Option<int>, newId: int, logTime: int,
                     j: int)
    requires last.Some? ==> IsLatestInterval(intervals, user, last.value)
    requires newId !in intervals && LongIntervals(intervals) && UsersDisjoint(intervals)
    requires j in intervals && intervals[j].user == user && j != Touched(intervals, last, newId, logTime)
    ensures Touched(intervals, last, newId, logTime) in Heartbeat(intervals, user, last, newId, logTime)
    ensures Apart(Heartbeat(intervals, user, last, newId, logTime)[Touched(intervals, last, newId, logTime)],
              intervals[j]) <==>
              Some(j) == last || intervals[j].end <= logTime || logTime + MIN_INTERVAL_LENGTH <= intervals[j].start
  {
    if last.Some? && j != last.value { assert Apart(intervals[last.value], intervals[j]); }
  }

  /** A heartbeat keeps every user's intervals disjoint exactly if the user's intervals other than the
      latest leave room for it, whenever it arrives. */
  lemma HeartbeatKeepsDisjoint(intervals: map<int, ActivityInterval>, user: int, last: Option<int>, newId: int,
                               logTime: int)
    requires last.Some? ==> IsLatestInterval(intervals, user, last.value)
    requires last.None? ==> forall i :: i in intervals ==> intervals[i].user != user
    requires newId !in intervals && LongIntervals(intervals) && UsersDisjoint(intervals)
    ensures UsersDisjoint(Heartbeat(intervals, user, last, newId, logTime)) <==> RoomFor(intervals, user, last, logTime)
  {
    var after := Heartbeat(intervals, user, last, newId, logTime);
    var touched := Touched(intervals, last, newId, logTime);
    assert after[touched].user == user && forall i :: i in intervals && i != touched ==> after[i] == intervals[i];
    forall j | j in intervals && intervals[j].user == user && j != touched
      ensures Apart(after[touched], after[j]) <==>
                Some(j) == last || intervals[j].end <= logTime || logTime + MIN_INTERVAL_LENGTH <= intervals[j].start
    {
      TouchedApart(intervals, user, last, newId, logTime, j);
    }
    if RoomFor(intervals, user, last, logTime) {
      forall i, j | i in after && j in after && i != j && after[i].user == after[j].user
        ensures Apart(after[i], after[j])
      {
        if i != touched && j != touched { assert Apart(intervals[i], intervals[j]); }
      }
    }
    if UsersDisjoint(after) {
      forall j | j in intervals && intervals[j].user == user && Some(j) != last
        ensures intervals[j].end <= logTime || logTime + MIN_INTERVAL_LENGTH <= intervals[j].start
      {
        assert Apart(after[touched], after[j]);
      }
    }
  }

  /** In particular heartbeats in time order do. */
  lemma InOrderKeepsDisjoint(intervals: map<int, ActivityInterval>, user: int, last: Option<int>, newId: int,
                             logTime: int)
    requires last.Some? ==> IsLatestInterval(intervals, user, last.value) && intervals[last.value].start <= logTime
    requires last.None? ==> forall i :: i in intervals ==> intervals[i].user != user
    requires newId !in intervals && LongIntervals(intervals) && UsersDisjoint(intervals)
    ensures UsersDisjoint(Heartbeat(intervals, user, last, newId, logTime))
  {
    forall j | j in intervals && intervals[j].user == user && Some(j) != last ensures intervals[j].end <= logTime {
      assert Apart(intervals[last.value], intervals[j]);
    }
    HeartbeatKeepsDisjoint(intervals, user, last, newId, logTime);
  }

  lemma LateHeartbeatOverlaps()
    ensures var intervals :=
              map[1 := ActivityInterval(7, 0, 20 * MINUTE), 2 := ActivityInterval(7, 30 * MINUTE, 45 * MINUTE)];
            && IsLatestInterval(intervals, 7, 2) && LongIntervals(intervals) && UsersDisjoint(intervals)
            && !UsersDisjoint(Heartbeat(intervals, 7, Some(2), 3, 18 * MINUTE))
  {
    var intervals := map[1 := ActivityInterval(7, 0, 20 * MINUTE), 2 := ActivityInterval(7, 30 * MINUTE, 45 * MINUTE)];
    var after := Heartbeat(intervals, 7, Some(2), 3, 18 * MINUTE);
    assert after[1].user == after[2].user && !Apart(after[1], after[2]);
  }
}
