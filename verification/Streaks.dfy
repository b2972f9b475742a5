/** Daily check-ins and the streaks computed from them. The program recomputes both streaks from the whole history
    after every check-in, with one loop from the newest check-in back and one from the oldest on. Times are in
    nanoseconds, days are numbered. */
module Streaks {
  import opened Common

  const DAY := 86_400_000_000_000

  function DayOf(t: int): int { t / DAY }

  function Days(checkins: seq<int>): seq<int> {
    seq(|checkins|, i requires 0 <= i < |checkins| => DayOf(checkins[i]))
  }

  // ---- What the streaks are ----

  /** Positions `at .. at + n` of the list hold consecutive days. */
  predicate IsBlock(days: seq<int>, at: nat, n: nat) {
    at + n <= |days| && forall k :: at < k < at + n ==> days[k] == days[k - 1] + 1
  }

  /** The length of the longest block at the end of the list, and of the longest anywhere. */
  function TailRun(days: seq<int>): nat {
    if days == [] then 0
    else if |days| > 1 && days[|days| - 1] == days[|days| - 2] + 1 then TailRun(days[..|days| - 1]) + 1
    else 1
  }

  function MaxRun(days: seq<int>): nat {
    if days == [] then 0 else Max(MaxRun(days[..|days| - 1]), TailRun(days))
  }

  function CurrentStreak(days: seq<int>, today: int): nat {
    if days == [] || (days[|days| - 1] != today && days[|days| - 1] != today - 1) then 0 else TailRun(days)
  }

  lemma {:induction false} TailRunIsLongestSuffixBlock(days: seq<int>)
    ensures TailRun(days) <= |days| && IsBlock(days, |days| - TailRun(days), TailRun(days))
    ensures forall at: nat, n: nat :: at + n == |days| && IsBlock(days, at, n) ==> n <= TailRun(days)
    ensures days != [] ==> TailRun(days) >= 1
  {
    if days != [] {
      var init := days[..|days| - 1];
      TailRunIsLongestSuffixBlock(init);
      forall at: nat, n: nat | at + n == |days| && IsBlock(days, at, n)
        ensures n <= TailRun(days)
      {
        if n > 1 {
          assert days[|days| - 1] == days[|days| - 2] + 1;
          assert IsBlock(init, at, n - 1);
        }
      }
    }
  }

  /** The longest streak is the length of a block of consecutive days, and no block is longer. */
  lemma {:induction false} MaxRunIsLongestBlock(days: seq<int>) returns (at: nat)
    ensures IsBlock(days, at, MaxRun(days))
    ensures forall i: nat, n: nat :: IsBlock(days, i, n) ==> n <= MaxRun(days)
  {
    at := 0;
    if days != [] {
      var init := days[..|days| - 1];
      at := MaxRunIsLongestBlock(init);
      TailRunIsLongestSuffixBlock(days);
      if MaxRun(init) < TailRun(days) {
        at := |days| - TailRun(days);
      } else {
        assert IsBlock(days, at, MaxRun(init));
      }
      forall i: nat, n: nat | IsBlock(days, i, n)
        ensures n <= MaxRun(days)
      {
        if i + n < |days| {
          assert IsBlock(init, i, n);
        } else {
          assert i + n == |days|;
        }
      }
    }
  }

  lemma CurrentAtMostMax(days: seq<int>, today: int)
    ensures CurrentStreak(days, today) <= MaxRun(days)
  {
  }

  // ---- Streaks of a set of days ----

  predicate Increasing(days: seq<int>) { forall i, j :: 0 <= i < j < |days| ==> days[i] < days[j] }

  predicate ConsecutiveIn(days: seq<int>, first: int, n: nat) { forall d :: first <= d < first + n ==> d in days }

  lemma OrderOfPositions(days: seq<int>, i: nat, j: nat)
    requires Increasing(days) && i < |days| && j < |days|
    ensures i < j <==> days[i] < days[j]
  {
  }

  lemma {:induction false} RunStartsBlock(days: seq<int>, at: nat, n: nat)
    requires Increasing(days) && at < |days| && n >= 1 && ConsecutiveIn(days, days[at], n)
    ensures IsBlock(days, at, n)
    ensures days[at + n - 1] == days[at] + n - 1
  {
    if n > 1 {
      RunStartsBlock(days, at, n - 1);
      var d := days[at] + n - 1;
      assert d in days;
      var j :| 0 <= j < |days| && days[j] == d;
      var last := at + n - 2;
      assert days[last] == d - 1;
      OrderOfPositions(days, last, j);
      OrderOfPositions(days, last, last + 1);
      OrderOfPositions(days, last + 1, j);
    }
  }

  lemma {:induction false} BlockIsRun(days: seq<int>, at: nat, n: nat)
    requires n >= 1 && IsBlock(days, at, n)
    ensures days[at + n - 1] == days[at] + n - 1
    ensures ConsecutiveIn(days, days[at], n)
  {
    if n > 1 {
      BlockIsRun(days, at, n - 1);
    }
  }

  /** When no day is recorded twice, the longest streak is the largest number of consecutive days on each of which the
      user checked in: a statement about the set of days that does not mention their order. */
  lemma MaxRunIsLongestSetRun(days: seq<int>)
    requires Increasing(days)
    ensures days != [] ==> exists first :: ConsecutiveIn(days, first, MaxRun(days))
    ensures forall first, n: nat :: ConsecutiveIn(days, first, n) ==> n <= MaxRun(days)
  {
    var at := MaxRunIsLongestBlock(days);
    if days != [] {
      TailRunIsLongestSuffixBlock(days);
      BlockIsRun(days, at, MaxRun(days));
    }
    forall first, n: nat | ConsecutiveIn(days, first, n)
      ensures n <= MaxRun(days)
    {
      if n >= 1 {
        assert first in days;
        var i :| 0 <= i < |days| && days[i] == first;
        RunStartsBlock(days, i, n);
      }
    }
  }

  // ---- The two loops ----

  lemma {:induction false} TailRunFrom(days: seq<int>, n: nat)
    requires 1 <= n <= |days| && IsBlock(days, |days| - n, n)
    requires n < |days| ==> days[|days| - n] != days[|days| - n - 1] + 1
    ensures TailRun(days) == n
  {
    if n > 1 {
      TailRunFrom(days[..|days| - 1], n - 1);
    }
  }

  /** The loop from the newest check-in back. */
  method BackwardLoop(checkins: seq<int>, now: int) returns (currentStreak: nat)
    ensures currentStreak == CurrentStreak(Days(checkins), DayOf(now))
  {
    ghost var days := Days(checkins);
    var today := DayOf(now);
    var yesterday := today - 1;
    currentStreak := 0;
    var lastCheckinDate := 0;
    var i := |checkins| - 1;
    while i >= 0
      invariant -1 <= i < |checkins|
      invariant currentStreak == |checkins| - 1 - i
      invariant IsBlock(days, i + 1, currentStreak)
      invariant currentStreak >= 1 ==> lastCheckinDate == days[i + 1]
      invariant currentStreak >= 1 ==> days[|days| - 1] == today || days[|days| - 1] == yesterday
    {
      var checkinDate := DayOf(checkins[i]);
      assert days[i] == checkinDate;
      if i == |checkins| - 1 {
        if checkinDate == today || checkinDate == yesterday {
          currentStreak := 1;
          lastCheckinDate := checkinDate;
        } else {
          break;
        }
      } else {
        if checkinDate == lastCheckinDate - 1 {
          currentStreak := currentStreak + 1;
          lastCheckinDate := checkinDate;
        } else {
          break;
        }
      }
      i := i - 1;
    }
    if currentStreak >= 1 {
      TailRunFrom(days, currentStreak);
    }
  }

  /** The loop from the oldest check-in on. */
  method ForwardLoop(checkins: seq<int>) returns (maxStreak: nat)
    ensures maxStreak == MaxRun(Days(checkins))
  {
    ghost var days := Days(checkins);
    maxStreak := 0;
    var tempStreak := 0;
    var tempLastDate := 0;
    for j := 0 to |checkins|
      invariant tempStreak == TailRun(days[..j])
      invariant Max(maxStreak, tempStreak) == MaxRun(days[..j])
      invariant j > 0 ==> tempLastDate == days[j - 1]
    {
      assert days[..j + 1][..j] == days[..j];
      var checkinDate := DayOf(checkins[j]);
      assert days[j] == checkinDate;
      if j == 0 {
        tempStreak := 1;
        tempLastDate := checkinDate;
      } else {
        if checkinDate == tempLastDate + 1 {
          tempStreak := tempStreak + 1;
          tempLastDate := checkinDate;
        } else {
          if tempStreak > maxStreak {
            maxStreak := tempStreak;
          }
          tempStreak := 1;
          tempLastDate := checkinDate;
        }
      }
    }
    assert days[..|checkins|] == days;
    if tempStreak > maxStreak {
      maxStreak := tempStreak;
    }
  }

  /** UpdateUserStreak on the check-ins in the order of the query, at time `now`. */
  method ComputeStreaks(checkins: seq<int>, now: int) returns (currentStreak: nat, maxStreak: nat)
    ensures currentStreak == CurrentStreak(Days(checkins), DayOf(now))
    ensures maxStreak == MaxRun(Days(checkins))
    ensures currentStreak <= maxStreak
  {
    currentStreak := BackwardLoop(checkins, now);
    maxStreak := ForwardLoop(checkins);
    CurrentAtMostMax(Days(checkins), DayOf(now));
  }

  // ---- Runs of check-ins ----

  /** One call of recordCheckinInternal: the clock when it starts and when it recomputes the streaks. */
  datatype Call = Call(now: int, later: int)

  datatype Record = Record(checkins: seq<int>, current: nat, max: nat)

  predicate CheckedInOn(checkins: seq<int>, day: int) {
    exists i :: 0 <= i < |checkins| && DayOf(checkins[i]) == day
  }

  function CheckIn(r: Record, c: Call): Record {
    if CheckedInOn(r.checkins, DayOf(c.now)) then r
    else
      var days := Days(r.checkins + [c.now]);
      Record(r.checkins + [c.now], CurrentStreak(days, DayOf(c.later)), MaxRun(days))
  }

  function RecordAfter(calls: seq<Call>): Record {
    if calls == [] then Record([], 0, 0) else CheckIn(RecordAfter(calls[..|calls| - 1]), calls[|calls| - 1])
  }

  /** The clock never goes back, within a call or between calls. */
  predicate Clocked(calls: seq<Call>) {
    && (forall i :: 0 <= i < |calls| ==> calls[i].now <= calls[i].later)
    && (forall i, j :: 0 <= i < j < |calls| ==> calls[i].later <= calls[j].now)
  }

  /** A constant-time account: the last day, the run that ends on it, the longest run and what is shown as current. */
  datatype Account = Account(last: Option<int>, run: nat, max: nat, current: nat)

  function Extend(a: Account, c: Call): Account {
    var day := DayOf(c.now);
    if a.last == Some(day) then a
    else
      var run := if a.last == Some(day - 1) then a.run + 1 else 1;
      Account(Some(day), run, Max(a.max, run), if DayOf(c.later) <= day + 1 then run else 0)
  }

  function AccountAfter(calls: seq<Call>): Account {
    if calls == [] then Account(None, 0, 0, 0) else Extend(AccountAfter(calls[..|calls| - 1]), calls[|calls| - 1])
  }

  predicate Describes(a: Account, r: Record) {
    var days := Days(r.checkins);
    && Increasing(days)
    && a.last == (if days == [] then None else Some(days[|days| - 1]))
    && a.run == TailRun(days) && a.max == r.max == MaxRun(days) && a.current == r.current
  }

  lemma LastDayIsLatest(r: Record, now: int)
    requires Increasing(Days(r.checkins))
    requires forall i :: 0 <= i < |r.checkins| ==> r.checkins[i] <= now
    ensures var days := Days(r.checkins);
      && (forall i :: 0 <= i < |days| ==> days[i] <= DayOf(now))
      && (CheckedInOn(r.checkins, DayOf(now)) <==> days != [] && days[|days| - 1] == DayOf(now))
  {
    var days, day := Days(r.checkins), DayOf(now);
    assert forall i :: 0 <= i < |days| ==> days[i] == DayOf(r.checkins[i]) <= day;
    if CheckedInOn(r.checkins, day) {
      var i :| 0 <= i < |r.checkins| && DayOf(r.checkins[i]) == day;
      OrderOfPositions(days, i, |days| - 1);
    }
  }

  lemma DayIsAppended(days: seq<int>, day: int)
    requires Increasing(days) && (days != [] ==> days[|days| - 1] < day)
    ensures Increasing(days + [day])
    ensures TailRun(days + [day]) == if days != [] && days[|days| - 1] == day - 1 then TailRun(days) + 1 else 1
    ensures MaxRun(days + [day]) == Max(MaxRun(days), TailRun(days + [day]))
  {
    var more := days + [day];
    assert more[..|days|] == days;
    forall i | 0 <= i < |days|
      ensures days[i] < day
    {
      OrderOfPositions(days, i, |days| - 1);
    }
  }

  lemma NewDayExtends(a: Account, r: Record, c: Call)
    requires Describes(a, r) && c.now <= c.later
    requires forall i :: 0 <= i < |r.checkins| ==> r.checkins[i] <= c.now
    ensures Describes(Extend(a, c), CheckIn(r, c))
  {
    var days, day := Days(r.checkins), DayOf(c.now);
    LastDayIsLatest(r, c.now);
    if !CheckedInOn(r.checkins, day) {
      assert Days(r.checkins + [c.now]) == days + [day];
      DayIsAppended(days, day);
      assert day <= DayOf(c.later);
    }
  }

  lemma {:induction false} CheckinsPrecede(calls: seq<Call>, t: int)
    requires forall i :: 0 <= i < |calls| ==> calls[i].now <= t
    ensures forall i :: 0 <= i < |RecordAfter(calls).checkins| ==> RecordAfter(calls).checkins[i] <= t
  {
    if calls != [] {
      CheckinsPrecede(calls[..|calls| - 1], t);
    }
  }

  /** In every sequential run there is at most one check-in per day, and recomputing both streaks from the whole
      history gives what the constant-time account gives. */
  lemma {:induction false} RecomputationRefinesAccount(calls: seq<Call>)
    requires Clocked(calls)
    ensures Describes(AccountAfter(calls), RecordAfter(calls))
  {
    if calls == [] {
      assert Days([]) == [];
    } else {
      var init, c := calls[..|calls| - 1], calls[|calls| - 1];
      RecomputationRefinesAccount(init);
      forall i | 0 <= i < |init|
        ensures init[i].now <= c.now
      {
        assert calls[i].now <= calls[i].later <= c.now;
      }
      CheckinsPrecede(init, c.now);
      NewDayExtends(AccountAfter(init), RecordAfter(init), c);
    }
  }

  /** The incremental law: a first check-in of a day makes the streak one longer than the streak that was running on
      that day, as long as the streaks are recomputed that day or the next, and raises the longest streak to it. */
  lemma IncrementalLaw(calls: seq<Call>, c: Call)
    requires Clocked(calls + [c])
    requires !CheckedInOn(RecordAfter(calls).checkins, DayOf(c.now))
    ensures var before, after := RecordAfter(calls), RecordAfter(calls + [c]);
      var streak := CurrentStreak(Days(before.checkins), DayOf(c.now)) + 1;
      && after.max == Max(before.max, streak)
      && (after.current == streak <==> DayOf(c.later) <= DayOf(c.now) + 1)
  {
    var all := calls + [c];
    assert all[..|calls|] == calls;
    assert Clocked(calls) by {
      assert forall i :: 0 <= i < |calls| ==> all[i] == calls[i];
    }
    RecomputationRefinesAccount(calls);
    RecomputationRefinesAccount(all);
    StreakOfAccount(AccountAfter(calls), RecordAfter(calls), c);
  }

  lemma StreakOfAccount(a: Account, r: Record, c: Call)
    requires Describes(a, r) && !CheckedInOn(r.checkins, DayOf(c.now))
    ensures Extend(a, c).run == CurrentStreak(Days(r.checkins), DayOf(c.now)) + 1
    ensures a.last != Some(DayOf(c.now))
  {
    var days := Days(r.checkins);
    if days != [] {
      assert DayOf(r.checkins[|days| - 1]) == days[|days| - 1];
    }
  }

  // ---- The streaks from the calls alone ----

  /** The days, of 24 hours each, on which a call began. */
  function CallDays(calls: seq<Call>): set<int> {
    set i | 0 <= i < |calls| :: calls[i].now / 86_400_000_000_000
  }

  predicate InARow(days: set<int>, first: int, n: nat) { forall d :: first <= d < first + n ==> d in days }

  lemma {:induction false} CheckinDaysAreCallDays(calls: seq<Call>, day: int)
    ensures day in Days(RecordAfter(calls).checkins) <==> day in CallDays(calls)
  {
    if calls == [] {
      assert Days([]) == [];
    } else {
      var init, c := calls[..|calls| - 1], calls[|calls| - 1];
      CheckinDaysAreCallDays(init, day);
      CallDaysStep(init, c, day);
      var checkins := RecordAfter(init).checkins;
      assert calls == init + [c];
      assert Days(checkins + [c.now]) == Days(checkins) + [DayOf(c.now)];
      if CheckedInOn(checkins, DayOf(c.now)) {
        var i :| 0 <= i < |checkins| && DayOf(checkins[i]) == DayOf(c.now);
        assert Days(checkins)[i] == DayOf(c.now);
      }
    }
  }

  lemma CallDaysStep(calls: seq<Call>, c: Call, day: int)
    ensures day in CallDays(calls + [c]) <==> day in CallDays(calls) || day == DayOf(c.now)
  {
    var all := calls + [c];
    assert forall i :: 0 <= i < |calls| ==> all[i] == calls[i];
    assert all[|calls|] == c;
    if i :| 0 <= i < |calls| && DayOf(calls[i].now) == day {
      assert all[i].now / 86_400_000_000_000 == day;
    }
  }

  lemma RunToTheEndIsTail(days: seq<int>, first: int, n: nat)
    requires Increasing(days) && n >= 1 && days != [] && first + n - 1 == days[|days| - 1]
    requires ConsecutiveIn(days, first, n)
    ensures n <= TailRun(days)
  {
    assert first in days;
    var at :| 0 <= at < |days| && days[at] == first;
    RunStartsBlock(days, at, n);
    OrderOfPositions(days, at + n - 1, |days| - 1);
    TailRunIsLongestSuffixBlock(days);
  }

  /** The run at the end of the list is the longest run of days that ends on the last one. */
  lemma TailRunEndsTheSet(days: seq<int>)
    requires Increasing(days) && days != []
    ensures var last, n := days[|days| - 1], TailRun(days);
      && n >= 1 && ConsecutiveIn(days, last - n + 1, n) && last - n !in days
  {
    var last, n := days[|days| - 1], TailRun(days);
    TailRunIsLongestSuffixBlock(days);
    BlockIsRun(days, |days| - n, n);
    if last - n in days {
      RunToTheEndIsTail(days, last - n, n + 1);
    }
  }

  /** Call number `i` is the first on its day, and no later call is on another day. */
  predicate StartsLastDay(calls: seq<Call>, i: nat) {
    && i < |calls|
    && (forall j :: 0 <= j < i ==> calls[j].now / 86_400_000_000_000 != calls[i].now / 86_400_000_000_000)
    && (forall j :: i <= j < |calls| ==> calls[j].now / 86_400_000_000_000 == calls[i].now / 86_400_000_000_000)
  }

  lemma {:induction false} AccountSinceLastDay(calls: seq<Call>, i: nat)
    requires StartsLastDay(calls, i)
    ensures var a, day := AccountAfter(calls), DayOf(calls[i].now);
      && a.last == Some(day)
      && a.current == if DayOf(calls[i].later) <= day + 1 then a.run else 0
  {
    var init := calls[..|calls| - 1];
    if i < |init| {
      assert StartsLastDay(init, i);
      AccountSinceLastDay(init, i);
      assert DayOf(calls[|init|].now) == DayOf(calls[i].now);
    } else {
      LastDayWasCalled(init);
    }
  }

  lemma {:induction false} LastDayWasCalled(calls: seq<Call>)
    ensures var last := AccountAfter(calls).last;
      last.Some? ==> exists j :: 0 <= j < |calls| && DayOf(calls[j].now) == last.value
  {
    if calls != [] {
      var init := calls[..|calls| - 1];
      LastDayWasCalled(init);
      if AccountAfter(calls) == AccountAfter(init) && AccountAfter(init).last.Some? {
        var j :| 0 <= j < |init| && DayOf(init[j].now) == AccountAfter(init).last.value;
        assert DayOf(calls[j].now) == AccountAfter(init).last.value;
      }
    }
  }

  /** The longest streak of every run is the largest number of days in a row on each of which a call began. */
  lemma LongestStreakOfCalls(calls: seq<Call>)
    requires Clocked(calls)
    ensures var max := RecordAfter(calls).max;
      && (calls != [] ==> exists first :: InARow(CallDays(calls), first, max))
      && (forall first, n: nat :: InARow(CallDays(calls), first, n) ==> n <= max)
  {
    RecomputationRefinesAccount(calls);
    var days := Days(RecordAfter(calls).checkins);
    MaxRunIsLongestSetRun(days);
    forall first, n: nat
      ensures InARow(CallDays(calls), first, n) <==> ConsecutiveIn(days, first, n)
    {
      forall d: int
        ensures d in days <==> d in CallDays(calls)
      {
        CheckinDaysAreCallDays(calls, d);
      }
    }
    if calls != [] {
      CallDaysStep(calls[..|calls| - 1], calls[|calls| - 1], DayOf(calls[|calls| - 1].now));
      assert calls == calls[..|calls| - 1] + [calls[|calls| - 1]];
      CheckinDaysAreCallDays(calls, DayOf(calls[|calls| - 1].now));
      var first :| ConsecutiveIn(days, first, MaxRun(days));
      assert InARow(CallDays(calls), first, MaxRun(days));
    }
  }

  lemma AccountRunsInTheSet(calls: seq<Call>)
    requires Clocked(calls) && AccountAfter(calls).last.Some?
    ensures var a := AccountAfter(calls);
      && a.current == RecordAfter(calls).current && a.run >= 1
      && InARow(CallDays(calls), a.last.value - a.run + 1, a.run) && a.last.value - a.run !in CallDays(calls)
  {
    RecomputationRefinesAccount(calls);
    var days := Days(RecordAfter(calls).checkins);
    forall d: int
      ensures d in days <==> d in CallDays(calls)
    {
      CheckinDaysAreCallDays(calls, d);
    }
    TailRunEndsTheSet(days);
  }

  /** The current streak of every run is the number of days in a row, up to the last day with a call, on each of which a
      call began; or 0 when the first call of that day recomputed the streaks later than on the next day. */
  lemma CurrentStreakOfCalls(calls: seq<Call>, i: nat)
    requires Clocked(calls) && StartsLastDay(calls, i)
    ensures var day, n := calls[i].now / 86_400_000_000_000, RecordAfter(calls).current;
      if calls[i].later / 86_400_000_000_000 <= day + 1 then
        n >= 1 && InARow(CallDays(calls), day - n + 1, n) && day - n !in CallDays(calls)
      else n == 0
  {
    AccountSinceLastDay(calls, i);
    AccountRunsInTheSet(calls);
  }

  /** One user's check-ins and the streaks stored for the user. */
  class CheckinLog {
    var checkins: seq<int>
    var currentStreak: nat
    var maxStreak: nat

    function Snapshot(): Record
      reads this
    {
      Record(checkins, currentStreak, maxStreak)
    }

    constructor ()
      ensures Snapshot() == Record([], 0, 0)
    {
      checkins, currentStreak, maxStreak := [], 0, 0;
    }

    /** recordCheckinInternal; the result says whether a check-in was recorded. */
    method RecordCheckin(now: int, later: int) returns (success: bool)
      modifies this
      ensures Snapshot() == CheckIn(old(Snapshot()), Call(now, later))
      ensures success <==>
              forall t :: t in old(checkins) ==> t / 86_400_000_000_000 != now / 86_400_000_000_000
      ensures checkins == old(checkins) + if success then [now] else []
      ensures success ==> currentStreak <= maxStreak
    {
      var count := 0;
      for i := 0 to |checkins|
        invariant count <= i
        invariant count > 0 <==> exists j :: 0 <= j < i && DayOf(checkins[j]) == DayOf(now)
      {
        if DayOf(checkins[i]) == DayOf(now) {
          count := count + 1;
        }
      }
      assert forall j :: 0 <= j < |checkins| ==> checkins[j] in checkins;
      if count > 0 {
        return false;
      }
      checkins := checkins + [now];
      currentStreak, maxStreak := ComputeStreaks(checkins, later);
      return true;
    }
  }
}
