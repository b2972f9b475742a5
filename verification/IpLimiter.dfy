/** The in-memory limiter for guest account creation: a fixed window per IP address, opened by a request. */
module IpLimiter {
  import opened Common

  datatype Entry = Entry(count: int, resetTime: int)

  datatype Decision = Decision(admitted: bool, remaining: int, resetAt: int)

  // ---- One address ----

  /** What one request at time `now` makes of the address's entry, and whether it is let through. */
  function Touch(e: Option<Entry>, now: int, max: int, window: int): (Entry, bool) {
    var found := if e.Some? then e.value else Entry(0, now + window);
    var current := if now > found.resetTime then Entry(0, now + window) else found;
    if current.count >= max then (current, false) else (Entry(current.count + 1, current.resetTime), true)
  }

  function EntryAfter(times: seq<int>, max: int, window: int): Option<Entry> {
    if times == [] then None
    else Some(Touch(EntryAfter(times[..|times| - 1], max, window), times[|times| - 1], max, window).0)
  }

  /** Whether the last request of the run is let through. */
  predicate LastAdmitted(times: seq<int>, max: int, window: int)
    requires times != []
  {
    Touch(EntryAfter(times[..|times| - 1], max, window), times[|times| - 1], max, window).1
  }

  function Admitted(times: seq<int>, max: int, window: int): nat {
    if times == [] then 0
    else Admitted(times[..|times| - 1], max, window) + if LastAdmitted(times, max, window) then 1 else 0
  }

  /** Admissions among requests `lo..hi` of the run. */
  function AdmittedBetween(times: seq<int>, lo: nat, hi: nat, max: int, window: int): int
    requires lo <= hi <= |times|
  {
    Admitted(times[..hi], max, window) - Admitted(times[..lo], max, window)
  }

  // ---- Windows ----

  /** The request that opened the window in force after the run: windows are cut from the times alone, each is opened by
      the first request that comes more than one window length after the opening of the one before. */
  function Opener(times: seq<int>, window: int): (f: nat)
    requires times != []
    ensures f < |times|
  {
    var last := |times| - 1;
    if last == 0 || times[last] > times[Opener(times[..last], window)] + window then last
    else Opener(times[..last], window)
  }

  /** The stored entry counts what its window admitted and ends one window length after the opening request. */
  lemma {:induction false} EntryDescribesWindow(times: seq<int>, max: int, window: int)
    requires times != []
    ensures var f, e := Opener(times, window), EntryAfter(times, max, window).value;
      && e.resetTime == times[f] + window
      && e.count == AdmittedBetween(times, f, |times|, max, window)
      && 0 <= e.count <= Max(max, 0)
  {
    var init := times[..|times| - 1];
    assert times[..|times|] == times;
    if init != [] {
      EntryDescribesWindow(init, max, window);
      var f := Opener(init, window);
      assert init[..f] == times[..f] && init[..|init|] == init;
    } else {
      assert times[..0] == [];
    }
  }

  lemma {:induction false} OpenerIsAdmitted(times: seq<int>, max: int, window: int)
    requires times != [] && max >= 1 && window >= 0
    ensures var f := Opener(times, window);
      AdmittedBetween(times, f, f + 1, max, window) == 1
  {
    var last := |times| - 1;
    if Opener(times, window) == last {
      assert times[..last + 1] == times;
      if last > 0 {
        EntryDescribesWindow(times[..last], max, window);
      }
    } else {
      OpenerIsAdmitted(times[..last], max, window);
      EntryDescribesWindow(times[..last], max, window);
      var f := Opener(times, window);
      assert times[..last][..f] == times[..f] && times[..last][..f + 1] == times[..f + 1];
    }
  }

  lemma {:induction false} AdmittedGrows(times: seq<int>, lo: nat, hi: nat, max: int, window: int)
    requires lo <= hi <= |times|
    ensures 0 <= AdmittedBetween(times, lo, hi, max, window) <= hi - lo
  {
    if lo < hi {
      AdmittedGrows(times, lo, hi - 1, max, window);
      assert times[..hi][..hi - 1] == times[..hi - 1];
    }
  }

  lemma {:induction false} OpenerMovesForward(times: seq<int>, n: nat, window: int)
    requires 0 < n <= |times|
    ensures Opener(times[..n], window) <= Opener(times, window)
  {
    if n == |times| {
      assert times[..n] == times;
    } else {
      assert times[..|times| - 1][..n] == times[..n];
      OpenerMovesForward(times[..|times| - 1], n, window);
    }
  }

  /** A window opened after another one opens more than one window length after it. */
  lemma {:induction false} WindowsFarApart(times: seq<int>, n: nat, window: int)
    requires 0 < n < |times| && Ordered(times)
    requires Opener(times[..n], window) < Opener(times, window)
    ensures times[Opener(times, window)] > times[Opener(times[..n], window)] + window
  {
    var init := times[..|times| - 1];
    assert init[..n] == times[..n];
    if Opener(times, window) == |init| {
      OpenerMovesForward(init, n, window);
    } else {
      WindowsFarApart(init, n, window);
    }
  }

  /** When the last request of a run is let through: if and only if fewer than the limit came before it in its window,
      so one that opens a window exactly when the limit is at least 1. */
  lemma {:induction false} LastAdmittedIff(times: seq<int>, max: int, window: int)
    requires times != []
    ensures var f, last := Opener(times, window), |times| - 1;
      && (LastAdmitted(times, max, window) <==> last - f < max)
      && EntryAfter(times, max, window) == Some(Entry(Min(last - f + 1, Max(max, 0)), times[f] + window))
  {
    if |times| > 1 {
      LastAdmittedIff(times[..|times| - 1], max, window);
    }
  }

  /** Every window admits exactly the smaller of its requests and the limit, as far as the run has come; and so its next
      request is let through if and only if fewer than the limit have been. */
  lemma WindowAdmitsExactly(times: seq<int>, max: int, window: int)
    requires times != []
    ensures var f, last := Opener(times, window), |times| - 1;
      && AdmittedBetween(times, f, |times|, max, window) == Min(|times| - f, Max(max, 0))
      && (LastAdmitted(times, max, window) <==>
            if f == last then max >= 1 else AdmittedBetween(times, f, last, max, window) < max)
  {
    var f, last := Opener(times, window), |times| - 1;
    CountOfWindow(times, max, window);
    LastAdmittedIff(times, max, window);
    if f < last {
      CountBeforeLast(times, max, window);
    }
  }

  lemma CountBeforeLast(times: seq<int>, max: int, window: int)
    requires times != [] && Opener(times, window) < |times| - 1
    ensures var f, last := Opener(times, window), |times| - 1;
      AdmittedBetween(times, f, last, max, window) == Min(last - f, Max(max, 0))
  {
    var last := |times| - 1;
    CountOfWindow(times[..last], max, window);
    CutAgain(times, Opener(times, window), last, max, window);
  }

  lemma CountOfWindow(times: seq<int>, max: int, window: int)
    requires times != []
    ensures var f := Opener(times, window);
      AdmittedBetween(times, f, |times|, max, window) == Min(|times| - f, Max(max, 0))
  {
    EntryDescribesWindow(times, max, window);
    LastAdmittedIff(times, max, window);
  }

  lemma CutAgain(times: seq<int>, lo: nat, hi: nat, max: int, window: int)
    requires lo <= hi <= |times|
    ensures AdmittedBetween(times[..hi], lo, hi, max, window) == AdmittedBetween(times, lo, hi, max, window)
  {
    assert times[..hi][..lo] == times[..lo] && times[..hi][..hi] == times[..hi];
  }

  // ---- Any stretch of time ----

  /** The part of a stretch that lies in a window opened before it misses the opening request. */
  lemma PartAfterTheOpener(times: seq<int>, lo: nat, max: int, window: int)
    requires window >= 0 && lo < |times| && Opener(times, window) < lo
    ensures AdmittedBetween(times, lo, |times|, max, window) <= Max(0, max - 1)
  {
    var g := Opener(times, window);
    EntryDescribesWindow(times, max, window);
    if max >= 1 {
      OpenerIsAdmitted(times, max, window);
      AdmittedGrows(times, g + 1, lo, max, window);
    } else {
      AdmittedGrows(times, g, lo, max, window);
    }
  }

  /** When a window opens inside a stretch that is no longer than the window, the one before opened before it. */
  lemma PreviousWindowIsOlder(times: seq<int>, lo: nat, window: int)
    requires times != [] && Ordered(times) && lo < Opener(times, window)
    requires times[|times| - 1] <= times[lo] + window
    ensures Opener(times[..Opener(times, window)], window) < lo
  {
    var f := Opener(times, window);
    OpenerMovesForward(times, f, window);
    WindowsFarApart(times, f, window);
    assert times[Opener(times[..f], window)] < times[lo];
  }

  /** A stretch of the run no longer than the window can touch two windows but misses the request that opened the
      first of them. */
  lemma StretchBound(times: seq<int>, lo: nat, max: int, window: int)
    requires Ordered(times) && lo < |times| && window >= 0
    requires times[|times| - 1] <= times[lo] + window
    ensures AdmittedBetween(times, lo, |times|, max, window) <= Max(0, 2 * max - 1)
  {
    var f := Opener(times, window);
    EntryDescribesWindow(times, max, window);
    if f <= lo {
      AdmittedGrows(times, f, lo, max, window);
    } else {
      PreviousWindowIsOlder(times, lo, window);
      PartAfterTheOpener(times[..f], lo, max, window);
      assert times[..f][..lo] == times[..lo] && times[..f][..f] == times[..f];
    }
  }

  /** In every run with a clock that does not go back, any requests within one window length of each other include
      at most 2 * max - 1 that are let through. */
  lemma AtMostTwiceMaxLessOne(times: seq<int>, lo: nat, hi: nat, max: int, window: int)
    requires Ordered(times) && lo < hi <= |times|
    requires times[hi - 1] <= times[lo] + window
    ensures AdmittedBetween(times, lo, hi, max, window) <= Max(0, 2 * max - 1)
  {
    assert times[lo] <= times[hi - 1];
    assert times[..hi][..lo] == times[..lo] && times[..hi][..hi] == times[..hi];
    if window >= 0 {
      StretchBound(times[..hi], lo, max, window);
    }
  }

  /** The run that reaches the bound: one request opens a window, the rest of the limit is used at its end, and the
      whole limit again just after. */
  function Burst(max: nat, window: nat): seq<int>
    requires max >= 1
  {
    seq(2 * max, i requires 0 <= i < 2 * max => if i == 0 then 0 else if i < max then window else window + 1)
  }

  lemma {:induction false} BurstIsAdmitted(max: nat, window: nat, n: nat)
    requires max >= 1 && n <= 2 * max
    ensures Admitted(Burst(max, window)[..n], max, window) == n
    ensures 0 < n <= max ==> EntryAfter(Burst(max, window)[..n], max, window) == Some(Entry(n, window))
    ensures max < n ==> EntryAfter(Burst(max, window)[..n], max, window) == Some(Entry(n - max, 2 * window + 1))
  {
    if n > 0 {
      var times := Burst(max, window);
      BurstIsAdmitted(max, window, n - 1);
      assert times[..n][..n - 1] == times[..n - 1];
    }
  }

  lemma BoundIsReached(max: nat, window: nat)
    requires max >= 1 && window >= 1
    ensures var times := Burst(max, window);
      && Ordered(times) && times[2 * max - 1] <= times[1] + window
      && AdmittedBetween(times, 1, 2 * max, max, window) == 2 * max - 1
  {
    BurstIsAdmitted(max, window, 1);
    BurstIsAdmitted(max, window, 2 * max);
  }

  /** The documented promise: at most `max` within any window length. */
  ghost predicate AtMostMaxInAnyWindowLength(max: int, window: int) {
    forall times, lo: nat, hi: nat ::
      Ordered(times) && lo < hi <= |times| && times[hi - 1] <= times[lo] + window ==>
        AdmittedBetween(times, lo, hi, max, window) <= max
  }

  /** With a window of length zero, requests at the same instant share a window. */
  lemma SimultaneousBound(times: seq<int>, lo: nat, max: int)
    requires Ordered(times) && lo < |times| && times[|times| - 1] == times[lo]
    ensures AdmittedBetween(times, lo, |times|, max, 0) <= Max(max, 0)
  {
    var f := Opener(times, 0);
    EntryDescribesWindow(times, max, 0);
    OpenedBySimultaneous(times, lo, max);
    AdmittedGrows(times, f, lo, max, 0);
  }

  lemma OpenedBySimultaneous(times: seq<int>, lo: nat, max: int)
    requires Ordered(times) && lo < |times| && times[|times| - 1] == times[lo]
    ensures Opener(times, 0) <= lo
  {
    var early := times[..lo + 1];
    var f, g := Opener(times, 0), Opener(early, 0);
    EntryDescribesWindow(early, max, 0);
    OpenerMovesForward(times, lo + 1, 0);
    assert times[g] == times[lo];
    if lo + 1 == |times| {
      assert early == times;
    } else if g < f {
      WindowsFarApart(times, lo + 1, 0);
    }
  }

  /** It holds for a limit of one or none, or when requests within the window length are simultaneous or impossible,
      and for no other setting; the setting in use, 3 per hour, lets 5 through within an hour. */
  lemma DocumentedPromiseIff(max: nat, window: int)
    ensures AtMostMaxInAnyWindowLength(max, window) <==> max <= 1 || window <= 0
  {
    if max <= 1 || window <= 0 {
      forall times, lo: nat, hi: nat | Ordered(times) && lo < hi <= |times| && times[hi - 1] <= times[lo] + window
        ensures AdmittedBetween(times, lo, hi, max, window) <= max
      {
        AtMostTwiceMaxLessOne(times, lo, hi, max, window);
        if window == 0 {
          assert times[..hi][..lo] == times[..lo] && times[..hi][..hi] == times[..hi];
          SimultaneousBound(times[..hi], lo, max);
        }
      }
    } else {
      BoundIsReached(max, window);
      assert AdmittedBetween(Burst(max, window), 1, 2 * max, max, window) > max;
    }
  }

  /** The setting of the guest routes, 3 in 60 minutes, lets 5 through within 60 minutes, and never more. */
  lemma FiveGuestsWithinAnHour()
    ensures !AtMostMaxInAnyWindowLength(3, 3_600_000_000_000)
    ensures exists times :: Ordered(times) && |times| == 6 && times[5] <= times[1] + 3_600_000_000_000 &&
              AdmittedBetween(times, 1, 6, 3, 3_600_000_000_000) == 5
    ensures forall times, lo: nat, hi: nat ::
      Ordered(times) && lo < hi <= |times| && times[hi - 1] <= times[lo] + 3_600_000_000_000 ==>
        AdmittedBetween(times, lo, hi, 3, 3_600_000_000_000) <= 5
  {
    DocumentedPromiseIff(3, 3_600_000_000_000);
    BoundIsReached(3, 3_600_000_000_000);
    forall times, lo: nat, hi: nat |
      Ordered(times) && lo < hi <= |times| && times[hi - 1] <= times[lo] + 3_600_000_000_000
      ensures AdmittedBetween(times, lo, hi, 3, 3_600_000_000_000) <= 5
    {
      AtMostTwiceMaxLessOne(times, lo, hi, 3, 3_600_000_000_000);
    }
  }

  // ---- All addresses ----

  datatype Request = Request(ip: string, now: int)

  function Lookup(limits: map<string, Entry>, ip: string): Option<Entry> {
    if ip in limits then Some(limits[ip]) else None
  }

  function LimitsAfter(requests: seq<Request>, max: int, window: int): map<string, Entry> {
    if requests == [] then map[]
    else
      var before, r := LimitsAfter(requests[..|requests| - 1], max, window), requests[|requests| - 1];
      before[r.ip := Touch(Lookup(before, r.ip), r.now, max, window).0]
  }

  /** The times at which one address asked. */
  function TimesOf(requests: seq<Request>, ip: string): seq<int> {
    if requests == [] then []
    else
      var r := requests[|requests| - 1];
      TimesOf(requests[..|requests| - 1], ip) + if r.ip == ip then [r.now] else []
  }

  /** The requests of other addresses change nothing for an address: its entry and the answer to its requests are
      those of a limiter that serves it alone. */
  lemma {:induction false} AddressesAreIndependent(requests: seq<Request>, ip: string, max: int, window: int)
    ensures Lookup(LimitsAfter(requests, max, window), ip) == EntryAfter(TimesOf(requests, ip), max, window)
  {
    if requests != [] {
      var init, r := requests[..|requests| - 1], requests[|requests| - 1];
      AddressesAreIndependent(init, ip, max, window);
      if r.ip == ip {
        assert TimesOf(requests, ip)[..|TimesOf(init, ip)|] == TimesOf(init, ip);
      } else {
        assert TimesOf(requests, ip) == TimesOf(init, ip);
      }
    }
  }

  lemma LastOfLonger(times: seq<int>, now: int, max: int, window: int)
    ensures LastAdmitted(times + [now], max, window) <==> Touch(EntryAfter(times, max, window), now, max, window).1
  {
    assert (times + [now])[..|times|] == times;
  }

  lemma AnswersAreIndependent(requests: seq<Request>, r: Request, max: int, window: int)
    ensures TimesOf(requests + [r], r.ip) == TimesOf(requests, r.ip) + [r.now]
    ensures Touch(Lookup(LimitsAfter(requests, max, window), r.ip), r.now, max, window).1 <==>
            LastAdmitted(TimesOf(requests, r.ip) + [r.now], max, window)
  {
    AddressesAreIndependent(requests, r.ip, max, window);
    LastOfLonger(TimesOf(requests, r.ip), r.now, max, window);
    assert (requests + [r])[..|requests|] == requests;
  }

  predicate ClockOrdered(requests: seq<Request>) {
    forall i, j :: 0 <= i < j < |requests| ==> requests[i].now <= requests[j].now
  }

  lemma {:induction false} TimesStayOrdered(requests: seq<Request>, ip: string)
    requires ClockOrdered(requests)
    ensures Ordered(TimesOf(requests, ip))
    ensures requests != [] ==> forall t :: t in TimesOf(requests, ip) ==> t <= requests[|requests| - 1].now
  {
    if requests != [] {
      TimesStayOrdered(requests[..|requests| - 1], ip);
      var before := TimesOf(requests[..|requests| - 1], ip);
      assert forall i :: 0 <= i < |before| ==> before[i] in before;
    }
  }

  /** Whether the shared limiter lets the last request through. */
  predicate LastAnswered(requests: seq<Request>, max: int, window: int)
    requires requests != []
  {
    var r := requests[|requests| - 1];
    Touch(Lookup(LimitsAfter(requests[..|requests| - 1], max, window), r.ip), r.now, max, window).1
  }

  /** How many requests of an address the shared limiter lets through in a run. */
  function AdmittedTo(requests: seq<Request>, ip: string, max: int, window: int): nat {
    if requests == [] then 0
    else
      AdmittedTo(requests[..|requests| - 1], ip, max, window) +
      Is(requests[|requests| - 1].ip == ip && LastAnswered(requests, max, window))
  }

  /** What an address is granted in a mixed run is what a limiter of its own would grant it. */
  lemma {:induction false} AdmittedToIsOwn(requests: seq<Request>, ip: string, max: int, window: int)
    ensures AdmittedTo(requests, ip, max, window) == Admitted(TimesOf(requests, ip), max, window)
  {
    if requests != [] {
      var init, r := requests[..|requests| - 1], requests[|requests| - 1];
      AdmittedToIsOwn(init, ip, max, window);
      if r.ip == ip {
        AnswersAreIndependent(init, r, max, window);
        assert TimesOf(requests, ip)[..|TimesOf(init, ip)|] == TimesOf(init, ip);
      } else {
        assert TimesOf(requests, ip) == TimesOf(init, ip);
      }
    }
  }

  /** What the shared limiter answers a request, with the headers that go with the answer. */
  function Answer(limits: map<string, Entry>, r: Request, max: int, window: int): Decision {
    var (e, ok) := Touch(Lookup(limits, r.ip), r.now, max, window);
    Decision(ok, if ok then max - e.count else 0, e.resetTime)
  }

  /** The answer to a request after others, from the times of the address's own requests alone: let through while fewer
      than the limit came before in the window, with the rest of the limit and the end of the window. */
  predicate RightAnswer(requests: seq<Request>, r: Request, max: int, window: int, d: Decision) {
    var own := TimesOf(requests, r.ip) + [r.now];
    var f := Opener(own, window);
    var earlier, end := |own| - 1 - f, own[f] + window;
    d == if earlier < max then Decision(true, max - earlier - 1, end) else Decision(false, 0, end)
  }

  /** In every mixed run the shared limiter gives that answer. */
  lemma AnswerInEveryRun(requests: seq<Request>, r: Request, max: int, window: int)
    ensures RightAnswer(requests, r, max, window, Answer(LimitsAfter(requests, max, window), r, max, window))
  {
    var own := TimesOf(requests, r.ip) + [r.now];
    AddressesAreIndependent(requests, r.ip, max, window);
    LastAdmittedIff(own, max, window);
    assert own[..|own| - 1] == TimesOf(requests, r.ip);
  }

  lemma RunGoesOn(requests: seq<Request>, r: Request, max: int, window: int)
    ensures var before := LimitsAfter(requests, max, window);
      LimitsAfter(requests + [r], max, window) == before[r.ip := Touch(Lookup(before, r.ip), r.now, max, window).0]
  {
    assert (requests + [r])[..|requests|] == requests;
  }

  lemma {:induction false} OwnTimesGrow(requests: seq<Request>, ip: string, lo: nat)
    requires lo <= |requests|
    ensures TimesOf(requests[..lo], ip) <= TimesOf(requests, ip)
    decreases |requests|
  {
    if lo == |requests| {
      assert requests[..lo] == requests;
    } else {
      assert requests[..|requests| - 1][..lo] == requests[..lo];
      OwnTimesGrow(requests[..|requests| - 1], ip, lo);
    }
  }

  /** How the requests numbered up to `n` of a run, and the next one, show in the address's own times. */
  lemma NextOwnTime(requests: seq<Request>, ip: string, n: nat)
    requires n < |requests|
    ensures var times, k, r := TimesOf(requests, ip), |TimesOf(requests[..n], ip)|, requests[n];
      && k + Is(r.ip == ip) == |TimesOf(requests[..n + 1], ip)| <= |times|
      && times[..k] == TimesOf(requests[..n], ip)
      && (r.ip == ip ==> times[k] == r.now && times[..k + 1] == TimesOf(requests[..n], ip) + [r.now])
  {
    OwnTimesGrow(requests, ip, n);
    OwnTimesGrow(requests, ip, n + 1);
    assert requests[..n + 1][..n] == requests[..n];
  }

  /** The own requests of a stretch lie between its ends in time. */
  lemma {:induction false} OwnTimesWithin(requests: seq<Request>, ip: string, lo: nat, hi: nat)
    requires ClockOrdered(requests) && lo < hi <= |requests|
    ensures var times, from, to := TimesOf(requests, ip), |TimesOf(requests[..lo], ip)|, |TimesOf(requests[..hi], ip)|;
      && from <= to <= |times|
      && forall i :: from <= i < to ==> requests[lo].now <= times[i] <= requests[hi - 1].now
    decreases hi
  {
    NextOwnTime(requests, ip, hi - 1);
    if lo < hi - 1 {
      OwnTimesWithin(requests, ip, lo, hi - 1);
    }
  }

  /** The bound for the whole limiter: in every run with requests of any addresses, any requests within one window
      length hold at most `2 * max - 1` that one address is granted. */
  lemma EveryAddressIsBounded(requests: seq<Request>, ip: string, lo: nat, hi: nat, max: int, window: int)
    requires ClockOrdered(requests) && lo < hi <= |requests| && requests[hi - 1].now <= requests[lo].now + window
    ensures AdmittedTo(requests[..hi], ip, max, window) - AdmittedTo(requests[..lo], ip, max, window) <=
            Max(2 * max - 1, 0)
  {
    var times, from, to := TimesOf(requests, ip), |TimesOf(requests[..lo], ip)|, |TimesOf(requests[..hi], ip)|;
    AdmittedToIsOwn(requests[..lo], ip, max, window);
    AdmittedToIsOwn(requests[..hi], ip, max, window);
    OwnTimesGrow(requests, ip, lo);
    OwnTimesGrow(requests, ip, hi);
    OwnTimesWithin(requests, ip, lo, hi);
    TimesStayOrdered(requests, ip);
    assert times[..from] == TimesOf(requests[..lo], ip) && times[..to] == TimesOf(requests[..hi], ip);
    if from < to {
      AtMostTwiceMaxLessOne(times, from, to, max, window);
    }
  }

  /** "Please try again after": once refused, an address is refused up to the reset time it was told, and let through
      after it unless the limit is zero. */
  lemma {:induction false} RetryAfterIsExact(e: Entry, times: seq<int>, now: int, max: int, window: int)
    requires e.count >= max && e.count >= 0 && window >= 0
    requires forall i :: 0 <= i < |times| ==> times[i] <= e.resetTime
    ensures EntryFrom(e, times, max, window) == e
    ensures now <= e.resetTime ==> !Touch(Some(e), now, max, window).1
    ensures now > e.resetTime ==> (Touch(Some(e), now, max, window).1 <==> max >= 1)
  {
    if times != [] {
      RetryAfterIsExact(e, times[..|times| - 1], now, max, window);
    }
  }

  /** The entry after further requests. */
  function EntryFrom(e: Entry, times: seq<int>, max: int, window: int): Entry {
    if times == [] then e
    else Touch(Some(EntryFrom(e, times[..|times| - 1], max, window)), times[|times| - 1], max, window).0
  }

  /** The map of entries that all guest routes share. */
  class IpRateLimits {
    var limits: map<string, Entry>

    constructor ()
      ensures limits == map[]
    {
      limits := map[];
    }

    /** IPRateLimitMiddleware on one request; finding or creating the entry is one step with the rest. */
    method Handle(ip: string, now: int, maxRequests: int, window: int) returns (d: Decision)
      modifies this
      ensures limits == old(limits)[ip := Touch(Lookup(old(limits), ip), now, maxRequests, window).0]
      ensures d == Answer(old(limits), Request(ip, now), maxRequests, window)
      ensures forall requests :: old(limits) == LimitsAfter(requests, maxRequests, window) ==>
        && limits == LimitsAfter(requests + [Request(ip, now)], maxRequests, window)
        && RightAnswer(requests, Request(ip, now), maxRequests, window, d)
      ensures d.admitted ==> 0 <= d.remaining
      ensures window >= 0 ==> now <= d.resetAt
    {
      forall requests | limits == LimitsAfter(requests, maxRequests, window)
        ensures RightAnswer(requests, Request(ip, now), maxRequests, window,
                            Answer(limits, Request(ip, now), maxRequests, window))
        ensures limits[ip := Touch(Lookup(limits, ip), now, maxRequests, window).0] ==
                LimitsAfter(requests + [Request(ip, now)], maxRequests, window)
      {
        AnswerInEveryRun(requests, Request(ip, now), maxRequests, window);
        RunGoesOn(requests, Request(ip, now), maxRequests, window);
      }
      if ip !in limits {
        limits := limits[ip := Entry(0, now + window)];
      }
      if now > limits[ip].resetTime {
        limits := limits[ip := Entry(0, now + window)];
      }
      if limits[ip].count >= maxRequests {
        return Decision(false, 0, limits[ip].resetTime);
      }
      limits := limits[ip := limits[ip].(count := limits[ip].count + 1)];
      d := Decision(true, maxRequests - limits[ip].count, limits[ip].resetTime);
    }
  }
}
