/** The per-user limiter: one stored document of service limits per user, checked and counted on every request, read by
    a separate reporter, with limits that an administrator can change. The update after a request writes the count
    and the time of the request, but not the start of the window. Times are in nanoseconds. */
module UserLimiter {
  import opened Common

  const MINUTE := 60_000_000_000

  const MILLISECOND := 1_000_000

  /** A time as the database keeps it, in whole milliseconds. */
  function Millis(t: int): int { t - t % MILLISECOND }

  datatype Service =
    | CodeCompletion
    | PseudocodeToCode
    | CodeExecution
    | CodeSubmission
    | AIAnalysis
    | GuestCreation
    | AIHint
    | Other(name: string)

  const NAMELESS := Other("")

  datatype ServiceLimit = ServiceLimit(
    service: Service,
    maxRequests: int,
    windowMinutes: int,
    currentCount: int,
    windowStartedAt: int,
    lastRequestAt: int)
  {
    function Window(): int { windowMinutes * MINUTE }

    function WindowEnd(): int { windowStartedAt + Window() }

    predicate Expired(now: int) { now - windowStartedAt > Window() }
  }

  // ---- One entry ----

  /** The entry as a request sees it: with the window restarted if it is over. */
  function Refreshed(l: ServiceLimit, now: int): ServiceLimit {
    if l.Expired(now) then l.(currentCount := 0, windowStartedAt := now) else l
  }

  predicate Allows(l: ServiceLimit, now: int) {
    Refreshed(l, now).currentCount < l.maxRequests
  }

  /** What is stored after a request. */
  function Counted(l: ServiceLimit, now: int): ServiceLimit {
    if Allows(l, now) then l.(currentCount := Refreshed(l, now).currentCount + 1, lastRequestAt := Millis(now))
    else l
  }

  datatype Event =
    | Request(service: Service, now: int)
    | SetLimit(service: Service, limit: int)

  function EntryStep(l: ServiceLimit, e: Event): ServiceLimit {
    match e
    case Request(_, now) => Counted(l, now)
    case SetLimit(_, limit) => if limit < 0 then l else l.(maxRequests := limit)
  }

  predicate Admits(l: ServiceLimit, e: Event) { e.Request? && Allows(l, e.now) }

  /** The entry after the events of its service, and how many of them were requests let through. */
  function EntryAfter(l: ServiceLimit, es: seq<Event>): ServiceLimit {
    if es == [] then l else EntryStep(EntryAfter(l, es[..|es| - 1]), es[|es| - 1])
  }

  function Admitted(l: ServiceLimit, es: seq<Event>): nat {
    if es == [] then 0
    else Admitted(l, es[..|es| - 1]) + if Admits(EntryAfter(l, es[..|es| - 1]), es[|es| - 1]) then 1 else 0
  }

  predicate RequestsOnly(es: seq<Event>) { forall i :: 0 <= i < |es| ==> es[i].Request? }

  predicate RequestsBy(es: seq<Event>, t: int) { forall i :: 0 <= i < |es| && es[i].Request? ==> es[i].now <= t }

  predicate RequestsSince(es: seq<Event>, t: int) { forall i :: 0 <= i < |es| && es[i].Request? ==> es[i].now > t }

  lemma {:induction false} WindowStays(l: ServiceLimit, es: seq<Event>)
    ensures var m := EntryAfter(l, es);
      m.service == l.service && m.windowMinutes == l.windowMinutes && m.windowStartedAt == l.windowStartedAt
    ensures RequestsOnly(es) ==> EntryAfter(l, es).maxRequests == l.maxRequests
  {
    if es != [] {
      WindowStays(l, es[..|es| - 1]);
    }
  }

  /** Up to the end of the recorded window, and with any changes of the limit in between, the stored count has grown by
      exactly the requests let through, and never past the largest limit that was in force. */
  lemma {:induction false} CountIsConserved(l: ServiceLimit, es: seq<Event>, largest: int)
    requires RequestsBy(es, l.WindowEnd())
    requires l.maxRequests <= largest
    requires forall i :: 0 <= i < |es| && es[i].SetLimit? ==> es[i].limit <= largest
    ensures EntryAfter(l, es).currentCount == l.currentCount + Admitted(l, es)
    ensures EntryAfter(l, es).currentCount <= Max(l.currentCount, largest)
    ensures EntryAfter(l, es).maxRequests <= largest
  {
    if es != [] {
      CountIsConserved(l, es[..|es| - 1], largest);
      WindowStays(l, es[..|es| - 1]);
    }
  }

  /** Whenever a request is let through, at any time, the count it leaves is at least 1 and within the limit in force;
      a refused one changes nothing. */
  lemma {:induction false} AdmissionLeavesCountInRange(l: ServiceLimit, es: seq<Event>, e: Event)
    requires l.currentCount >= 0 && e.Request?
    ensures var before := EntryAfter(l, es);
      if Admits(before, e) then 1 <= EntryStep(before, e).currentCount <= before.maxRequests
      else EntryStep(before, e) == before
    ensures EntryAfter(l, es).currentCount >= 0
  {
    if es != [] {
      AdmissionLeavesCountInRange(l, es[..|es| - 1], e);
    }
  }

  // ---- The reporter ----

  function Remaining(l: ServiceLimit, now: int): int {
    if now < l.WindowEnd() then l.maxRequests - l.currentCount else l.maxRequests
  }

  /** Of the requests made by the end of the recorded window, the next one is let through exactly while fewer have
      been made than the limit had left. */
  lemma {:induction false} LeftIsExact(l: ServiceLimit, es: seq<Event>)
    requires RequestsOnly(es) && RequestsBy(es, l.WindowEnd())
    ensures Admitted(l, es) == Min(|es|, Max(0, l.maxRequests - l.currentCount))
  {
    if es != [] {
      LeftIsExact(l, es[..|es| - 1]);
      WindowStays(l, es[..|es| - 1]);
      CountIsConserved(l, es[..|es| - 1], l.maxRequests);
    }
  }

  /** A remaining use reported before the recorded window ends is exact: that many further requests by the end of the
      window are let through, and every later one in it is refused. */
  lemma ReportIsExact(l: ServiceLimit, at: int, es: seq<Event>, e: Event)
    requires at < l.WindowEnd()
    requires RequestsOnly(es) && RequestsBy(es, l.WindowEnd())
    requires e.Request? && e.now <= l.WindowEnd()
    ensures Admits(EntryAfter(l, es), e) <==> |es| < Max(0, Remaining(l, at))
  {
    LeftIsExact(l, es);
    WindowStays(l, es);
    CountIsConserved(l, es, l.maxRequests);
  }

  /** In every reachable state the reporter and the limiter agree about the next request, except at the very instant
      the window ends when the limit is used up: the reporter then counts the window as over, the limiter does not. */
  lemma ReporterAgreesIff(l: ServiceLimit, es: seq<Event>, now: int)
    requires l.currentCount >= 0
    ensures var m := EntryAfter(l, es);
      (Remaining(m, now) > 0 <==> Allows(m, now)) <==>
      !(now == l.WindowEnd() && 0 < m.maxRequests <= m.currentCount)
  {
    WindowStays(l, es);
    AdmissionLeavesCountInRange(l, es, Request(l.service, now));
  }

  // ---- The answer to a request ----

  datatype Answer =
    | Allowed(remaining: int, resetAt: int, limit: int)
    | Refused(resetAt: int, limit: int)
    | UnknownService

  function AnswerFor(l: ServiceLimit, now: int): Answer {
    if Allows(l, now) then
      Allowed(l.maxRequests - Refreshed(l, now).currentCount - 1, Refreshed(l, now).WindowEnd(), l.maxRequests)
    else Refused(Refreshed(l, now).WindowEnd(), l.maxRequests)
  }

  /** The remaining use sent with an admitted request is what the reporter says at that moment, exactly while the
      recorded window lasts. */
  lemma HeaderAgreesIff(l: ServiceLimit, es: seq<Event>, now: int)
    requires l.currentCount >= 0 && Allows(EntryAfter(l, es), now)
    ensures var m := EntryAfter(l, es);
      && AnswerFor(m, now).Allowed?
      && (AnswerFor(m, now).remaining == Remaining(Counted(m, now), now) <==> now < l.WindowEnd())
  {
    WindowStays(l, es);
    AdmissionLeavesCountInRange(l, es, Request(l.service, now));
  }

  /** "Please try again after": a request refused with a reset time is followed only by refusals up to that time, and
      the next request after it is let through, unless the limit is zero. */
  lemma {:induction false} RetryAfterIsExact(l: ServiceLimit, now: int, es: seq<Event>, e: Event)
    requires l.currentCount >= 0 && l.windowMinutes >= 0 && !Allows(l, now)
    requires RequestsOnly(es) && RequestsBy(es, AnswerFor(l, now).resetAt) && e.Request?
    ensures Admitted(l, es) == 0 && EntryAfter(l, es) == l
    ensures e.now <= AnswerFor(l, now).resetAt ==> !Admits(EntryAfter(l, es), e)
    ensures e.now > AnswerFor(l, now).resetAt ==> (Admits(EntryAfter(l, es), e) <==> l.maxRequests >= 1)
  {
    if es != [] {
      RetryAfterIsExact(l, now, es[..|es| - 1], es[|es| - 1]);
    }
  }

  // ---- After the recorded window ----

  /** The limit in force after changes of it. */
  function LimitAfter(max: int, es: seq<Event>): int {
    if es == [] then max
    else
      match es[|es| - 1]
      case Request(_, _) => LimitAfter(max, es[..|es| - 1])
      case SetLimit(_, limit) => if limit < 0 then LimitAfter(max, es[..|es| - 1]) else limit
  }

  /** How many requests come while the limit in force is positive. */
  function WhileOpen(max: int, es: seq<Event>): nat {
    if es == [] then 0
    else
      var init := es[..|es| - 1];
      WhileOpen(max, init) + Is(es[|es| - 1].Request? && LimitAfter(max, init) >= 1)
  }

  lemma {:induction false} LimitIsInForce(l: ServiceLimit, es: seq<Event>)
    ensures EntryAfter(l, es).maxRequests == LimitAfter(l.maxRequests, es)
  {
    if es != [] {
      LimitIsInForce(l, es[..|es| - 1]);
    }
  }

  /** When a request is let through, after any requests and changes of the limit: up to the end of the recorded window,
      while fewer than the limit then in force are counted; after it, whenever that limit is positive. */
  lemma AdmittedIff(l: ServiceLimit, es: seq<Event>, e: Event)
    requires e.Request?
    ensures e.now <= l.WindowEnd() && RequestsBy(es, l.WindowEnd()) ==>
              (Admits(EntryAfter(l, es), e) <==> l.currentCount + Admitted(l, es) < LimitAfter(l.maxRequests, es))
    ensures e.now > l.WindowEnd() ==> (Admits(EntryAfter(l, es), e) <==> LimitAfter(l.maxRequests, es) >= 1)
  {
    WindowStays(l, es);
    LimitIsInForce(l, es);
    if RequestsBy(es, l.WindowEnd()) {
      CountIsGrowth(l, es);
    }
  }

  lemma {:induction false} CountIsGrowth(l: ServiceLimit, es: seq<Event>)
    requires RequestsBy(es, l.WindowEnd())
    ensures EntryAfter(l, es).currentCount == l.currentCount + Admitted(l, es)
  {
    if es != [] {
      CountIsGrowth(l, es[..|es| - 1]);
      WindowStays(l, es[..|es| - 1]);
    }
  }

  /** Once the recorded window is over the limit no longer limits: with any changes of the limit in between, every
      request is let through that comes while it is positive, however many there are, because each one sees the old
      start again. */
  lemma {:induction false} NothingIsLimitedAfterTheWindow(l: ServiceLimit, es: seq<Event>)
    requires RequestsSince(es, l.WindowEnd())
    ensures Admitted(l, es) == WhileOpen(l.maxRequests, es)
    ensures RequestsOnly(es) ==> Admitted(l, es) == if l.maxRequests >= 1 then |es| else 0
  {
    if es != [] {
      NothingIsLimitedAfterTheWindow(l, es[..|es| - 1]);
      AdmittedIff(l, es[..|es| - 1], Request(l.service, l.WindowEnd() + 1));
      WindowStays(l, es[..|es| - 1]);
      if es[|es| - 1].Request? {
        AdmittedIff(l, es[..|es| - 1], es[|es| - 1]);
      }
    }
  }

  /** Exactly what any run is granted: of the requests in the recorded window as many as the limit has left, and of
      those after it, with any changes of the limit in between, all that come while it is positive. */
  lemma {:induction false} GrantedExactly(l: ServiceLimit, within: seq<Event>, after: seq<Event>)
    requires RequestsBy(within, l.WindowEnd()) && RequestsSince(after, l.WindowEnd())
    ensures Admitted(l, within + after) ==
            Admitted(l, within) + WhileOpen(LimitAfter(l.maxRequests, within), after)
    ensures LimitAfter(l.maxRequests, within + after) == LimitAfter(LimitAfter(l.maxRequests, within), after)
    ensures RequestsOnly(within) ==>
              Admitted(l, within) == Min(|within|, Max(0, l.maxRequests - l.currentCount)) &&
              LimitAfter(l.maxRequests, within) == l.maxRequests
  {
    var es := within + after;
    if RequestsOnly(within) {
      LeftIsExact(l, within);
      LimitIsInForce(l, within);
      WindowStays(l, within);
    }
    if after == [] {
      assert es == within;
    } else {
      var init := after[..|after| - 1];
      assert es[..|es| - 1] == within + init;
      GrantedExactly(l, within, init);
      if after[|after| - 1].Request? {
        AdmittedIff(l, within + init, after[|after| - 1]);
      }
    }
  }

  // ---- The documented reset ----

  /** The limiter as documented: the same check, but a window that restarts is stored. */
  function Reset(l: ServiceLimit, now: int): ServiceLimit {
    if Allows(l, now) then
      Refreshed(l, now).(currentCount := Refreshed(l, now).currentCount + 1, lastRequestAt := Millis(now))
    else l
  }

  function ResettingAfter(l: ServiceLimit, times: seq<int>): ServiceLimit {
    if times == [] then l else Reset(ResettingAfter(l, times[..|times| - 1]), times[|times| - 1])
  }

  function StoredAfter(l: ServiceLimit, times: seq<int>): ServiceLimit {
    if times == [] then l else Counted(StoredAfter(l, times[..|times| - 1]), times[|times| - 1])
  }

  predicate AllBy(times: seq<int>, t: int) { forall i :: 0 <= i < |times| ==> times[i] <= t }

  /** On every run of requests up to the horizon both give the same answer to every further request. */
  ghost predicate AgreesWithReset(l: ServiceLimit, horizon: int) {
    forall times, now :: Ordered(times + [now]) && AllBy(times + [now], horizon) ==>
      (Allows(StoredAfter(l, times), now) <==> Allows(ResettingAfter(l, times), now))
  }

  lemma {:induction false} StoredKeepsWindow(l: ServiceLimit, times: seq<int>)
    requires l.currentCount >= 0
    ensures var m := StoredAfter(l, times);
      && m.maxRequests == l.maxRequests && m.windowMinutes == l.windowMinutes
      && m.windowStartedAt == l.windowStartedAt && m.currentCount >= 0
  {
    if times != [] {
      StoredKeepsWindow(l, times[..|times| - 1]);
    }
  }

  lemma {:induction false} SameWithinTheWindow(l: ServiceLimit, times: seq<int>)
    requires l.currentCount >= 0 && AllBy(times, l.WindowEnd())
    ensures StoredAfter(l, times) == ResettingAfter(l, times)
  {
    if times != [] {
      SameWithinTheWindow(l, times[..|times| - 1]);
      StoredKeepsWindow(l, times[..|times| - 1]);
    }
  }

  lemma {:induction false} ZeroLimitRefusesAll(l: ServiceLimit, times: seq<int>)
    requires l.currentCount >= 0 && l.maxRequests <= 0
    ensures StoredAfter(l, times) == l && ResettingAfter(l, times) == l
  {
    if times != [] {
      ZeroLimitRefusesAll(l, times[..|times| - 1]);
    }
  }

  lemma OrderedPrefix(times: seq<int>, now: int)
    requires Ordered(times + [now])
    ensures Ordered(times) && AllBy(times, now)
  {
    var all := times + [now];
    assert forall i :: 0 <= i < |times| ==> all[i] == times[i];
    assert all[|times|] == now;
  }

  /** With a window of negative length every window is over as soon as it starts. */
  lemma NegativeWindowStep(m: ServiceLimit, r: ServiceLimit, t: int, now: int)
    requires m.windowMinutes == r.windowMinutes < 0 && m.maxRequests == r.maxRequests && t <= now
    requires m == r || (m.Expired(t) && r.Expired(t))
    ensures var m', r' := Counted(m, t), Reset(r, t);
      m' == r' || (m'.Expired(now) && r'.Expired(now))
  {
    assert r.Window() < 0;
  }

  lemma {:induction false} NegativeWindowAgrees(l: ServiceLimit, times: seq<int>, now: int)
    requires l.currentCount >= 0 && l.windowMinutes < 0 && Ordered(times + [now])
    ensures var m, r := StoredAfter(l, times), ResettingAfter(l, times);
      && r.maxRequests == l.maxRequests && r.windowMinutes == l.windowMinutes
      && (m == r || (m.Expired(now) && r.Expired(now)))
  {
    if times != [] {
      var init, last := times[..|times| - 1], times[|times| - 1];
      assert init + [last] == times;
      OrderedPrefix(times, now);
      NegativeWindowAgrees(l, init, last);
      StoredKeepsWindow(l, init);
      NegativeWindowStep(StoredAfter(l, init), ResettingAfter(l, init), last, now);
    }
  }

  /** `n` requests at one instant after the window: the documented limiter counts them from the restart. */
  lemma {:induction false} ResettingCounts(l: ServiceLimit, t: int, n: nat)
    requires l.currentCount >= 0 && l.windowMinutes >= 0 && t > l.WindowEnd() && 0 < n <= l.maxRequests
    ensures var r := ResettingAfter(l, seq(n, _ => t));
      r == l.(currentCount := n, windowStartedAt := t, lastRequestAt := Millis(t))
  {
    var times := seq(n, _ => t);
    assert times[..n - 1] == seq(n - 1, _ => t);
    if n > 1 {
      ResettingCounts(l, t, n - 1);
    }
  }

  /** "Reset hourly" is met on all runs up to a time if and only if the recorded window lasts until then, or the limit
      admits nothing, or the window has a negative length. */
  lemma ResetsAsDocumentedIff(l: ServiceLimit, horizon: int)
    requires l.currentCount >= 0
    ensures AgreesWithReset(l, horizon) <==> horizon <= l.WindowEnd() || l.maxRequests <= 0 || l.windowMinutes < 0
  {
    if horizon <= l.WindowEnd() || l.maxRequests <= 0 || l.windowMinutes < 0 {
      forall times, now | Ordered(times + [now]) && AllBy(times + [now], horizon)
        ensures Allows(StoredAfter(l, times), now) <==> Allows(ResettingAfter(l, times), now)
      {
        StoredKeepsWindow(l, times);
        if horizon <= l.WindowEnd() {
          assert forall i :: 0 <= i < |times| ==> times[i] == (times + [now])[i];
          SameWithinTheWindow(l, times);
        } else if l.maxRequests <= 0 {
          ZeroLimitRefusesAll(l, times);
        } else {
          NegativeWindowAgrees(l, times, now);
        }
      }
    } else {
      var times := seq(l.maxRequests, _ => horizon);
      ResettingCounts(l, horizon, l.maxRequests);
      StoredKeepsWindow(l, times);
      assert Ordered(times + [horizon]) && AllBy(times + [horizon], horizon);
      assert Allows(StoredAfter(l, times), horizon) && !Allows(ResettingAfter(l, times), horizon);
    }
  }

  // ---- The document ----

  function Find(services: seq<ServiceLimit>, service: Service): (i: nat)
    ensures i <= |services|
    ensures i < |services| ==> services[i].service == service
    ensures forall j :: 0 <= j < i ==> services[j].service != service
  {
    FirstWhere((l: ServiceLimit) => l.service == service, services)
  }

  function Default(service: Service, maxRequests: int, now: int): ServiceLimit {
    ServiceLimit(service, maxRequests, 60, 0, now, now)
  }

  function DefaultRateLimits(isAdmin: bool, now: int): seq<ServiceLimit> {
    if isAdmin then
      [Default(CodeCompletion, 1000, now), Default(PseudocodeToCode, 100, now), Default(CodeExecution, 200, now),
       Default(CodeSubmission, 200, now), Default(AIAnalysis, 100, now), Default(AIHint, 50, now)]
    else
      [Default(CodeCompletion, 100, now), Default(PseudocodeToCode, 20, now), Default(CodeExecution, 50, now),
       Default(CodeSubmission, 50, now), Default(AIAnalysis, 20, now), Default(AIHint, 10, now)]
  }

  /** The start of a window that was never written: the zero value of a Go time. */
  const ZERO_TIME := -62_135_596_800_000_000_000

  /** A request for a service that the document lacks is judged by the default limit, and the update then writes the
      two fields of a new element that has no other. */
  function CheckMissing(services: seq<ServiceLimit>, isAdmin: bool, service: Service, now: int)
    : (seq<ServiceLimit>, Answer)
  {
    var defaults := DefaultRateLimits(isAdmin, now);
    var j := Find(defaults, service);
    if j == |defaults| then (services, UnknownService)
    else if !Allows(defaults[j], now) then (services, AnswerFor(defaults[j], now))
    else (services + [ServiceLimit(NAMELESS, 0, 0, 1, ZERO_TIME, Millis(now))], AnswerFor(defaults[j], now))
  }

  function Check(services: seq<ServiceLimit>, isAdmin: bool, service: Service, now: int): (seq<ServiceLimit>, Answer) {
    var i := Find(services, service);
    if i == |services| then CheckMissing(services, isAdmin, service, now)
    else (services[i := Counted(services[i], now)], AnswerFor(services[i], now))
  }

  lemma RefusalChangesNothing(services: seq<ServiceLimit>, i: nat, now: int)
    requires i < |services| && !Allows(services[i], now)
    ensures services[i := Counted(services[i], now)] == services
  {
  }

  function ChangeLimit(services: seq<ServiceLimit>, service: Service, limit: int): seq<ServiceLimit> {
    var i := Find(services, service);
    if limit < 0 || i == |services| then services else services[i := services[i].(maxRequests := limit)]
  }

  function Step(services: seq<ServiceLimit>, isAdmin: bool, e: Event): seq<ServiceLimit> {
    match e
    case Request(service, now) => Check(services, isAdmin, service, now).0
    case SetLimit(service, limit) => ChangeLimit(services, service, limit)
  }

  function DocumentAfter(services: seq<ServiceLimit>, isAdmin: bool, es: seq<Event>): seq<ServiceLimit> {
    if es == [] then services else Step(DocumentAfter(services, isAdmin, es[..|es| - 1]), isAdmin, es[|es| - 1])
  }

  function EventsOf(es: seq<Event>, service: Service): seq<Event> {
    if es == [] then []
    else EventsOf(es[..|es| - 1], service) + if es[|es| - 1].service == service then [es[|es| - 1]] else []
  }

  /** A call changes no entry but that of its own service, and of that only the count, the time and the limit. */
  lemma StepChangesOneEntry(services: seq<ServiceLimit>, isAdmin: bool, e: Event)
    ensures var after := Step(services, isAdmin, e);
      && |services| <= |after| <= |services| + 1
      && forall i :: 0 <= i < |services| ==>
           && (after[i] == services[i] || (i == Find(services, e.service) && after[i] == EntryStep(services[i], e)))
           && after[i].service == services[i].service
  {
  }

  lemma FindStays(before: seq<ServiceLimit>, after: seq<ServiceLimit>, service: Service)
    requires Find(before, service) < |before| <= |after|
    requires forall i :: 0 <= i < |before| ==> after[i].service == before[i].service
    ensures Find(after, service) == Find(before, service)
  {
  }

  lemma StepOnEntry(services: seq<ServiceLimit>, isAdmin: bool, e: Event, service: Service)
    requires Find(services, service) < |services|
    ensures var i, after := Find(services, service), Step(services, isAdmin, e);
      && Find(after, service) == i < |after|
      && after[i] == if e.service == service then EntryStep(services[i], e) else services[i]
  {
    StepChangesOneEntry(services, isAdmin, e);
    FindStays(services, Step(services, isAdmin, e), service);
  }

  /** In every run over the whole document, with requests for any services and changes of any limits, the entry of a
      service that is present is what its own events alone make of it. All the laws of one entry hold for it. */
  lemma {:induction false} ServicesAreIndependent(
      services: seq<ServiceLimit>, isAdmin: bool, es: seq<Event>, service: Service)
    requires Find(services, service) < |services|
    ensures var i, after := Find(services, service), DocumentAfter(services, isAdmin, es);
      && Find(after, service) == i < |after|
      && after[i] == EntryAfter(services[i], EventsOf(es, service))
  {
    if es != [] {
      var init, e := es[..|es| - 1], es[|es| - 1];
      ServicesAreIndependent(services, isAdmin, init, service);
      StepOnEntry(DocumentAfter(services, isAdmin, init), isAdmin, e, service);
      var own := EventsOf(init, service);
      if e.service == service {
        assert EventsOf(es, service)[..|own|] == own;
      } else {
        assert EventsOf(es, service) == own;
      }
    }
  }

  const DEFAULT_SERVICES := {CodeCompletion, PseudocodeToCode, CodeExecution, CodeSubmission, AIAnalysis, AIHint}

  lemma DefaultsAllow(isAdmin: bool, service: Service, now: int)
    requires service in DEFAULT_SERVICES
    ensures var defaults := DefaultRateLimits(isAdmin, now);
      var j := Find(defaults, service);
      j < |defaults| && Allows(defaults[j], now)
  {
    var defaults := DefaultRateLimits(isAdmin, now);
    assert [defaults[0].service, defaults[1].service, defaults[2].service] ==
           [CodeCompletion, PseudocodeToCode, CodeExecution];
    assert [defaults[3].service, defaults[4].service, defaults[5].service] == [CodeSubmission, AIAnalysis, AIHint];
  }

  lemma DefaultsStartAtZero(isAdmin: bool, service: Service, now: int)
    ensures var defaults := DefaultRateLimits(isAdmin, now);
      var j := Find(defaults, service);
      j < |defaults| ==> Refreshed(defaults[j], now).currentCount == 0
  {
  }

  predicate Lacks(services: seq<ServiceLimit>, service: Service) {
    forall i :: 0 <= i < |services| ==> services[i].service != service
  }

  lemma MissingIffLacks(services: seq<ServiceLimit>, service: Service)
    ensures Find(services, service) == |services| <==> Lacks(services, service)
  {
  }

  /** Whatever an event appends has no name. */
  lemma LackingStays(services: seq<ServiceLimit>, isAdmin: bool, e: Event, service: Service)
    requires Lacks(services, service) && service != NAMELESS
    ensures Lacks(Step(services, isAdmin, e), service)
  {
    StepChangesOneEntry(services, isAdmin, e);
  }

  lemma MissingIsAllowed(services: seq<ServiceLimit>, isAdmin: bool, service: Service, now: int)
    requires Find(services, service) == |services| && service in DEFAULT_SERVICES
    ensures Check(services, isAdmin, service, now).1.Allowed?
  {
    DefaultsAllow(isAdmin, service, now);
  }

  /** A default service that the document lacks is never limited, in any run with requests for any services and changes
      of any limits: it stays missing, and its next request is let through. */
  lemma {:induction false} MissingServiceIsNeverLimited(
      services: seq<ServiceLimit>, isAdmin: bool, es: seq<Event>, service: Service, now: int)
    requires Find(services, service) == |services| && service in DEFAULT_SERVICES
    ensures var after := DocumentAfter(services, isAdmin, es);
      && Find(after, service) == |after|
      && Check(after, isAdmin, service, now).1.Allowed?
  {
    if es != [] {
      var init := es[..|es| - 1];
      MissingServiceIsNeverLimited(services, isAdmin, init, service, now);
      MissingIffLacks(DocumentAfter(services, isAdmin, init), service);
      LackingStays(DocumentAfter(services, isAdmin, init), isAdmin, es[|es| - 1], service);
      MissingIffLacks(DocumentAfter(services, isAdmin, es), service);
    }
    MissingIsAllowed(DocumentAfter(services, isAdmin, es), isAdmin, service, now);
  }

  /** Some run of requests ends with one for this service that is refused. */
  ghost predicate CanBeLimited(services: seq<ServiceLimit>, isAdmin: bool, service: Service) {
    exists es, now ::
      RequestsOnly(es) && Check(DocumentAfter(services, isAdmin, es), isAdmin, service, now).1.Refused?
  }

  function Repeat(e: Event, n: nat): seq<Event> { seq(n, _ => e) }

  lemma {:induction false} RepeatedAreOwn(e: Event, n: nat)
    ensures EventsOf(Repeat(e, n), e.service) == Repeat(e, n)
  {
    if n > 0 {
      assert Repeat(e, n)[..n - 1] == Repeat(e, n - 1);
      RepeatedAreOwn(e, n - 1);
    }
  }

  /** As many requests as the limit has left, at the last moment of the recorded window, use it up. */
  lemma PresentServiceCanBeLimited(services: seq<ServiceLimit>, isAdmin: bool, service: Service)
    requires Find(services, service) < |services|
    ensures CanBeLimited(services, isAdmin, service)
  {
    var l := services[Find(services, service)];
    var end := l.WindowEnd();
    var es := Repeat(Request(service, end), Max(0, l.maxRequests - l.currentCount));
    RepeatedAreOwn(Request(service, end), |es|);
    ServicesAreIndependent(services, isAdmin, es, service);
    LeftIsExact(l, es);
    CountIsConserved(l, es, l.maxRequests);
    WindowStays(l, es);
    assert Check(DocumentAfter(services, isAdmin, es), isAdmin, service, end).1.Refused?;
  }

  /** A default service is limited, by some run of requests, if and only if the document has it. */
  lemma DefaultServiceIsLimitedIff(services: seq<ServiceLimit>, isAdmin: bool, service: Service)
    requires service in DEFAULT_SERVICES
    ensures CanBeLimited(services, isAdmin, service) <==> Find(services, service) < |services|
  {
    if Find(services, service) < |services| {
      PresentServiceCanBeLimited(services, isAdmin, service);
    } else if es, now :|
      RequestsOnly(es) && Check(DocumentAfter(services, isAdmin, es), isAdmin, service, now).1.Refused?
    {
      MissingServiceIsNeverLimited(services, isAdmin, es, service, now);
    }
  }

  // ---- Times in the database ----

  /** An entry as it is stored. */
  function Stored(l: ServiceLimit): ServiceLimit {
    l.(windowStartedAt := Millis(l.windowStartedAt), lastRequestAt := Millis(l.lastRequestAt))
  }

  function StoredAll(services: seq<ServiceLimit>): seq<ServiceLimit> {
    seq(|services|, i requires 0 <= i < |services| => Stored(services[i]))
  }

  lemma MillisIsStable(t: int)
    ensures Millis(Millis(t)) == Millis(t) && t - MILLISECOND < Millis(t) <= t
  {
  }

  /** A document that came from the database goes back unchanged but for what an event writes. */
  lemma StepKeepsStored(services: seq<ServiceLimit>, isAdmin: bool, e: Event)
    requires StoredAll(services) == services
    ensures StoredAll(Step(services, isAdmin, e)) == Step(services, isAdmin, e)
  {
    var after := Step(services, isAdmin, e);
    forall i | 0 <= i < |after|
      ensures Stored(after[i]) == after[i]
    {
      if i < |services| {
        assert Stored(services[i]) == StoredAll(services)[i] == services[i];
      }
      if e.Request? {
        MillisIsStable(e.now);
      }
    }
  }

  lemma StoredTwice(services: seq<ServiceLimit>)
    ensures StoredAll(StoredAll(services)) == StoredAll(services)
  {
    forall i | 0 <= i < |services|
      ensures Stored(Stored(services[i])) == Stored(services[i])
    {
      AnnouncedEndIsStoredIff(services[i]);
    }
  }

  /** The end of the window that the creating request announces is the stored one if and only if the document was
      created at a whole millisecond; otherwise it is later, by less than a millisecond. */
  lemma AnnouncedEndIsStoredIff(l: ServiceLimit)
    ensures Stored(l).WindowEnd() == l.WindowEnd() <==> l.windowStartedAt % MILLISECOND == 0
    ensures l.WindowEnd() - MILLISECOND < Stored(l).WindowEnd() <= l.WindowEnd()
    ensures Stored(Stored(l)) == Stored(l)
  {
    MillisIsStable(l.windowStartedAt);
    MillisIsStable(l.lastRequestAt);
  }

  /** One call of the limiter for a user with a stored document or none: the document stored after it and the answer. */
  function Serve(stored: Option<seq<ServiceLimit>>, isAdmin: bool, service: Service, now: int)
    : (seq<ServiceLimit>, Answer)
  {
    var services := if stored.Some? then stored.value else DefaultRateLimits(isAdmin, now);
    var (after, answer) := Check(services, isAdmin, service, now);
    (StoredAll(after), answer)
  }

  // ---- The collection ----

  /** The update after an admitted request: two fields of the element at the position, which creates one there when the
      document has none. */
  function Write(services: seq<ServiceLimit>, i: nat, count: int, at: int): seq<ServiceLimit>
    requires i <= |services|
  {
    if i < |services| then services[i := services[i].(currentCount := count, lastRequestAt := Millis(at))]
    else services + [ServiceLimit(NAMELESS, 0, 0, count, ZERO_TIME, Millis(at))]
  }

  /** The document after a request that is judged by `l`. */
  function Written(services: seq<ServiceLimit>, i: nat, l: ServiceLimit, now: int): seq<ServiceLimit>
    requires i <= |services|
  {
    if Allows(l, now) then Write(services, i, Refreshed(l, now).currentCount + 1, now) else services
  }

  lemma CheckOfListed(services: seq<ServiceLimit>, isAdmin: bool, service: Service, now: int, i: nat)
    requires i == Find(services, service) < |services|
    ensures Check(services, isAdmin, service, now) ==
            (Written(services, i, services[i], now), AnswerFor(services[i], now))
  {
    if !Allows(services[i], now) {
      RefusalChangesNothing(services, i, now);
    }
  }

  lemma CheckOfMissing(services: seq<ServiceLimit>, isAdmin: bool, service: Service, now: int, l: ServiceLimit)
    requires Find(services, service) == |services|
    requires var defaults := DefaultRateLimits(isAdmin, now);
             Find(defaults, service) < |defaults| && defaults[Find(defaults, service)] == l
    ensures Check(services, isAdmin, service, now) == (Written(services, |services|, l, now), AnswerFor(l, now))
  {
    DefaultsStartAtZero(isAdmin, service, now);
  }

  datatype Stat = Stat(service: Service, remaining: int, resetAt: int, limit: int)

  function StatOf(l: ServiceLimit, now: int): Stat {
    Stat(l.service, Remaining(l, now), l.WindowEnd(), l.maxRequests)
  }

  datatype AdminReply = Updated | InvalidParameters | UserNotFound | ServiceNotFound

  /** The collection rate_limits, one document per user. */
  class RateLimits {
    var documents: map<nat, seq<ServiceLimit>>

    constructor ()
      ensures Valid() && documents == map[]
    {
      documents := map[];
    }

    /** Every document holds times as the database keeps them. */
    ghost predicate Valid()
      reads this
    {
      forall user :: user in documents ==> StoredAll(documents[user]) == documents[user]
    }

    /** The document a call works on: the stored one, or the defaults, whose times it cuts when it stores them. */
    ghost function Document(user: nat, isAdmin: bool, now: int): seq<ServiceLimit>
      reads this
    {
      if user in documents then documents[user] else DefaultRateLimits(isAdmin, now)
    }

    method Position(services: seq<ServiceLimit>, service: Service) returns (i: nat)
      ensures i == Find(services, service)
    {
      i := Search((l: ServiceLimit) => l.service == service, services);
    }

    /** The limit that a request is judged by: the document's, else the default one. */
    method LimitFor(services: seq<ServiceLimit>, isAdmin: bool, service: Service, now: int)
      returns (i: nat, limit: Option<ServiceLimit>)
      ensures i == Find(services, service)
      ensures i < |services| ==> limit == Some(services[i])
      ensures i == |services| ==>
        var defaults := DefaultRateLimits(isAdmin, now);
        var j := Find(defaults, service);
        limit == if j < |defaults| then Some(defaults[j]) else None
    {
      i := Position(services, service);
      if i < |services| {
        return i, Some(services[i]);
      }
      var defaults := DefaultRateLimits(isAdmin, now);
      var j := Position(defaults, service);
      limit := if j < |defaults| then Some(defaults[j]) else None;
    }

    /** The check proper, on a copy of the limit; only two fields of the copy are ever stored. */
    method Judge(stored: ServiceLimit, now: int) returns (admitted: bool, limit: ServiceLimit, answer: Answer)
      ensures admitted == Allows(stored, now) && answer == AnswerFor(stored, now)
      ensures admitted ==>
        Counted(stored, now) ==
          stored.(currentCount := limit.currentCount, lastRequestAt := Millis(limit.lastRequestAt))
      ensures admitted ==> limit.currentCount == Refreshed(stored, now).currentCount + 1 && limit.lastRequestAt == now
    {
      limit := stored;
      var window := limit.windowMinutes * MINUTE;
      if now - limit.windowStartedAt > window {
        limit := limit.(currentCount := 0, windowStartedAt := now);
      }
      if limit.currentCount >= limit.maxRequests {
        return false, limit, Refused(limit.windowStartedAt + window, limit.maxRequests);
      }
      limit := limit.(currentCount := limit.currentCount + 1, lastRequestAt := now);
      answer := Allowed(limit.maxRequests - limit.currentCount, limit.windowStartedAt + window, limit.maxRequests);
      return true, limit, answer;
    }

    method CheckServices(services: seq<ServiceLimit>, isAdmin: bool, service: Service, now: int)
      returns (after: seq<ServiceLimit>, answer: Answer)
      ensures (after, answer) == Check(services, isAdmin, service, now)
    {
      var i, found := LimitFor(services, isAdmin, service, now);
      if found.None? {
        return services, UnknownService;
      }
      var admitted, limit;
      admitted, limit, answer := Judge(found.value, now);
      after := if admitted then Write(services, i, limit.currentCount, limit.lastRequestAt) else services;
      if i < |services| {
        CheckOfListed(services, isAdmin, service, now, i);
      } else {
        CheckOfMissing(services, isAdmin, service, now, found.value);
      }
    }

    /** checkAndUpdateRateLimit. */
    method CheckAndUpdate(user: nat, isAdmin: bool, service: Service, now: int) returns (answer: Answer)
      requires Valid()
      modifies this
      ensures Valid()
      ensures var stored := if user in old(documents) then Some(old(documents)[user]) else None;
        var (after, given) := Serve(stored, isAdmin, service, now);
        documents == old(documents)[user := after] && answer == given
    {
      var services;
      if user in documents {
        services := documents[user];
        StepKeepsStored(services, isAdmin, Request(service, now));
      } else {
        services := DefaultRateLimits(isAdmin, now);
        documents := documents[user := StoredAll(services)];
      }
      services, answer := CheckServices(services, isAdmin, service, now);
      StoredTwice(services);
      documents := documents[user := StoredAll(services)];
    }

    /** GetRateLimitsHandler. */
    method Report(user: nat, isAdmin: bool, now: int) returns (stats: seq<Stat>)
      requires Valid()
      modifies this
      ensures Valid() && documents == old(documents)[user := StoredAll(old(Document(user, isAdmin, now)))]
      ensures var services := old(Document(user, isAdmin, now));
        && |stats| == |services|
        && (forall i :: 0 <= i < |stats| ==>
              var l := services[i];
              var end := l.windowStartedAt + l.windowMinutes * 60_000_000_000;
              && stats[i] == StatOf(l, now)
              && stats[i] ==
                   Stat(l.service, l.maxRequests - if now < end then l.currentCount else 0, end, l.maxRequests))
    {
      var services;
      if user in documents {
        services := documents[user];
      } else {
        services := DefaultRateLimits(isAdmin, now);
        StoredTwice(services);
        documents := documents[user := StoredAll(services)];
      }
      assert documents == old(documents)[user := StoredAll(old(Document(user, isAdmin, now)))];
      stats := [];
      for i := 0 to |services|
        invariant |stats| == i
        invariant forall j :: 0 <= j < i ==> stats[j] == StatOf(services[j], now)
      {
        var l := services[i];
        var resetTime := l.windowStartedAt + l.windowMinutes * MINUTE;
        var remainingUses := l.maxRequests;
        if now < resetTime {
          remainingUses := l.maxRequests - l.currentCount;
        }
        stats := stats + [Stat(l.service, remainingUses, resetTime, l.maxRequests)];
      }
    }

    /** AdminUpdateRateLimitsHandler. */
    method SetMaxRequests(user: nat, service: Service, newLimit: int) returns (reply: AdminReply)
      requires Valid()
      modifies this
      ensures reply == InvalidParameters <==> service == Other("") || newLimit < 0
      ensures reply == UserNotFound <==> service != Other("") && newLimit >= 0 && user !in old(documents)
      ensures reply == ServiceNotFound <==>
                (service != Other("") && newLimit >= 0 && user in old(documents) &&
                 forall l :: l in old(documents)[user] ==> l.service != service)
      ensures reply == Updated ==> exists i ::
                && 0 <= i < |old(documents)[user]| && old(documents)[user][i].service == service
                && (forall j :: 0 <= j < i ==> old(documents)[user][j].service != service)
                && documents == old(documents)[user :=
                     old(documents)[user][i := old(documents)[user][i].(maxRequests := newLimit)]]
      ensures reply == Updated ==>
        documents == old(documents)[user := ChangeLimit(old(documents)[user], service, newLimit)]
      ensures reply != Updated ==> documents == old(documents)
      ensures Valid()
    {
      if service == NAMELESS || newLimit < 0 {
        return InvalidParameters;
      }
      if user !in documents {
        return UserNotFound;
      }
      var services := documents[user];
      var i := Position(services, service);
      if i == |services| {
        return ServiceNotFound;
      }
      StepKeepsStored(services, false, SetLimit(service, newLimit));
      documents := documents[user := services[i := services[i].(maxRequests := newLimit)]];
      return Updated;
    }
  }
}
