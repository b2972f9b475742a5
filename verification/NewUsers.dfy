/** What a user without a stored document is granted: the first call creates the default document, and every later call
    is judged by it. All laws here are about the answers of whole runs, with the limits as numbers. */
module NewUsers {
  import opened Common
  import opened UserLimiter

  datatype Call = Call(service: Service, now: int)

  /** The stored document after calls of a user who had none. */
  function StoredFor(isAdmin: bool, calls: seq<Call>): Option<seq<ServiceLimit>> {
    if calls == [] then None
    else
      var c := calls[|calls| - 1];
      Some(Serve(StoredFor(isAdmin, calls[..|calls| - 1]), isAdmin, c.service, c.now).0)
  }

  /** The answer to a call after others. */
  function AnswerTo(isAdmin: bool, calls: seq<Call>, c: Call): Answer {
    Serve(StoredFor(isAdmin, calls), isAdmin, c.service, c.now).1
  }

  /** How many calls there are for a service, and how many of them are let through. */
  function CallsFor(calls: seq<Call>, service: Service): nat {
    if calls == [] then 0 else CallsFor(calls[..|calls| - 1], service) + Is(calls[|calls| - 1].service == service)
  }

  function GrantedTo(isAdmin: bool, calls: seq<Call>, service: Service): nat {
    if calls == [] then 0
    else
      var init, c := calls[..|calls| - 1], calls[|calls| - 1];
      GrantedTo(isAdmin, init, service) + Is(c.service == service && AnswerTo(isAdmin, init, c).Allowed?)
  }

  /** The calls come within 60 minutes of the first, counted from its whole millisecond. */
  predicate WithinTheHour(calls: seq<Call>) {
    forall i :: 0 <= i < |calls| ==> calls[i].now <= calls[0].now - calls[0].now % 1_000_000 + 3_600_000_000_000
  }

  /** The limits of the default document. */
  predicate IsDefault(isAdmin: bool, service: Service, limit: int) {
    || (service == CodeCompletion && limit == if isAdmin then 1000 else 100)
    || (service == PseudocodeToCode && limit == if isAdmin then 100 else 20)
    || (service == CodeExecution && limit == if isAdmin then 200 else 50)
    || (service == CodeSubmission && limit == if isAdmin then 200 else 50)
    || (service == AIAnalysis && limit == if isAdmin then 100 else 20)
    || (service == AIHint && limit == if isAdmin then 50 else 10)
  }

  // ---- The default document ----

  /** The document as the first call stores it, before its own request is counted. */
  function Created(isAdmin: bool, now: int): seq<ServiceLimit> { StoredAll(DefaultRateLimits(isAdmin, now)) }

  predicate NamesTheSix(services: seq<ServiceLimit>) {
    && |services| == 6
    && services[0].service == CodeCompletion && services[1].service == PseudocodeToCode
    && services[2].service == CodeExecution && services[3].service == CodeSubmission
    && services[4].service == AIAnalysis && services[5].service == AIHint
  }

  lemma CreatedEntry(isAdmin: bool, now: int, service: Service, limit: int)
    requires IsDefault(isAdmin, service, limit)
    ensures NamesTheSix(Created(isAdmin, now))
    ensures var services := Created(isAdmin, now);
      var i := Find(services, service);
      && i < |services|
      && services[i] == ServiceLimit(service, limit, 60, 0, now - now % 1_000_000, now - now % 1_000_000)
  {
  }

  lemma StepKeepsSix(services: seq<ServiceLimit>, isAdmin: bool, service: Service, now: int)
    requires NamesTheSix(services)
    ensures NamesTheSix(Check(services, isAdmin, service, now).0)
    ensures (forall limit :: !IsDefault(isAdmin, service, limit)) ==>
              Check(services, isAdmin, service, now) == (services, UnknownService)
  {
    StepChangesOneEntry(services, isAdmin, Request(service, now));
    DefaultsNameTheSix(isAdmin, now);
    SixByNumbers(isAdmin, service);
  }

  lemma DefaultsNameTheSix(isAdmin: bool, now: int)
    ensures NamesTheSix(DefaultRateLimits(isAdmin, now))
  {
  }

  /** A service is one of the six exactly when it has a default limit. */
  lemma SixByNumbers(isAdmin: bool, service: Service)
    ensures (exists limit :: IsDefault(isAdmin, service, limit)) <==>
            (service == CodeCompletion || service == PseudocodeToCode || service == CodeExecution ||
             service == CodeSubmission || service == AIAnalysis || service == AIHint)
  {
    assert IsDefault(isAdmin, CodeCompletion, if isAdmin then 1000 else 100);
    assert IsDefault(isAdmin, PseudocodeToCode, if isAdmin then 100 else 20);
    assert IsDefault(isAdmin, CodeExecution, if isAdmin then 200 else 50);
    assert IsDefault(isAdmin, CodeSubmission, if isAdmin then 200 else 50);
    assert IsDefault(isAdmin, AIAnalysis, if isAdmin then 100 else 20);
    assert IsDefault(isAdmin, AIHint, if isAdmin then 50 else 10);
  }

  /** The first call leaves what its request makes of the document as created, and is answered from the exact time. */
  lemma FirstCallIsStep(isAdmin: bool, c: Call)
    ensures Serve(None, isAdmin, c.service, c.now).0 ==
            Step(Created(isAdmin, c.now), isAdmin, Request(c.service, c.now))
  {
    var exact, created := DefaultRateLimits(isAdmin, c.now), Created(isAdmin, c.now);
    DefaultsNameTheSix(isAdmin, c.now);
    SameNamesSameFind(exact, created, c.service);
    var i := Find(exact, c.service);
    if i < |exact| {
      EntryOfFirstCall(exact[i], c.now);
      StoredOfUpdate(exact, i, Counted(exact[i], c.now));
    }
  }

  lemma SameNamesSameFind(a: seq<ServiceLimit>, b: seq<ServiceLimit>, service: Service)
    requires |a| == |b| && forall i :: 0 <= i < |a| ==> a[i].service == b[i].service
    ensures Find(a, service) == Find(b, service)
  {
  }

  lemma StoredOfUpdate(services: seq<ServiceLimit>, i: nat, l: ServiceLimit)
    requires i < |services|
    ensures StoredAll(services[i := l]) == StoredAll(services)[i := Stored(l)]
  {
  }

  lemma EntryOfFirstCall(l: ServiceLimit, now: int)
    requires l.windowStartedAt == now && l.windowMinutes == 60
    ensures Stored(Counted(l, now)) == Counted(Stored(l), now)
  {
    MillisIsStable(now);
  }

  // ---- The run as a run of the document ----

  function RequestsOf(calls: seq<Call>): seq<Event> {
    if calls == [] then []
    else RequestsOf(calls[..|calls| - 1]) + [Request(calls[|calls| - 1].service, calls[|calls| - 1].now)]
  }

  lemma {:induction false} StoredIsDocument(isAdmin: bool, calls: seq<Call>)
    requires calls != []
    ensures var created := Created(isAdmin, calls[0].now);
      var stored := StoredFor(isAdmin, calls);
      && stored == Some(DocumentAfter(created, isAdmin, RequestsOf(calls)))
      && NamesTheSix(stored.value) && StoredAll(stored.value) == stored.value
  {
    var init, c := calls[..|calls| - 1], calls[|calls| - 1];
    var created := Created(isAdmin, calls[0].now);
    assert RequestsOf(calls)[..|RequestsOf(init)|] == RequestsOf(init);
    if init == [] {
      FirstCallIsStep(isAdmin, c);
      DefaultsNameTheSix(isAdmin, c.now);
      assert NamesTheSix(created);
      StepKeepsSix(created, isAdmin, c.service, c.now);
      StoredTwice(Check(DefaultRateLimits(isAdmin, c.now), isAdmin, c.service, c.now).0);
    } else {
      StoredIsDocument(isAdmin, init);
      var doc := StoredFor(isAdmin, init).value;
      StepKeepsStored(doc, isAdmin, Request(c.service, c.now));
      StepKeepsSix(doc, isAdmin, c.service, c.now);
    }
  }

  lemma {:induction false} OwnRequests(calls: seq<Call>, service: Service, end: int)
    requires forall i :: 0 <= i < |calls| ==> calls[i].now <= end
    ensures var own := EventsOf(RequestsOf(calls), service);
      |own| == CallsFor(calls, service) && RequestsOnly(own) && RequestsBy(own, end)
  {
    if calls != [] {
      var init := calls[..|calls| - 1];
      OwnRequests(init, service, end);
      assert RequestsOf(calls)[..|RequestsOf(init)|] == RequestsOf(init);
    }
  }

  /** The entry of a service after calls within the hour. */
  lemma EntryWithinTheHour(isAdmin: bool, calls: seq<Call>, service: Service, limit: int) returns (entry: ServiceLimit)
    requires calls != [] && WithinTheHour(calls) && IsDefault(isAdmin, service, limit)
    ensures StoredFor(isAdmin, calls).Some?
    ensures var services := StoredFor(isAdmin, calls).value;
      var i := Find(services, service);
      i < |services| && services[i] == entry
    ensures entry.service == service && entry.maxRequests == limit && entry.windowMinutes == 60
    ensures entry.windowStartedAt == calls[0].now - calls[0].now % 1_000_000
    ensures entry.currentCount == Min(CallsFor(calls, service), limit)
  {
    var created := Created(isAdmin, calls[0].now);
    CreatedEntry(isAdmin, calls[0].now, service, limit);
    StoredIsDocument(isAdmin, calls);
    ServicesAreIndependent(created, isAdmin, RequestsOf(calls), service);
    var l, own := created[Find(created, service)], EventsOf(RequestsOf(calls), service);
    OwnRequests(calls, service, l.WindowEnd());
    WindowStays(l, own);
    LeftIsExact(l, own);
    CountIsGrowth(l, own);
    entry := EntryAfter(l, own);
  }

  // ---- The answers ----

  /** The first answer: the whole limit but one, and an hour from now. */
  lemma FirstAnswer(isAdmin: bool, c: Call, limit: int)
    requires IsDefault(isAdmin, c.service, limit)
    ensures AnswerTo(isAdmin, [], c) == Allowed(limit - 1, c.now + 3_600_000_000_000, limit)
  {
    DefaultEntry(isAdmin, c.now, c.service, limit);
    var services := DefaultRateLimits(isAdmin, c.now);
    AnswerOfListed(services, isAdmin, c);
    AnswerOfEntry(services[Find(services, c.service)], c.now);
  }

  lemma AnswerOfListed(services: seq<ServiceLimit>, isAdmin: bool, c: Call)
    requires Find(services, c.service) < |services|
    ensures Serve(Some(services), isAdmin, c.service, c.now).1 ==
            AnswerFor(services[Find(services, c.service)], c.now)
    ensures services == DefaultRateLimits(isAdmin, c.now) ==>
              AnswerTo(isAdmin, [], c) == AnswerFor(services[Find(services, c.service)], c.now)
  {
  }

  lemma AnswerOfEntry(l: ServiceLimit, now: int)
    requires l.windowMinutes == 60 && now <= l.windowStartedAt + 3_600_000_000_000
    ensures var end := l.windowStartedAt + 3_600_000_000_000;
      AnswerFor(l, now) ==
        if l.currentCount < l.maxRequests then Allowed(l.maxRequests - l.currentCount - 1, end, l.maxRequests)
        else Refused(end, l.maxRequests)
  {
  }

  /** The answer for a default service that a stored document lacks is that to a first call, however often it is asked;
      and each time the document gets one more element, without a name, a limit or a window. */
  lemma MissingServiceAnswer(services: seq<ServiceLimit>, isAdmin: bool, c: Call, limit: int)
    requires IsDefault(isAdmin, c.service, limit) && forall l :: l in services ==> l.service != c.service
    ensures Serve(Some(services), isAdmin, c.service, c.now) ==
            (StoredAll(services +
               [ServiceLimit(Other(""), 0, 0, 1, -62_135_596_800_000_000_000, c.now - c.now % 1_000_000)]),
             Allowed(limit - 1, c.now + 3_600_000_000_000, limit))
  {
    assert forall i :: 0 <= i < |services| ==> services[i] in services;
    DefaultEntry(isAdmin, c.now, c.service, limit);
    var defaults := DefaultRateLimits(isAdmin, c.now);
    AnswerOfEntry(defaults[Find(defaults, c.service)], c.now);
  }

  lemma HourOfPrefix(calls: seq<Call>, c: Call)
    requires calls != [] && WithinTheHour(calls + [c])
    ensures WithinTheHour(calls) && c.now <= calls[0].now - calls[0].now % 1_000_000 + 3_600_000_000_000
  {
    var all := calls + [c];
    assert all[|calls|] == c && forall i :: 0 <= i < |calls| ==> all[i] == calls[i];
  }

  /** Every later answer within the hour of a first call. While fewer calls for the service have been made than its
      limit: let through, with the rest of it, and the end of the hour from the first call's whole millisecond. */
  lemma {:induction false} AnswerWithinLimit(isAdmin: bool, calls: seq<Call>, c: Call, limit: int)
    requires calls != [] && WithinTheHour(calls + [c]) && IsDefault(isAdmin, c.service, limit)
    requires CallsFor(calls, c.service) < limit
    ensures var end := calls[0].now - calls[0].now % 1_000_000 + 3_600_000_000_000;
      AnswerTo(isAdmin, calls, c) == Allowed(limit - CallsFor(calls, c.service) - 1, end, limit)
  {
    var entry := EntryOfCall(isAdmin, calls, c, limit);
    AnswerFromStored(isAdmin, calls, c, entry);
  }

  /** After that: refused until the same end. */
  lemma {:induction false} AnswerPastLimit(isAdmin: bool, calls: seq<Call>, c: Call, limit: int)
    requires calls != [] && WithinTheHour(calls + [c]) && IsDefault(isAdmin, c.service, limit)
    requires CallsFor(calls, c.service) >= limit
    ensures var end := calls[0].now - calls[0].now % 1_000_000 + 3_600_000_000_000;
      AnswerTo(isAdmin, calls, c) == Refused(end, limit)
  {
    var entry := EntryOfCall(isAdmin, calls, c, limit);
    AnswerFromStored(isAdmin, calls, c, entry);
  }

  lemma EntryOfCall(isAdmin: bool, calls: seq<Call>, c: Call, limit: int) returns (entry: ServiceLimit)
    requires calls != [] && WithinTheHour(calls + [c]) && IsDefault(isAdmin, c.service, limit)
    ensures StoredFor(isAdmin, calls).Some?
    ensures var services := StoredFor(isAdmin, calls).value;
      Find(services, c.service) < |services| && services[Find(services, c.service)] == entry
    ensures entry.maxRequests == limit && entry.windowMinutes == 60
    ensures entry.windowStartedAt == calls[0].now - calls[0].now % 1_000_000
    ensures entry.currentCount == Min(CallsFor(calls, c.service), limit)
    ensures c.now <= entry.windowStartedAt + 3_600_000_000_000
  {
    HourOfPrefix(calls, c);
    entry := EntryWithinTheHour(isAdmin, calls, c.service, limit);
  }

  lemma AnswerFromStored(isAdmin: bool, calls: seq<Call>, c: Call, l: ServiceLimit)
    requires StoredFor(isAdmin, calls).Some?
    requires var services := StoredFor(isAdmin, calls).value;
             Find(services, c.service) < |services| && services[Find(services, c.service)] == l
    requires l.windowMinutes == 60 && c.now <= l.windowStartedAt + 3_600_000_000_000
    ensures var answer, end := AnswerTo(isAdmin, calls, c), l.windowStartedAt + 3_600_000_000_000;
      && (l.currentCount < l.maxRequests ==>
            answer == Allowed(l.maxRequests - l.currentCount - 1, end, l.maxRequests))
      && (l.currentCount >= l.maxRequests ==> answer == Refused(end, l.maxRequests))
  {
    AnswerOfListed(StoredFor(isAdmin, calls).value, isAdmin, c);
    AnswerOfEntry(l, c.now);
  }

  lemma DefaultEntry(isAdmin: bool, now: int, service: Service, limit: int)
    requires IsDefault(isAdmin, service, limit)
    ensures var services := DefaultRateLimits(isAdmin, now);
      var i := Find(services, service);
      i < |services| && services[i] == ServiceLimit(service, limit, 60, 0, now, now)
  {
    DefaultsNameTheSix(isAdmin, now);
  }

  /** A service without a default limit is unknown, and asking for it changes nothing, except that a first call creates
      the document. */
  lemma OtherServiceIsUnknown(isAdmin: bool, calls: seq<Call>, c: Call)
    requires forall limit :: !IsDefault(isAdmin, c.service, limit)
    ensures AnswerTo(isAdmin, calls, c) == UnknownService
    ensures StoredFor(isAdmin, calls + [c]) ==
            if calls == [] then Some(Created(isAdmin, c.now)) else StoredFor(isAdmin, calls)
  {
    assert (calls + [c])[..|calls|] == calls;
    if calls == [] {
      DefaultsNameTheSix(isAdmin, c.now);
      StepKeepsSix(DefaultRateLimits(isAdmin, c.now), isAdmin, c.service, c.now);
    } else {
      StoredIsDocument(isAdmin, calls);
      StepKeepsSix(StoredFor(isAdmin, calls).value, isAdmin, c.service, c.now);
    }
  }

  lemma GrantedIff(isAdmin: bool, calls: seq<Call>, c: Call, limit: int)
    requires WithinTheHour(calls + [c]) && IsDefault(isAdmin, c.service, limit)
    ensures AnswerTo(isAdmin, calls, c).Allowed? <==> CallsFor(calls, c.service) < limit
  {
    if calls == [] {
      FirstAnswer(isAdmin, c, limit);
    } else if CallsFor(calls, c.service) < limit {
      AnswerWithinLimit(isAdmin, calls, c, limit);
    } else {
      AnswerPastLimit(isAdmin, calls, c, limit);
    }
  }

  lemma HourOfInit(calls: seq<Call>)
    requires calls != [] && WithinTheHour(calls)
    ensures WithinTheHour(calls[..|calls| - 1])
  {
  }

  lemma GrantedByLast(isAdmin: bool, calls: seq<Call>, service: Service, limit: int)
    requires calls != [] && WithinTheHour(calls) && IsDefault(isAdmin, service, limit)
    ensures var init, mine := calls[..|calls| - 1], calls[|calls| - 1].service == service;
      && CallsFor(calls, service) == CallsFor(init, service) + Is(mine)
      && GrantedTo(isAdmin, calls, service) ==
           GrantedTo(isAdmin, init, service) + Is(mine && CallsFor(init, service) < limit)
  {
    var init, c := calls[..|calls| - 1], calls[|calls| - 1];
    assert init + [c] == calls;
    if c.service == service {
      GrantedIff(isAdmin, init, c, limit);
    }
  }

  lemma {:induction false} GrantedWithinTheHour(isAdmin: bool, calls: seq<Call>, service: Service, limit: int)
    requires WithinTheHour(calls) && IsDefault(isAdmin, service, limit)
    ensures GrantedTo(isAdmin, calls, service) == Min(CallsFor(calls, service), limit)
  {
    if calls != [] {
      HourOfInit(calls);
      GrantedWithinTheHour(isAdmin, calls[..|calls| - 1], service, limit);
      GrantedByLast(isAdmin, calls, service, limit);
    }
  }

  /** What a new user is granted within 60 minutes of the first call, with calls for any services in any order: of the
      calls for a service exactly as many as its limit, and none for a service that has none. */
  lemma NewUserIsGranted(isAdmin: bool, calls: seq<Call>, service: Service)
    requires forall i :: 0 <= i < |calls| ==>
      calls[i].now <= calls[0].now - calls[0].now % 1_000_000 + 3_600_000_000_000
    ensures var n, granted := CallsFor(calls, service), GrantedTo(isAdmin, calls, service);
      match service
      case CodeCompletion => granted == Min(n, if isAdmin then 1000 else 100)
      case PseudocodeToCode => granted == Min(n, if isAdmin then 100 else 20)
      case CodeExecution => granted == Min(n, if isAdmin then 200 else 50)
      case CodeSubmission => granted == Min(n, if isAdmin then 200 else 50)
      case AIAnalysis => granted == Min(n, if isAdmin then 100 else 20)
      case AIHint => granted == Min(n, if isAdmin then 50 else 10)
      case GuestCreation => granted == 0
      case Other(_) => granted == 0
  {
    match service
    case CodeCompletion => GrantedWithinTheHour(isAdmin, calls, service, if isAdmin then 1000 else 100);
    case PseudocodeToCode => GrantedWithinTheHour(isAdmin, calls, service, if isAdmin then 100 else 20);
    case CodeExecution => GrantedWithinTheHour(isAdmin, calls, service, if isAdmin then 200 else 50);
    case CodeSubmission => GrantedWithinTheHour(isAdmin, calls, service, if isAdmin then 200 else 50);
    case AIAnalysis => GrantedWithinTheHour(isAdmin, calls, service, if isAdmin then 100 else 20);
    case AIHint => GrantedWithinTheHour(isAdmin, calls, service, if isAdmin then 50 else 10);
    case GuestCreation => NothingGranted(isAdmin, calls, service);
    case Other(_) => NothingGranted(isAdmin, calls, service);
  }

  lemma {:induction false} NothingGranted(isAdmin: bool, calls: seq<Call>, service: Service)
    requires forall limit :: !IsDefault(isAdmin, service, limit)
    ensures GrantedTo(isAdmin, calls, service) == 0
  {
    if calls != [] {
      NothingGranted(isAdmin, calls[..|calls| - 1], service);
      if calls[|calls| - 1].service == service {
        OtherServiceIsUnknown(isAdmin, calls[..|calls| - 1], calls[|calls| - 1]);
      }
    }
  }

  /** What the report shows a new user within the hour: the six services in order, each with the rest of its limit. */
  lemma ReportWithinTheHour(isAdmin: bool, calls: seq<Call>, at: int, i: nat)
    requires calls != [] && WithinTheHour(calls) && i < 6
    requires at < calls[0].now - calls[0].now % 1_000_000 + 3_600_000_000_000
    ensures StoredFor(isAdmin, calls).Some? && NamesTheSix(StoredFor(isAdmin, calls).value)
    ensures var stat := StatOf(StoredFor(isAdmin, calls).value[i], at);
      && IsDefault(isAdmin, stat.service, stat.limit)
      && stat.remaining == stat.limit - Min(CallsFor(calls, stat.service), stat.limit)
      && stat.resetAt == calls[0].now - calls[0].now % 1_000_000 + 3_600_000_000_000
  {
    StoredIsDocument(isAdmin, calls);
    var services := StoredFor(isAdmin, calls).value;
    var limit := LimitOfSix(isAdmin, services, i);
    var entry := EntryWithinTheHour(isAdmin, calls, services[i].service, limit);
    FindOfSix(services, i);
    StatOfEntry(entry, at);
  }

  lemma LimitOfSix(isAdmin: bool, services: seq<ServiceLimit>, i: nat) returns (limit: int)
    requires NamesTheSix(services) && i < 6
    ensures IsDefault(isAdmin, services[i].service, limit)
  {
    SixByNumbers(isAdmin, services[i].service);
    limit :| IsDefault(isAdmin, services[i].service, limit);
  }

  lemma StatOfEntry(l: ServiceLimit, at: int)
    requires l.windowMinutes == 60 && at < l.windowStartedAt + 3_600_000_000_000
    ensures StatOf(l, at) ==
            Stat(l.service, l.maxRequests - l.currentCount, l.windowStartedAt + 3_600_000_000_000, l.maxRequests)
  {
  }

  lemma FindOfSix(services: seq<ServiceLimit>, i: nat)
    requires NamesTheSix(services) && i < 6
    ensures Find(services, services[i].service) == i
  {
    assert forall j, k :: 0 <= j < k < 6 ==> services[j].service != services[k].service;
  }
}
