/** The submission queue seen from outside: what the handlers did in a run, read off its list of events, decides which
    submissions are queued, in what order, and what a handler can do next. */
module History {
  import opened Common
  import opened SubmissionQueue

  function Arrivals(es: seq<Event>): nat {
    if es == [] then 0 else Arrivals(es[..|es| - 1]) + Is(es[|es| - 1] == Arrive)
  }

  /** The submissions sent to the channel, in the order of the sends. */
  function Sends(es: seq<Event>): seq<nat> {
    if es == [] then []
    else
      var before := Sends(es[..|es| - 1]);
      match es[|es| - 1]
      case Enqueue(h) => before + [h]
      case _ => before
  }

  /** How many submissions the workers have received, and how many they are done with. */
  function Receipts(es: seq<Event>): nat
    requires CanRun(INITIAL, es)
  {
    if es == [] then 0
    else
      var init, e := es[..|es| - 1], es[|es| - 1];
      Receipts(init) + Is(e.WorkerStep? && After(INITIAL, init).workers[e.w] == Receiving)
  }

  function Completions(es: seq<Event>): nat
    requires CanRun(INITIAL, es)
  {
    if es == [] then 0
    else
      var init, e := es[..|es| - 1], es[|es| - 1];
      Completions(init) + Is(e.WorkerStep? && After(INITIAL, init).workers[e.w].Processing?)
  }

  /** What the program counter of a handler says about the events of the run. */
  ghost predicate Remembers(es: seq<Event>, h: nat, pc: HandlerPc) {
    && (pc == Rejected <==> Reject(h) in es)
    && (pc == Queued <==> Enqueue(h) in es)
    && multiset(es)[Reject(h)] + multiset(es)[Enqueue(h)] <= 1
  }

  lemma StepRemembers(st: State, es: seq<Event>, e: Event, h: nat)
    requires Enabled(st, e)
    requires if h < |st.handlers| then Remembers(es, h, st.handlers[h]) else Reject(h) !in es && Enqueue(h) !in es
    ensures var after := Apply(st, e).handlers;
      if h < |after| then Remembers(es + [e], h, after[h]) else Reject(h) !in es + [e] && Enqueue(h) !in es + [e]
  {
    assert multiset(es + [e]) == multiset(es) + multiset{e};
    assert forall x :: x in es + [e] <==> x in es || x == e;
    assert multiset(es)[Reject(h)] > 0 <==> Reject(h) in es;
    assert multiset(es)[Enqueue(h)] > 0 <==> Enqueue(h) in es;
  }

  lemma {:induction false} HandlersRemember(es: seq<Event>, h: nat)
    requires CanRun(INITIAL, es)
    ensures var handlers := After(INITIAL, es).handlers;
      && |handlers| == Arrivals(es)
      && if h < |handlers| then Remembers(es, h, handlers[h]) else Reject(h) !in es && Enqueue(h) !in es
  {
    if es != [] {
      var init, e := es[..|es| - 1], es[|es| - 1];
      assert es == init + [e];
      HandlersRemember(init, h);
      StepRemembers(After(INITIAL, init), init, e, h);
    }
  }

  lemma {:induction false} AcceptedIsSent(es: seq<Event>)
    requires CanRun(INITIAL, es)
    ensures After(INITIAL, es).accepted == Sends(es)
    ensures forall h :: h in Sends(es) <==> Enqueue(h) in es
  {
    if es != [] {
      var init, e := es[..|es| - 1], es[|es| - 1];
      assert es == init + [e];
      AcceptedIsSent(init);
      assert forall x :: x in es <==> x in init || x == e;
    }
  }

  /** In every run a submission is queued if and only if its handler sent it; a handler that answered with an error
      never does, and none does anything twice. */
  lemma QueuedIffSent(es: seq<Event>, h: nat)
    requires CanRun(INITIAL, es)
    ensures h in After(INITIAL, es).accepted <==> Enqueue(h) in es
    ensures Reject(h) in es ==> h !in After(INITIAL, es).accepted
    ensures multiset(es)[Reject(h)] + multiset(es)[Enqueue(h)] <= 1
    ensures Reject(h) in es || Enqueue(h) in es ==> h < Arrivals(es)
  {
    HandlersRemember(es, h);
    AcceptedIsSent(es);
  }

  lemma {:induction false} ReceiptsCount(es: seq<Event>)
    requires CanRun(INITIAL, es)
    ensures var st := After(INITIAL, es);
      Receipts(es) == |st.processed| + |InFlight(st)| && Completions(es) == |st.processed|
  {
    if es != [] {
      var init, e := es[..|es| - 1], es[|es| - 1];
      ReceiptsCount(init);
      RunKeepsInv(INITIAL, init);
      ReceiptStep(After(INITIAL, init), e);
    }
  }

  lemma ReceiptStep(st: State, e: Event)
    requires Inv(st) && Enabled(st, e)
    ensures var after := Apply(st, e);
      && |after.processed| == |st.processed| + Is(e.WorkerStep? && st.workers[e.w].Processing?)
      && |after.processed| + |InFlight(after)| ==
           |st.processed| + |InFlight(st)| + Is(e.WorkerStep? && st.workers[e.w] == Receiving)
  {
    if e.WorkerStep? {
      WorkerMoveKeepsFlag(st, e.w);
    }
  }

  lemma QueueIsCut(st: State)
    requires Inv(st)
    ensures var n, m := |st.processed|, |st.processed| + |InFlight(st)|;
      && m <= n + 1 && m <= |st.accepted| <= m + 100
      && st.processed == st.accepted[..n] && st.queue == st.accepted[m..]
  {
    ConcatCuts(st.processed, InFlight(st), st.queue);
  }

  lemma ConcatCuts(a: seq<nat>, b: seq<nat>, c: seq<nat>)
    ensures (a + b + c)[..|a|] == a && (a + b + c)[|a| + |b|..] == c
  {
  }

  /** What is done, in hand and waiting, in terms of the sends alone: first in, first out, with one in hand at most. */
  lemma FirstInFirstOut(es: seq<Event>)
    requires CanRun(INITIAL, es)
    ensures var st, n, m := After(INITIAL, es), Completions(es), Receipts(es);
      && n <= m <= n + 1 && m <= |Sends(es)| <= m + 100
      && st.processed == Sends(es)[..n]
      && st.queue == Sends(es)[m..]
  {
    RunKeepsInv(INITIAL, es);
    AcceptedIsSent(es);
    ReceiptsCount(es);
    QueueIsCut(After(INITIAL, es));
  }

  /** Whether a handler can act next, read off the events: it has arrived and has done nothing yet; and it can send only
      while fewer than 100 of the submissions sent wait to be received. */
  lemma NextActionIff(es: seq<Event>, h: nat)
    requires CanRun(INITIAL, es)
    ensures CanRun(INITIAL, es + [Arrive])
    ensures CanRun(INITIAL, es + [Reject(h)]) <==> h < Arrivals(es) && Reject(h) !in es && Enqueue(h) !in es
    ensures CanRun(INITIAL, es + [Enqueue(h)]) <==>
            h < Arrivals(es) && Reject(h) !in es && Enqueue(h) !in es && |Sends(es)| - Receipts(es) < 100
  {
    HandlersRemember(es, h);
    FirstInFirstOut(es);
    NextIsEnabled(es, Arrive);
    NextIsEnabled(es, Reject(h));
    NextIsEnabled(es, Enqueue(h));
  }

  lemma NextIsEnabled(es: seq<Event>, e: Event)
    requires CanRun(INITIAL, es)
    ensures CanRun(INITIAL, es + [e]) <==> Enabled(After(INITIAL, es), e)
  {
    assert (es + [e])[..|es|] == es;
  }
}
