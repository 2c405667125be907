/**
 * The audit service: producers put events on a bounded channel without ever
 * blocking, one worker inserts them with up to three attempts each and drains
 * the channel after cancellation. Every interleaving of their steps is a run.
 */
module AuditQueue {
  import opened Prelude

  const QUEUE_SIZE: nat := 512
  const ATTEMPTS: nat := 3

  /** Events carry an identity, so that two equal-looking events stay apart. */
  type Event = Id

  /** What the worker is doing. `Exited` remembers how many events had been accepted when it left. */
  datatype Phase = Polling | Busy(e: Event, failed: nat, draining: bool) | Draining | Exited(accepted: nat)

  datatype Outcome = Outcome(e: Event, inserted: bool, attempts: nat)

  /** A refused event, with what was on the channel and how many events had been accepted. */
  datatype Drop = Drop(e: Event, queued: seq<Event>, accepted: nat)

  datatype Audit = Audit(
    queue: seq<Event>,
    phase: Phase,
    cancelled: bool,
    logged: seq<Event>,       // history: every call of LogAsync
    accepted: seq<Event>,     // history: events put on the channel, in order
    dropped: seq<Drop>,       // history: events refused by a full channel
    handled: seq<Outcome>)    // history: events the worker finished with, in order

  const Start: Audit := Audit([], Polling, false, [], [], [], [])

  datatype Step = Log(e: Event) | Cancel | Receive | SeeDone | Attempt(ok: bool) | Leave

  predicate CanStep(s: Audit, step: Step)
  {
    match step
    case Log(e) => true
    case Cancel => true
    case Receive => (s.phase.Polling? || s.phase.Draining?) && s.queue != []
    case SeeDone => s.phase.Polling? && s.cancelled
    case Attempt(_) => s.phase.Busy?
    case Leave => s.phase.Draining? && s.queue == []
  }

  function Next(s: Audit, step: Step): Audit
    requires CanStep(s, step)
  {
    match step
    case Log(e) => LogAsync(s, e)
    case Cancel => s.(cancelled := true)
    case Receive => s.(queue := s.queue[1..], phase := Busy(s.queue[0], 0, s.phase.Draining?))
    case SeeDone => s.(phase := Draining)
    case Attempt(ok) =>
      var Busy(e, failed, draining) := s.phase;
      if ok then Finish(s, Outcome(e, true, failed + 1), draining)
      else if failed + 1 < ATTEMPTS then s.(phase := Busy(e, failed + 1, draining))
      else Finish(s, Outcome(e, false, failed + 1), draining)
    case Leave => s.(phase := Exited(|s.accepted|))
  }

  /** A send with a default branch: accepted if there is room, dropped otherwise. */
  function LogAsync(s: Audit, e: Event): Audit
  {
    if |s.queue| < QUEUE_SIZE
    then s.(queue := s.queue + [e], logged := s.logged + [e], accepted := s.accepted + [e])
    else s.(logged := s.logged + [e], dropped := s.dropped + [Drop(e, s.queue, |s.accepted|)])
  }

  function Finish(s: Audit, o: Outcome, draining: bool): Audit
  {
    s.(handled := s.handled + [o], phase := if draining then Draining else Polling)
  }

  // ---------- views ----------

  function Events(os: seq<Outcome>): seq<Event>
  {
    if os == [] then [] else Events(os[..|os| - 1]) + [os[|os| - 1].e]
  }

  function Refused(ds: seq<Drop>): seq<Event>
  {
    if ds == [] then [] else Refused(ds[..|ds| - 1]) + [ds[|ds| - 1].e]
  }

  function InProgress(p: Phase): seq<Event>
  {
    if p.Busy? then [p.e] else []
  }

  /** The rows of the audit table, in insertion order. */
  function Inserted(os: seq<Outcome>): seq<Event>
  {
    if os == [] then [] else Inserted(os[..|os| - 1]) + if os[|os| - 1].inserted then [os[|os| - 1].e] else []
  }

  function GivenUp(os: seq<Outcome>): seq<Event>
  {
    if os == [] then [] else GivenUp(os[..|os| - 1]) + if os[|os| - 1].inserted then [] else [os[|os| - 1].e]
  }

  // ---------- the invariant ----------

  /** Accepted events are, in order, those handled, the one in progress, and those queued. */
  ghost predicate InOrder(s: Audit)
  {
    s.accepted == Events(s.handled) + (InProgress(s.phase) + s.queue)
  }

  ghost predicate Accounted(s: Audit)
  {
    multiset(s.logged) == multiset(s.accepted) + multiset(Refused(s.dropped))
  }

  ghost predicate Bounded(s: Audit)
  {
    && |s.queue| <= QUEUE_SIZE
    && (s.phase.Busy? ==> s.phase.failed < ATTEMPTS)
    && (s.phase.Exited? ==> s.phase.accepted == |s.handled|)
    && ((s.phase.Busy? && s.phase.draining) || s.phase.Draining? || s.phase.Exited? ==> s.cancelled)
    && forall i :: 0 <= i < |s.handled| ==> Tried(s.handled[i])
  }

  /** The event met a full channel: 512 events were waiting, the last 512 accepted by then. */
  predicate MetFullQueue(accepted: seq<Event>, d: Drop)
  {
    512 <= d.accepted <= |accepted| && d.queued == accepted[d.accepted - 512..d.accepted]
  }

  ghost predicate DropsOnlyWhenFull(s: Audit)
  {
    forall i :: 0 <= i < |s.dropped| ==> MetFullQueue(s.accepted, s.dropped[i])
  }

  ghost predicate AuditInv(s: Audit)
  {
    InOrder(s) && Bounded(s) && DropsOnlyWhenFull(s)
  }

  /** Inserted within three attempts, or given up after exactly three. */
  predicate Tried(o: Outcome)
  {
    if o.inserted then 1 <= o.attempts <= 3 else o.attempts == 3
  }

  lemma {:induction false} EventsLength(os: seq<Outcome>)
    ensures |Events(os)| == |os|
  {
    if os != [] {
      EventsLength(os[..|os| - 1]);
    }
  }

  lemma Regroup(a: seq<Event>, b: seq<Event>, c: seq<Event>)
    ensures (a + b) + c == a + (b + c)
  {
  }

  lemma FinishKeepsOrder(s: Audit, o: Outcome)
    requires InOrder(s) && s.phase.Busy? && o.e == s.phase.e
    ensures InOrder(Finish(s, o, s.phase.draining))
  {
  }

  lemma StepKeepsOrder(s: Audit, step: Step)
    requires InOrder(s) && CanStep(s, step)
    ensures InOrder(Next(s, step))
  {
    var done, q := Events(s.handled), s.queue;
    match step
    case Log(e) =>
      Regroup(done, InProgress(s.phase) + q, [e]);
      Regroup(InProgress(s.phase), q, [e]);
    case Receive =>
      assert [] + q == [q[0]] + q[1..];
    case Attempt(ok) =>
      if ok || s.phase.failed + 1 >= ATTEMPTS {
        FinishKeepsOrder(s, Outcome(s.phase.e, ok, s.phase.failed + 1));
      }
    case _ =>
  }

  lemma RefusedOneMore(ds: seq<Drop>, d: Drop)
    ensures Refused(ds + [d]) == Refused(ds) + [d.e]
  {
    assert (ds + [d])[..|ds|] == ds;
  }

  lemma OneMoreAccounted(logged: seq<Event>, accepted: seq<Event>, refused: seq<Event>, e: Event)
    requires multiset(logged) == multiset(accepted) + multiset(refused)
    ensures multiset(logged + [e]) == multiset(accepted + [e]) + multiset(refused)
    ensures multiset(logged + [e]) == multiset(accepted) + multiset(refused + [e])
  {
  }

  lemma LogKeepsAccounts(s: Audit, e: Event)
    requires Accounted(s)
    ensures Accounted(LogAsync(s, e))
  {
    OneMoreAccounted(s.logged, s.accepted, Refused(s.dropped), e);
    RefusedOneMore(s.dropped, Drop(e, s.queue, |s.accepted|));
  }

  lemma StepKeepsAccounts(s: Audit, step: Step)
    requires Accounted(s) && CanStep(s, step)
    ensures Accounted(Next(s, step))
  {
    if step.Log? {
      LogKeepsAccounts(s, step.e);
    } else {
      var s' := Next(s, step);
      assert s'.logged == s.logged && s'.accepted == s.accepted && s'.dropped == s.dropped;
    }
  }

  lemma StillMet(accepted: seq<Event>, more: seq<Event>, d: Drop)
    requires MetFullQueue(accepted, d) && accepted <= more
    ensures MetFullQueue(more, d)
  {
  }

  lemma LastAccepted(before: seq<Event>, queue: seq<Event>)
    ensures (before + queue)[|before + queue| - |queue|..|before + queue|] == queue
  {
  }

  lemma LogKeepsDrops(s: Audit, e: Event)
    requires InOrder(s) && |s.queue| <= QUEUE_SIZE && DropsOnlyWhenFull(s)
    ensures DropsOnlyWhenFull(LogAsync(s, e))
  {
    if |s.queue| < QUEUE_SIZE {
      forall i | 0 <= i < |s.dropped| ensures MetFullQueue(s.accepted + [e], s.dropped[i]) {
        StillMet(s.accepted, s.accepted + [e], s.dropped[i]);
      }
    } else {
      var before := Events(s.handled) + InProgress(s.phase);
      Regroup(Events(s.handled), InProgress(s.phase), s.queue);
      LastAccepted(before, s.queue);
    }
  }

  lemma StepKeepsDrops(s: Audit, step: Step)
    requires InOrder(s) && Bounded(s) && DropsOnlyWhenFull(s) && CanStep(s, step)
    ensures DropsOnlyWhenFull(Next(s, step))
  {
    if step.Log? {
      LogKeepsDrops(s, step.e);
    } else {
      assert Next(s, step).dropped == s.dropped && Next(s, step).accepted == s.accepted;
    }
  }

  lemma StepKeepsBounds(s: Audit, step: Step)
    requires InOrder(s) && Bounded(s) && CanStep(s, step)
    ensures Bounded(Next(s, step))
  {
    if step.Leave? {
      EventsLength(s.handled);
      assert s.accepted == Events(s.handled) + [];
    }
  }

  lemma StepKeepsInv(s: Audit, step: Step)
    requires AuditInv(s) && CanStep(s, step)
    ensures AuditInv(Next(s, step))
  {
    StepKeepsOrder(s, step);
    StepKeepsBounds(s, step);
    StepKeepsDrops(s, step);
  }

  ghost predicate IsRun(s: Audit, steps: seq<Step>)
    decreases steps
  {
    steps == [] || (CanStep(s, steps[0]) && IsRun(Next(s, steps[0]), steps[1..]))
  }

  ghost function Run(s: Audit, steps: seq<Step>): Audit
    requires IsRun(s, steps)
    decreases steps
  {
    if steps == [] then s else Run(Next(s, steps[0]), steps[1..])
  }

  lemma {:induction false} RunKeepsInv(s: Audit, steps: seq<Step>)
    requires AuditInv(s) && Accounted(s) && IsRun(s, steps)
    ensures AuditInv(Run(s, steps)) && Accounted(Run(s, steps))
    decreases steps
  {
    if steps != [] {
      StepKeepsInv(s, steps[0]);
      StepKeepsAccounts(s, steps[0]);
      RunKeepsInv(Next(s, steps[0]), steps[1..]);
    }
  }

  // ---------- where every event is ----------

  lemma {:induction false} HandledSplits(os: seq<Outcome>)
    ensures multiset(Events(os)) == multiset(Inserted(os)) + multiset(GivenUp(os))
  {
    if os != [] {
      var init, last := os[..|os| - 1], os[|os| - 1];
      HandledSplits(init);
    }
  }

  lemma EventsAccounted(s: Audit)
    requires InOrder(s) && Accounted(s)
    ensures multiset(s.logged) == multiset(Refused(s.dropped)) + multiset(s.queue) + multiset(InProgress(s.phase)) +
                                  multiset(Inserted(s.handled)) + multiset(GivenUp(s.handled))
  {
    HandledSplits(s.handled);
    var done, busy, waiting := Events(s.handled), InProgress(s.phase), s.queue;
    assert multiset(done + (busy + waiting)) == multiset(done) + (multiset(busy) + multiset(waiting));
  }

  /**
   * Every logged event is accounted for exactly once: dropped, queued, in
   * progress, inserted, or given up after three attempts.
   */
  lemma EveryEventInOnePlace(steps: seq<Step>)
    requires IsRun(Start, steps)
    ensures var s := Run(Start, steps);
      && multiset(s.logged) == multiset(Refused(s.dropped)) + multiset(s.queue) + multiset(InProgress(s.phase)) +
                               multiset(Inserted(s.handled)) + multiset(GivenUp(s.handled))
      && |s.queue| <= 512
      && DropsOnlyWhenFull(s)
      && forall i :: 0 <= i < |s.handled| ==> Tried(s.handled[i])
  {
    RunKeepsInv(Start, steps);
    EventsAccounted(Run(Start, steps));
  }

  /** `s` is `t` with some elements left out. */
  ghost predicate Subsequence(s: seq<Event>, t: seq<Event>)
    decreases |t|
  {
    if s == [] then true
    else if t == [] then false
    else Subsequence(s, t[..|t| - 1]) || (s[|s| - 1] == t[|t| - 1] && Subsequence(s[..|s| - 1], t[..|t| - 1]))
  }

  lemma {:induction false} InsertedInOrder(os: seq<Outcome>)
    ensures Subsequence(Inserted(os), Events(os))
  {
    if os != [] {
      var init, last := os[..|os| - 1], os[|os| - 1];
      InsertedInOrder(init);
      var ins, evs := Inserted(os), Events(os);
      assert evs[..|evs| - 1] == Events(init);
      if last.inserted {
        assert ins[..|ins| - 1] == Inserted(init) && ins[|ins| - 1] == evs[|evs| - 1];
      } else {
        assert ins == Inserted(init);
      }
    }
  }

  lemma {:induction false} SubsequenceExtends(s: seq<Event>, t: seq<Event>, more: seq<Event>)
    requires Subsequence(s, t)
    ensures Subsequence(s, t + more)
    decreases |more|
  {
    if more == [] {
      assert t + more == t;
    } else {
      assert (t + more)[..|t + more| - 1] == t + more[..|more| - 1];
      SubsequenceExtends(s, t, more[..|more| - 1]);
    }
  }

  /** Rows reach the table in the order their events were accepted. */
  lemma InsertionKeepsOrder(steps: seq<Step>)
    requires IsRun(Start, steps)
    ensures Subsequence(Inserted(Run(Start, steps).handled), Run(Start, steps).accepted)
  {
    var s := Run(Start, steps);
    RunKeepsInv(Start, steps);
    InsertedInOrder(s.handled);
    SubsequenceExtends(Inserted(s.handled), Events(s.handled), InProgress(s.phase) + s.queue);
  }

  /**
   * The worker leaves only after cancellation and with an empty channel: what had
   * been accepted by then was handled, and whatever is queued came later.
   */
  lemma ExitLeavesNothingBehind(steps: seq<Step>)
    requires IsRun(Start, steps) && Run(Start, steps).phase.Exited?
    ensures var s := Run(Start, steps);
      && s.cancelled
      && s.phase.accepted <= |s.accepted|
      && Events(s.handled) == s.accepted[..s.phase.accepted]
      && s.queue == s.accepted[s.phase.accepted..]
  {
    RunKeepsInv(Start, steps);
    EventsLength(Run(Start, steps).handled);
  }

  // ---------- the service ----------

  /** What a row of answers comes to: success at the first `true`, else given up after all three. */
  function Tally(e: Event, answers: seq<bool>): Outcome
    requires |answers| == ATTEMPTS
  {
    if answers[0] then Outcome(e, true, 1)
    else if answers[1] then Outcome(e, true, 2)
    else if answers[2] then Outcome(e, true, 3)
    else Outcome(e, false, 3)
  }

  lemma TallyAt(e: Event, answers: seq<bool>, i: nat)
    requires |answers| == ATTEMPTS && i < ATTEMPTS && (forall j :: 0 <= j < i ==> !answers[j])
    requires answers[i] || i + 1 == ATTEMPTS
    ensures Tally(e, answers) == Outcome(e, answers[i], i + 1)
  {
  }

  /** The producers' part of the history grew; the worker's part is as it was. */
  ghost predicate Logged(s: Audit, s': Audit, events: seq<Event>)
  {
    && s'.phase == s.phase && s'.handled == s.handled
    && s'.logged == s.logged + events && s.accepted <= s'.accepted
    && (events == [] ==> s' == s)
  }

  lemma LoggedOneMore(s: Audit, s': Audit, events: seq<Event>, e: Event)
    requires Logged(s, s', events)
    ensures Logged(s, Next(s', Log(e)), events + [e])
  {
    Regroup(s.logged, events, [e]);
  }

  /** What producers log around the attempts at one event: before each of them, and after the last. */
  type Arrivals = a: seq<seq<Event>> | |a| == ATTEMPTS + 1 witness [[], [], [], []]

  ghost predicate Silent(arrivals: Arrivals)
  {
    forall i :: 0 <= i <= ATTEMPTS ==> arrivals[i] == []
  }

  /** What is logged in turn `i`: nothing, once the producers are done. */
  function Turn(arrivals: seq<Arrivals>, i: nat): (a: Arrivals)
    ensures i >= |arrivals| ==> Silent(a)
  {
    if i < |arrivals| then arrivals[i] else [[], [], [], []]
  }

  /** After `i` failed attempts at the event in progress in `s`. */
  ghost predicate Trying(s: Audit, t: Audit, i: nat, quiet: bool)
    requires s.phase.Busy?
  {
    && t.phase == s.phase.(failed := i) && t.handled == s.handled
    && s.accepted <= t.accepted && s.logged <= t.logged
    && (quiet ==> t == s.(phase := t.phase))
  }

  /** Done with the event in progress in `s`. */
  ghost predicate Done(s: Audit, t: Audit, o: Outcome, quiet: bool)
    requires s.phase.Busy?
  {
    && t.phase == (if s.phase.draining then Draining else Polling) && t.handled == s.handled + [o]
    && s.accepted <= t.accepted && s.logged <= t.logged
    && (quiet ==> t == Finish(s, o, s.phase.draining))
  }

  lemma TryingLogged(s: Audit, t: Audit, t': Audit, i: nat, quiet: bool, events: seq<Event>)
    requires s.phase.Busy? && Trying(s, t, i, quiet) && Logged(t, t', events) && (quiet ==> events == [])
    ensures Trying(s, t', i, quiet)
  {
  }

  lemma DoneLogged(s: Audit, t: Audit, t': Audit, o: Outcome, quiet: bool, events: seq<Event>)
    requires s.phase.Busy? && Done(s, t, o, quiet) && Logged(t, t', events) && (quiet ==> events == [])
    ensures Done(s, t', o, quiet)
  {
  }

  lemma OneAttempt(s: Audit, t: Audit, i: nat, ok: bool, quiet: bool)
    requires s.phase.Busy? && Trying(s, t, i, quiet) && i < ATTEMPTS
    ensures if ok || i + 1 == ATTEMPTS then Done(s, Next(t, Attempt(ok)), Outcome(s.phase.e, ok, i + 1), quiet)
            else Trying(s, Next(t, Attempt(ok)), i + 1, quiet)
  {
  }

  lemma AttemptAndLog(s: Audit, t: Audit, t': Audit, i: nat, ok: bool, quiet: bool, events: seq<Event>)
    requires s.phase.Busy? && Trying(s, t, i, quiet) && i < ATTEMPTS && (quiet ==> events == [])
    requires Logged(Next(t, Attempt(ok)), t', events)
    ensures if ok || i + 1 == ATTEMPTS then Done(s, t', Outcome(s.phase.e, ok, i + 1), quiet)
            else Trying(s, t', i + 1, quiet)
  {
    OneAttempt(s, t, i, ok, quiet);
    if ok || i + 1 == ATTEMPTS {
      DoneLogged(s, Next(t, Attempt(ok)), t', Outcome(s.phase.e, ok, i + 1), quiet, events);
    } else {
      TryingLogged(s, Next(t, Attempt(ok)), t', i + 1, quiet, events);
    }
  }

  /** The worker got further; with no producer at work, no event came. */
  ghost predicate Further(s: Audit, s': Audit, quiet: bool)
  {
    && s.accepted <= s'.accepted && s.handled <= s'.handled
    && (quiet ==> s'.logged == s.logged && s'.accepted == s.accepted)
  }

  lemma FurtherOn(s: Audit, s': Audit, s'': Audit, quiet: bool)
    requires Further(s, s', quiet) && Further(s', s'', quiet)
    ensures Further(s, s'', quiet)
  {
  }

  class Service {
    var queue: seq<Event>
    ghost var trace: Audit

    ghost predicate Valid()
      reads this
    {
      AuditInv(trace) && trace.queue == queue
    }

    constructor ()
      ensures Valid() && trace == Start
    {
      queue, trace := [], Start;
    }

    method LogAsync(e: Event) returns (accepted: bool)
      requires Valid()
      modifies this
      ensures Valid() && trace == Next(old(trace), Log(e))
      ensures accepted == (|old(queue)| < QUEUE_SIZE)
    {
      StepKeepsInv(trace, Log(e));
      trace := Next(trace, Log(e));
      accepted := |queue| < QUEUE_SIZE;
      if accepted {
        queue := queue + [e];
      }
    }

    /** Producers at work while the worker is busy. */
    method LogAll(events: seq<Event>)
      requires Valid()
      modifies this
      ensures Valid() && Logged(old(trace), trace, events)
    {
      for i := 0 to |events|
        invariant Valid() && Logged(old(trace), trace, events[..i])
      {
        LoggedOneMore(old(trace), trace, events[..i], events[i]);
        assert events[..i + 1] == events[..i] + [events[i]];
        var _ := LogAsync(events[i]);
      }
      assert events[..|events|] == events;
    }

    method TryInsert(ok: bool)
      requires Valid() && trace.phase.Busy?
      modifies this`trace
      ensures Valid() && trace == Next(old(trace), Attempt(ok))
    {
      StepKeepsInv(trace, Attempt(ok));
      trace := Next(trace, Attempt(ok));
    }

    /** One attempt, and what producers log after it. */
    method AttemptOnce(ghost s: Audit, ghost i: nat, ok: bool, events: seq<Event>, ghost quiet: bool)
      requires Valid() && s.phase.Busy? && i < ATTEMPTS && Trying(s, trace, i, quiet) && (quiet ==> events == [])
      modifies this
      ensures Valid()
      ensures if ok || i + 1 == ATTEMPTS then Done(s, trace, Outcome(s.phase.e, ok, i + 1), quiet)
              else Trying(s, trace, i + 1, quiet)
    {
      TryInsert(ok);
      LogAll(events);
      AttemptAndLog(s, old(trace), trace, i, ok, quiet, events);
    }

    method LogBeforeAttempts(events: seq<Event>, ghost quiet: bool)
      requires Valid() && trace.phase.Busy? && trace.phase.failed == 0 && (quiet ==> events == [])
      modifies this
      ensures Valid() && Trying(old(trace), trace, 0, quiet)
    {
      LogAll(events);
      TryingLogged(old(trace), old(trace), trace, 0, quiet, events);
    }

    /** The retry loop: `answers[i]` tells whether the i-th attempt would succeed; producers log meanwhile. */
    method InsertWithRetry(answers: seq<bool>, arrivals: Arrivals)
      requires Valid() && trace.phase.Busy? && trace.phase.failed == 0 && |answers| == ATTEMPTS
      modifies this
      ensures Valid()
      ensures Done(old(trace), trace, Tally(old(trace.phase.e), answers), Silent(arrivals))
    {
      ghost var s, quiet := trace, Silent(arrivals);
      LogBeforeAttempts(arrivals[0], quiet);
      var i := 0;
      while i + 1 < ATTEMPTS && !answers[i]
        invariant 0 <= i < ATTEMPTS && forall j :: 0 <= j < i ==> !answers[j]
        invariant Valid() && Trying(s, trace, i, quiet)
      {
        AttemptOnce(s, i, false, arrivals[i + 1], quiet);
        i := i + 1;
      }
      AttemptOnce(s, i, answers[i], arrivals[ATTEMPTS], quiet);
      TallyAt(s.phase.e, answers, i);
    }

    /** One turn of the drain loop. */
    method DrainOne(answers: seq<bool>, arrivals: Arrivals)
      requires Valid() && trace.phase.Draining? && queue != [] && |answers| == ATTEMPTS
      modifies this
      ensures Valid() && trace.phase.Draining?
      ensures trace.handled == old(trace.handled) + [Tally(old(queue)[0], answers)]
      ensures Further(old(trace), trace, Silent(arrivals)) && (Silent(arrivals) ==> queue == old(queue)[1..])
    {
      StepKeepsInv(trace, Receive);
      trace := Next(trace, Receive);
      queue := queue[1..];
      InsertWithRetry(answers, arrivals);
    }

    method LeaveWhenEmpty()
      requires Valid() && trace.phase.Draining? && queue == []
      modifies this`trace
      ensures Valid() && trace.phase.Exited?
      ensures trace.accepted == old(trace.accepted) == Events(trace.handled)
      ensures trace.handled == old(trace.handled) && trace.logged == old(trace.logged)
    {
      StepKeepsInv(trace, Leave);
      trace := Next(trace, Leave);
    }

    /**
     * The drain loop after cancellation. In turn i the inserts answer as `answers(i)`
     * says, and producers still at work log `arrivals[i]`, in any places between the
     * worker's steps. The worker leaves with the channel empty and everything
     * accepted so far handled.
     */
    method Drain(answers: nat -> seq<bool>, arrivals: seq<Arrivals>)
      requires Valid() && trace.phase.Draining?
      requires forall i: nat :: |answers(i)| == ATTEMPTS
      modifies this
      ensures Valid() && queue == [] && trace.phase.Exited?
      ensures trace.accepted == Events(trace.handled)
      ensures Further(old(trace), trace, arrivals == [])
    {
      var i: nat := 0;
      while queue != []
        invariant Valid() && trace.phase.Draining?
        invariant Further(old(trace), trace, arrivals == [])
        decreases if i < |arrivals| then |arrivals| - i else 0, |queue|
      {
        ghost var s := trace;
        DrainOne(answers(i), Turn(arrivals, i));
        FurtherOn(old(trace), s, trace, arrivals == []);
        i := i + 1;
      }
      LeaveWhenEmpty();
    }
  }
}
