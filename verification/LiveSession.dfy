/**
 * The pull queue of `LiveSession` (sdk/typescript/src/streaming.ts): buffered events, waiting
 * consumers, close, and user callbacks that may re-enter the session.
 *
 * Every `next()` call gets a ticket; a reply resolves the promise of one ticket. JavaScript
 * runs each handler to completion, so an execution is a sequence of the primitive steps
 * `Pull`, `Shut` and `Deliver`; callbacks only insert more of them.
 */
module LiveSession {
  import opened Common

  datatype CloseReason = ClientClose | ServerClose | TransportError

  datatype Reply<E> = Value(event: E) | Done

  datatype Answer<E> = Answer(ticket: nat, reply: Reply<E>)

  /**
   * The session's fields, plus the observable history: answers given, events that entered
   * pull-mode delivery, and the reasons passed to `onClose`.
   */
  datatype State<E> = State(
    buffer: seq<E>,
    waiters: seq<nat>,
    closed: bool,
    reason: Option<CloseReason>,
    tickets: nat,
    answers: seq<Answer<E>>,
    enqueued: seq<E>,
    onCloseCalls: seq<CloseReason>)

  function Fresh<E>(): State<E> { State([], [], false, None, 0, [], [], []) }

  datatype Step<E> = Pull | Shut(why: CloseReason) | Deliver(event: E)

  function PullStep<E>(s: State<E>): State<E>
  {
    var mine := s.tickets;
    var t := s.(tickets := s.tickets + 1);
    if s.buffer != [] then t.(buffer := s.buffer[1..], answers := s.answers + [Answer(mine, Value(s.buffer[0]))])
    else if s.closed then t.(answers := s.answers + [Answer(mine, Done)])
    else t.(waiters := s.waiters + [mine])
  }

  function DeliverStep<E>(s: State<E>, e: E): State<E>
  {
    var t := s.(enqueued := s.enqueued + [e]);
    if s.waiters != [] then t.(waiters := s.waiters[1..], answers := s.answers + [Answer(s.waiters[0], Value(e))])
    else t.(buffer := s.buffer + [e])
  }

  function AllDone<E>(waiters: seq<nat>): seq<Answer<E>>
  {
    seq(|waiters|, i requires 0 <= i < |waiters| => Answer(waiters[i], Done))
  }

  function ShutStep<E>(s: State<E>, why: CloseReason): State<E>
  {
    if s.closed then s
    else s.(closed := true, reason := Some(why), waiters := [], answers := s.answers + AllDone(s.waiters),
            onCloseCalls := s.onCloseCalls + [why])
  }

  function Apply<E>(s: State<E>, step: Step<E>): State<E>
  {
    match step
    case Pull => PullStep(s)
    case Shut(why) => ShutStep(s, why)
    case Deliver(e) => DeliverStep(s, e)
  }

  function Run<E>(s: State<E>, steps: seq<Step<E>>): State<E>
  {
    if steps == [] then s else Apply(Run(s, Front(steps)), Last(steps))
  }

  // ---------------------------------------------------------------- re-entrant callbacks

  /** What a user callback may do to its own session. */
  datatype Action = CallNext | CallClose

  function Act<E>(s: State<E>, action: Action, onClose: seq<Action>): (t: State<E>)
    ensures s.closed ==> t.closed
    decreases !s.closed, 0, 2
  {
    match action
    case CallNext => PullStep(s)
    case CallClose => HandleCloseStep(s, ClientClose, onClose)
  }

  function Perform<E>(s: State<E>, script: seq<Action>, onClose: seq<Action>): (t: State<E>)
    ensures s.closed ==> t.closed
    decreases !s.closed, |script|, 3
  {
    if script == [] then s else Perform(Act(s, script[0], onClose), script[1..], onClose)
  }

  /** `#handleClose`, including what the `onClose` callback then does. */
  function HandleCloseStep<E>(s: State<E>, why: CloseReason, onClose: seq<Action>): (t: State<E>)
    ensures t.closed
    decreases !s.closed, 0, 1
  {
    if s.closed then s else Perform(ShutStep(s, why), onClose, onClose)
  }

  /** `#dispatch`: the `onEvent` callback runs first, then pull-mode delivery. */
  function DispatchStep<E>(s: State<E>, e: E, onEvent: seq<Action>, onClose: seq<Action>): State<E>
  {
    DeliverStep(Perform(s, onEvent, onClose), e)
  }

  class Session<E> {
    const onEvent: seq<Action>
    const onClose: seq<Action>
    var buffer: seq<E>
    var pendingResolvers: seq<nat>
    var closed: bool
    var closeReason: Option<CloseReason>
    var tickets: nat
    ghost var answers: seq<Answer<E>>
    ghost var enqueued: seq<E>
    ghost var onCloseCalls: seq<CloseReason>

    ghost function View(): State<E>
      reads this
    {
      State(buffer, pendingResolvers, closed, closeReason, tickets, answers, enqueued, onCloseCalls)
    }

    constructor (onEvent: seq<Action>, onClose: seq<Action>)
      ensures View() == Fresh() && this.onEvent == onEvent && this.onClose == onClose
    {
      this.onEvent := onEvent;
      this.onClose := onClose;
      buffer, pendingResolvers, closed, closeReason, tickets := [], [], false, None, 0;
      answers, enqueued, onCloseCalls := [], [], [];
    }

    method Next() returns (ticket: nat)
      modifies this
      ensures View() == PullStep(old(View())) && ticket == old(tickets)
    {
      ticket := tickets;
      tickets := tickets + 1;
      if buffer != [] {
        answers := answers + [Answer(ticket, Value(buffer[0]))];
        buffer := buffer[1..];
        return;
      }
      if closed {
        answers := answers + [Answer(ticket, Done)];
        return;
      }
      pendingResolvers := pendingResolvers + [ticket];
    }

    method RunCallback(script: seq<Action>)
      modifies this
      ensures View() == Perform(old(View()), script, onClose)
      ensures old(closed) ==> closed
      decreases !closed, |script|, 3
    {
      if script == [] {
        return;
      }
      match script[0] {
        case CallNext => var _ := Next();
        case CallClose => Close();
      }
      RunCallback(script[1..]);
    }

    /** The drain loop of `#handleClose`: every waiting consumer gets a clean done, in order. */
    method DrainPending()
      modifies this`pendingResolvers, this`answers
      ensures pendingResolvers == [] && answers == old(answers) + AllDone(old(pendingResolvers))
    {
      ghost var waiting := pendingResolvers;
      while pendingResolvers != []
        invariant |pendingResolvers| <= |waiting| && pendingResolvers == waiting[|waiting| - |pendingResolvers|..]
        invariant answers == old(answers) + AllDone(waiting[..|waiting| - |pendingResolvers|])
        decreases |pendingResolvers|
      {
        ghost var n := |waiting| - |pendingResolvers|;
        var r := pendingResolvers[0];
        pendingResolvers := pendingResolvers[1..];
        answers := answers + [Answer(r, Done)];
        assert waiting[..n + 1] == waiting[..n] + [r];
        assert AllDone<E>(waiting[..n + 1]) == AllDone<E>(waiting[..n]) + [Answer(r, Done)];
      }
      assert waiting[..|waiting|] == waiting;
    }

    method HandleClose(why: CloseReason)
      modifies this
      ensures View() == HandleCloseStep(old(View()), why, onClose)
      ensures closed
      decreases !closed, 0, 1
    {
      if closed {
        return;
      }
      closed := true;
      closeReason := Some(why);
      DrainPending();
      onCloseCalls := onCloseCalls + [why];
      assert View() == ShutStep(old(View()), why);
      RunCallback(onClose);
    }

    method Close()
      modifies this
      ensures View() == HandleCloseStep(old(View()), ClientClose, onClose)
      ensures closed
      decreases !closed, 0, 2
    {
      if closed {
        return;
      }
      HandleClose(ClientClose);
    }

    method Dispatch(event: E)
      modifies this
      ensures View() == DispatchStep(old(View()), event, onEvent, onClose)
    {
      RunCallback(onEvent);
      enqueued := enqueued + [event];
      if pendingResolvers != [] {
        var pending := pendingResolvers[0];
        pendingResolvers := pendingResolvers[1..];
        answers := answers + [Answer(pending, Value(event))];
      } else {
        buffer := buffer + [event];
      }
    }
  }

  // ---------------------------------------------------------------- callbacks add nothing new

  lemma {:induction false} RunConcat<E>(s: State<E>, xs: seq<Step<E>>, ys: seq<Step<E>>)
    ensures Run(s, xs + ys) == Run(Run(s, xs), ys)
    decreases |ys|
  {
    if ys == [] {
      assert xs + ys == xs;
    } else {
      assert Front(xs + ys) == xs + Front(ys) && Last(xs + ys) == Last(ys);
      RunConcat(s, xs, Front(ys));
    }
  }

  lemma {:induction false} RunOne<E>(s: State<E>, step: Step<E>)
    ensures Run(s, [step]) == Apply(s, step)
  {
    assert Front([step]) == [];
    assert Run(s, []) == s;
  }

  /** The primitive steps a callback amounts to: `close()` does nothing to a closed session. */
  function ScriptSteps<E>(closed: bool, script: seq<Action>, onClose: seq<Action>): seq<Step<E>>
    decreases !closed, |script|
  {
    if script == [] then []
    else if script[0] == CallNext then [Pull] + ScriptSteps(closed, script[1..], onClose)
    else if closed then ScriptSteps(true, script[1..], onClose)
    else [Shut(ClientClose)] + ScriptSteps(true, onClose, onClose) + ScriptSteps(true, script[1..], onClose)
  }

  /** Whatever a callback does, re-entering `close()` included, is that sequence of primitive steps. */
  lemma {:induction false} PerformIsRun<E>(s: State<E>, script: seq<Action>, onClose: seq<Action>)
    ensures Perform(s, script, onClose) == Run(s, ScriptSteps(s.closed, script, onClose))
    decreases !s.closed, |script|
  {
    if script != [] {
      var t, rest := Act(s, script[0], onClose), ScriptSteps<E>(s.closed || script[0] == CallClose, script[1..], onClose);
      PerformIsRun(t, script[1..], onClose);
      if script[0] == CallNext {
        RunOne(s, Pull);
        RunConcat(s, [Pull], rest);
      } else if !s.closed {
        var after := ScriptSteps<E>(true, onClose, onClose);
        CloseIsRun(s, ClientClose, onClose);
        RunConcat(s, [Shut(ClientClose)] + after, rest);
      } else {
        assert HandleCloseStep(s, ClientClose, onClose) == s;
      }
    }
  }

  lemma {:induction false} CloseIsRun<E>(s: State<E>, why: CloseReason, onClose: seq<Action>)
    requires !s.closed
    ensures HandleCloseStep(s, why, onClose) == Run(s, [Shut(why)] + ScriptSteps(true, onClose, onClose))
    decreases !s.closed, 0
  {
    PerformIsRun(ShutStep(s, why), onClose, onClose);
    RunOne(s, Shut(why));
    RunConcat(s, [Shut(why)], ScriptSteps(true, onClose, onClose));
  }

  /** What reaches a session from outside; a received event comes with what its callback then does. */
  datatype Call<E> = NextCalled | Received(event: E, onEvent: seq<Action>) | CloseCalled(why: CloseReason)

  function Invoke<E>(s: State<E>, call: Call<E>, onClose: seq<Action>): State<E>
  {
    match call
    case NextCalled => PullStep(s)
    case Received(e, onEvent) => DispatchStep(s, e, onEvent, onClose)
    case CloseCalled(why) => HandleCloseStep(s, why, onClose)
  }

  function RunCalls<E>(calls: seq<Call<E>>, onClose: seq<Action>): State<E>
  {
    if calls == [] then Fresh() else Invoke(RunCalls(Front(calls), onClose), Last(calls), onClose)
  }

  function CallSteps<E>(closed: bool, call: Call<E>, onClose: seq<Action>): seq<Step<E>>
  {
    match call
    case NextCalled => [Pull]
    case Received(e, onEvent) => ScriptSteps(closed, onEvent, onClose) + [Deliver(e)]
    case CloseCalled(why) => if closed then [] else [Shut(why)] + ScriptSteps(true, onClose, onClose)
  }

  lemma {:induction false} InvokeIsRun<E>(s: State<E>, call: Call<E>, onClose: seq<Action>)
    ensures Invoke(s, call, onClose) == Run(s, CallSteps(s.closed, call, onClose))
  {
    match call
    case NextCalled => RunOne(s, Pull);
    case Received(e, onEvent) =>
      var before := ScriptSteps<E>(s.closed, onEvent, onClose);
      PerformIsRun(s, onEvent, onClose);
      RunConcat(s, before, [Deliver(e)]);
      RunOne(Run(s, before), Deliver(e));
    case CloseCalled(why) =>
      if !s.closed {
        CloseIsRun(s, why, onClose);
      }
  }

  predicate HasShut<E>(steps: seq<Step<E>>)
  {
    exists i :: 0 <= i < |steps| && steps[i].Shut?
  }

  /** All the primitive steps of a sequence of calls, callbacks included. */
  function Trace<E>(calls: seq<Call<E>>, onClose: seq<Action>): seq<Step<E>>
  {
    if calls == [] then []
    else
      var earlier := Trace(Front(calls), onClose);
      earlier + CallSteps(HasShut(earlier), Last(calls), onClose)
  }

  lemma {:induction false} ClosedIffShut<E>(steps: seq<Step<E>>)
    ensures Run(Fresh<E>(), steps).closed <==> HasShut(steps)
    decreases |steps|
  {
    if steps != [] {
      ClosedIffShut(Front(steps));
      assert HasShut(steps) <==> HasShut(Front(steps)) || Last(steps).Shut? by {
        if HasShut(Front(steps)) {
          var i :| 0 <= i < |Front(steps)| && Front(steps)[i].Shut?;
          assert steps[i].Shut?;
        }
      }
    }
  }

  /** Every sequence of calls is a run of the primitive steps of its trace. */
  lemma {:induction false} CallsAreRun<E>(calls: seq<Call<E>>, onClose: seq<Action>)
    ensures RunCalls(calls, onClose) == Run(Fresh<E>(), Trace(calls, onClose))
    decreases |calls|
  {
    if calls != [] {
      var earlier := Trace(Front(calls), onClose);
      var s := Run(Fresh<E>(), earlier);
      CallsAreRun(Front(calls), onClose);
      ClosedIffShut(earlier);
      InvokeIsRun(s, Last(calls), onClose);
      RunConcat(Fresh<E>(), earlier, CallSteps(s.closed, Last(calls), onClose));
    }
  }

  // ---------------------------------------------------------------- the queue law

  function Values<E>(answers: seq<Answer<E>>): seq<E>
  {
    if answers == [] then []
    else Values(Front(answers)) + if Last(answers).reply.Value? then [Last(answers).reply.event] else []
  }

  predicate Queue<E(==)>(s: State<E>)
  {
    && (s.buffer == [] || s.waiters == [])
    && (s.closed ==> s.waiters == [])
    && Values(s.answers) + s.buffer == s.enqueued
  }

  /** Tickets are answered in the order they were issued, each at most once. */
  predicate InTicketOrder<E>(s: State<E>)
  {
    && s.tickets == |s.answers| + |s.waiters|
    && (forall i :: 0 <= i < |s.answers| ==> s.answers[i].ticket == i)
    && (forall i :: 0 <= i < |s.waiters| ==> s.waiters[i] == |s.answers| + i)
  }

  predicate ClosedOnce<E>(s: State<E>)
  {
    && (s.closed <==> s.reason.Some?)
    && s.onCloseCalls == (if s.closed && s.reason.Some? then [s.reason.value] else [])
  }

  lemma {:induction false} ValuesOfDone<E>(answers: seq<Answer<E>>, waiters: seq<nat>)
    ensures Values(answers + AllDone(waiters)) == Values(answers)
    decreases |waiters|
  {
    var all := answers + AllDone<E>(waiters);
    if waiters == [] {
      assert all == answers;
    } else {
      assert Front(all) == answers + AllDone(Front(waiters));
      ValuesOfDone(answers, Front(waiters));
    }
  }

  lemma {:induction false} ValuesSnoc<E>(answers: seq<Answer<E>>, a: Answer<E>)
    ensures Values(answers + [a]) == Values(answers) + if a.reply.Value? then [a.reply.event] else []
  {
    assert Front(answers + [a]) == answers;
  }

  lemma {:induction false} PullKeepsQueue<E>(s: State<E>)
    requires Queue(s)
    ensures Queue(PullStep(s))
  {
    if s.buffer != [] {
      var head, rest := s.buffer[0], s.buffer[1..];
      ValuesSnoc(s.answers, Answer(s.tickets, Value(head)));
      assert s.buffer == [head] + rest;
      assert Values(s.answers) + ([head] + rest) == (Values(s.answers) + [head]) + rest;
    } else if s.closed {
      ValuesSnoc(s.answers, Answer(s.tickets, Done));
    }
  }

  lemma {:induction false} DeliverKeepsQueue<E>(s: State<E>, e: E)
    requires Queue(s)
    ensures Queue(DeliverStep(s, e))
  {
    if s.waiters != [] {
      ValuesSnoc(s.answers, Answer(s.waiters[0], Value(e)));
    } else {
      assert Values(s.answers) + (s.buffer + [e]) == (Values(s.answers) + s.buffer) + [e];
    }
  }

  lemma {:induction false} StepKeepsQueue<E>(s: State<E>, step: Step<E>)
    requires Queue(s)
    ensures Queue(Apply(s, step))
  {
    match step
    case Pull => PullKeepsQueue(s);
    case Shut(_) => ValuesOfDone(s.answers, s.waiters);
    case Deliver(e) => DeliverKeepsQueue(s, e);
  }

  lemma {:induction false} StepKeepsTickets<E>(s: State<E>, step: Step<E>)
    requires InTicketOrder(s) && (s.buffer == [] || s.waiters == []) && (s.closed ==> s.waiters == [])
    ensures InTicketOrder(Apply(s, step))
  {
  }

  /**
   * In every execution: buffer and waiters are never both non-empty, the values handed out
   * followed by the buffer are the enqueued events in order, tickets are answered in order and
   * once, and `onClose` fires at most once, with the recorded reason.
   */
  lemma {:induction false} EveryRunKeepsTheQueue<E>(steps: seq<Step<E>>)
    ensures var s := Run(Fresh<E>(), steps);
            Queue(s) && InTicketOrder(s) && ClosedOnce(s)
    decreases |steps|
  {
    if steps != [] {
      EveryRunKeepsTheQueue(Front(steps));
      var s := Run(Fresh<E>(), Front(steps));
      StepKeepsQueue(s, Last(steps));
      StepKeepsTickets(s, Last(steps));
    }
  }

  // ---------------------------------------------------------------- why a session closed

  /** The reason of the first close of a run, if any. */
  function FirstShut<E>(steps: seq<Step<E>>): Option<CloseReason>
  {
    if steps == [] then None
    else
      var earlier := FirstShut(Front(steps));
      if earlier.None? && Last(steps).Shut? then Some(Last(steps).why) else earlier
  }

  /** In every run the recorded reason and the one call of `onClose` carry the reason of the first close. */
  lemma {:induction false} ReasonIsFirstShut<E>(steps: seq<Step<E>>)
    ensures var s := Run(Fresh<E>(), steps);
            && s.reason == FirstShut(steps)
            && s.onCloseCalls == (if FirstShut(steps).Some? then [FirstShut(steps).value] else [])
            && (s.closed <==> FirstShut(steps).Some?)
    decreases |steps|
  {
    if steps != [] {
      ReasonIsFirstShut(Front(steps));
    }
  }

  lemma {:induction false} FirstShutAt<E>(steps: seq<Step<E>>, n: nat)
    requires n <= |steps| && (forall i :: 0 <= i < n ==> !steps[i].Shut?)
    requires n < |steps| ==> steps[n].Shut?
    ensures FirstShut(steps) == if n < |steps| then Some(steps[n].why) else None
    decreases |steps|
  {
    if steps != [] {
      assert forall i :: 0 <= i < |steps| - 1 ==> Front(steps)[i] == steps[i];
      FirstShutAt(Front(steps), if n < |steps| then n else n - 1);
    }
  }

  /** Spelled out: if step `n` is the first close, its reason is the one recorded and reported. */
  lemma {:induction false} FirstCloseWins<E>(steps: seq<Step<E>>, n: nat)
    requires n <= |steps| && (forall i :: 0 <= i < n ==> !steps[i].Shut?)
    requires n < |steps| ==> steps[n].Shut?
    ensures var s := Run(Fresh<E>(), steps);
            && s.reason == (if n < |steps| then Some(steps[n].why) else None)
            && s.onCloseCalls == (if n < |steps| then [steps[n].why] else [])
  {
    ReasonIsFirstShut(steps);
    FirstShutAt(steps, n);
  }

  lemma {:induction false} FirstShutConcat<E>(xs: seq<Step<E>>, ys: seq<Step<E>>)
    ensures FirstShut(xs + ys) == if FirstShut(xs).Some? then FirstShut(xs) else FirstShut(ys)
    decreases |ys|
  {
    if ys == [] {
      assert xs + ys == xs;
    } else {
      assert Front(xs + ys) == xs + Front(ys) && Last(xs + ys) == Last(ys);
      FirstShutConcat(xs, Front(ys));
    }
  }

  lemma {:induction false} FirstShutOne<E>(step: Step<E>)
    ensures FirstShut([step]) == if step.Shut? then Some(step.why) else None
  {
    assert Front([step]) == [];
  }

  /** A callback closes an open session, as the client, exactly if it calls `close()`. */
  lemma {:induction false} ScriptFirstShut<E>(script: seq<Action>, onClose: seq<Action>)
    ensures FirstShut(ScriptSteps<E>(false, script, onClose)) == if CallClose in script then Some(ClientClose) else None
    decreases |script|
  {
    if script != [] {
      if script[0] == CallNext {
        ScriptFirstShut<E>(script[1..], onClose);
        FirstShutOne<E>(Pull);
        FirstShutConcat([Pull], ScriptSteps<E>(false, script[1..], onClose));
        assert script == [CallNext] + script[1..];
      } else {
        var after := ScriptSteps<E>(true, onClose, onClose);
        FirstShutOne<E>(Shut(ClientClose));
        FirstShutConcat([Shut(ClientClose)], after);
        FirstShutConcat([Shut(ClientClose)] + after, ScriptSteps<E>(true, script[1..], onClose));
      }
    }
  }

  /** What closes an open session: a close from outside, or a callback that calls `close()`. */
  function Closer<E>(call: Call<E>): Option<CloseReason>
  {
    match call
    case NextCalled => None
    case Received(_, onEvent) => if CallClose in onEvent then Some(ClientClose) else None
    case CloseCalled(why) => Some(why)
  }

  function FirstCloser<E>(calls: seq<Call<E>>): Option<CloseReason>
  {
    if calls == [] then None
    else
      var earlier := FirstCloser(Front(calls));
      if earlier.Some? then earlier else Closer(Last(calls))
  }

  lemma {:induction false} CallFirstShut<E>(call: Call<E>, onClose: seq<Action>)
    ensures FirstShut(CallSteps(false, call, onClose)) == Closer(call)
  {
    match call
    case NextCalled => FirstShutOne<E>(Pull);
    case Received(e, onEvent) =>
      ScriptFirstShut<E>(onEvent, onClose);
      FirstShutOne<E>(Deliver(e));
      FirstShutConcat(ScriptSteps<E>(false, onEvent, onClose), [Deliver(e)]);
    case CloseCalled(why) =>
      FirstShutOne<E>(Shut(why));
      FirstShutConcat([Shut(why)], ScriptSteps<E>(true, onClose, onClose));
  }

  lemma {:induction false} TraceFirstShut<E>(calls: seq<Call<E>>, onClose: seq<Action>)
    ensures FirstShut(Trace(calls, onClose)) == FirstCloser(calls)
    decreases |calls|
  {
    if calls != [] {
      var earlier := Trace(Front(calls), onClose);
      TraceFirstShut(Front(calls), onClose);
      FirstShutConcat(earlier, CallSteps(HasShut(earlier), Last(calls), onClose));
      ClosedIffShut(earlier);
      ReasonIsFirstShut(earlier);
      if !HasShut(earlier) {
        CallFirstShut(Last(calls), onClose);
      }
    }
  }

  /** For every sequence of outside calls: the reason is that of the first call that closes, client if a callback did. */
  lemma {:induction false} CallsReason<E>(calls: seq<Call<E>>, onClose: seq<Action>)
    ensures var s := RunCalls(calls, onClose);
            && s.reason == FirstCloser(calls)
            && s.onCloseCalls == (if FirstCloser(calls).Some? then [FirstCloser(calls).value] else [])
  {
    CallsAreRun(calls, onClose);
    ReasonIsFirstShut(Trace(calls, onClose));
    TraceFirstShut(calls, onClose);
  }

  /** Some answer given by this step, and not before, is `done`. */
  predicate GivesDone<E>(before: State<E>, after: State<E>)
  {
    |before.answers| <= |after.answers| &&
    exists i :: |before.answers| <= i < |after.answers| && after.answers[i].reply.Done?
  }

  /** `done` is given only by a closed session when every enqueued event has been handed out. */
  lemma {:induction false} DoneOnlyWhenDrained<E>(steps: seq<Step<E>>, step: Step<E>)
    ensures var before := Run(Fresh<E>(), steps);
            GivesDone(before, Apply(before, step)) ==>
              && Apply(before, step).closed
              && Values(before.answers) == before.enqueued == Apply(before, step).enqueued
  {
    EveryRunKeepsTheQueue(steps);
  }

  // ---------------------------------------------------------------- is done final?

  predicate SomeDone<E>(s: State<E>)
  {
    exists i :: 0 <= i < |s.answers| && s.answers[i].reply.Done?
  }

  /** No value follows a `done`. */
  predicate DoneIsFinal<E>(answers: seq<Answer<E>>)
  {
    forall i, j :: 0 <= i < j < |answers| && answers[i].reply.Done? ==> answers[j].reply.Done?
  }

  function Pulls<E>(steps: seq<Step<E>>): nat
  {
    if steps == [] then 0 else Pulls(Front(steps)) + if Last(steps).Pull? then 1 else 0
  }

  function Delivers<E>(steps: seq<Step<E>>): nat
  {
    if steps == [] then 0 else Delivers(Front(steps)) + if Last(steps).Deliver? then 1 else 0
  }

  /** Step `n` delivers an event after a close, when more has been asked for than was delivered. */
  predicate LateAt<E>(steps: seq<Step<E>>, n: nat)
    requires n < |steps|
  {
    steps[n].Deliver? && HasShut(steps[..n]) && Pulls(steps[..n]) > Delivers(steps[..n])
  }

  predicate LateEvent<E>(steps: seq<Step<E>>)
  {
    exists n :: 0 <= n < |steps| && LateAt(steps, n)
  }

  /** A late event is delivered and something is asked for after it. */
  predicate LateEventPulled<E>(steps: seq<Step<E>>)
  {
    exists n, m :: 0 <= n < m < |steps| && LateAt(steps, n) && steps[m].Pull?
  }

  lemma {:induction false} CountsAre<E>(steps: seq<Step<E>>)
    ensures var s := Run(Fresh<E>(), steps);
            s.tickets == Pulls(steps) && |s.enqueued| == Delivers(steps)
    decreases |steps|
  {
    if steps != [] {
      CountsAre(Front(steps));
    }
  }

  lemma {:induction false} ValuesCount<E>(answers: seq<Answer<E>>)
    ensures |Values(answers)| <= |answers|
    ensures |Values(answers)| == |answers| <==> forall i :: 0 <= i < |answers| ==> answers[i].reply.Value?
    decreases |answers|
  {
    if answers != [] {
      ValuesCount(Front(answers));
      assert forall i :: 0 <= i < |answers| - 1 ==> Front(answers)[i] == answers[i];
    }
  }

  /** In a closed session with nothing buffered, some consumer was told `done` exactly if more was asked for than delivered. */
  lemma {:induction false} SomeDoneIff<E>(steps: seq<Step<E>>)
    requires Run(Fresh<E>(), steps).closed
    ensures var s := Run(Fresh<E>(), steps);
            && (Pulls(steps) > Delivers(steps) ==> SomeDone(s))
            && (s.buffer == [] && SomeDone(s) ==> Pulls(steps) > Delivers(steps))
  {
    EveryRunKeepsTheQueue(steps);
    CountsAre(steps);
    ValuesCount(Run(Fresh<E>(), steps).answers);
  }

  lemma {:induction false} LateSnoc<E>(steps: seq<Step<E>>)
    requires steps != []
    ensures LateAt(steps, |steps| - 1) <==>
            Last(steps).Deliver? && HasShut(Front(steps)) && Pulls(Front(steps)) > Delivers(Front(steps))
    ensures LateEvent(steps) <==> LateEvent(Front(steps)) || LateAt(steps, |steps| - 1)
    ensures LateEventPulled(steps) <==> LateEventPulled(Front(steps)) || (LateEvent(Front(steps)) && Last(steps).Pull?)
  {
    var init := Front(steps);
    assert steps[..|init|] == init;
    assert forall n :: 0 <= n < |init| ==> init[..n] == steps[..n] && init[n] == steps[n];
    assert forall n :: 0 <= n < |init| ==> (LateAt(init, n) <==> LateAt(steps, n));
  }

  /** What the answers and the buffer look like, with and without late events so far. */
  predicate Phase<E>(s: State<E>, late: bool, pulled: bool)
  {
    && (DoneIsFinal(s.answers) <==> !pulled)
    && (!late ==> (SomeDone(s) ==> s.closed && s.buffer == []))
    && (late && !pulled ==> SomeDone(s) && s.closed && s.buffer != [])
  }

  lemma {:induction false} StepKeepsPhase<E>(s: State<E>, step: Step<E>, late: bool, pulled: bool)
    requires Phase(s, late, pulled) && (pulled ==> late)
    requires (s.buffer == [] || s.waiters == []) && (s.closed ==> s.waiters == [])
    ensures var nowLate := late || (step.Deliver? && s.closed && SomeDone(s));
            Phase(Apply(s, step), nowLate, pulled || (late && step.Pull?))
  {
    var t := Apply(s, step);
    assert s.answers <= t.answers;
    assert forall i :: 0 <= i < |s.answers| ==> t.answers[i] == s.answers[i];
    if SomeDone(s) {
      var i :| 0 <= i < |s.answers| && s.answers[i].reply.Done?;
      assert t.answers[i].reply.Done?;
      if late && step.Pull? && !pulled {
        assert t.answers[|s.answers|].reply.Value?;
      }
    }
    if pulled {
      var i, j :| 0 <= i < j < |s.answers| && s.answers[i].reply.Done? && !s.answers[j].reply.Done?;
      assert t.answers[i].reply.Done? && !t.answers[j].reply.Done?;
    }
  }

  lemma {:induction false} EveryRunKeepsPhase<E>(steps: seq<Step<E>>)
    ensures Phase(Run(Fresh<E>(), steps), LateEvent(steps), LateEventPulled(steps))
    decreases |steps|
  {
    if steps != [] {
      var init := Front(steps);
      var s := Run(Fresh<E>(), init);
      EveryRunKeepsPhase(init);
      EveryRunKeepsTheQueue(init);
      LateSnoc(steps);
      ClosedIffShut(init);
      if s.closed {
        SomeDoneIff(init);
      }
      StepKeepsPhase(s, Last(steps), LateEvent(init), LateEventPulled(init));
    }
  }

  /**
   * The iterator contract "after done, only done" holds of a run if and only if nothing was
   * asked for after an event that was delivered late: after a close, with more asked for than
   * delivered before it.
   */
  lemma {:induction false} DoneFinalIff<E>(steps: seq<Step<E>>)
    ensures DoneIsFinal(Run(Fresh<E>(), steps).answers) <==> !LateEventPulled(steps)
  {
    EveryRunKeepsPhase(steps);
  }

  /**
   * Both laws for every sequence of outside calls, whatever the callbacks do: the queue law, and
   * `done` is final exactly if no late event of the trace is followed by a pull.
   */
  lemma {:induction false} EveryCallKeepsTheQueue<E>(calls: seq<Call<E>>, onClose: seq<Action>)
    ensures var s := RunCalls(calls, onClose);
            && Queue(s) && InTicketOrder(s) && ClosedOnce(s)
            && (DoneIsFinal(s.answers) <==> !LateEventPulled(Trace(calls, onClose)))
  {
    CallsAreRun(calls, onClose);
    EveryRunKeepsTheQueue(Trace(calls, onClose));
    DoneFinalIff(Trace(calls, onClose));
  }

  /**
   * It does fail: an `onEvent` callback that closes the session makes the waiting consumer see
   * `done`, and the very event being dispatched is then handed to the next one.
   */
  lemma {:induction false} ReentrantCloseYieldsAfterDone<E>(e: E)
    ensures var s := PullStep(DispatchStep(PullStep(Fresh<E>()), e, [CallClose], []));
            s.answers == [Answer(0, Done), Answer(1, Value(e))]
  {
    var waiting := PullStep(Fresh<E>());
    assert waiting.waiters == [0];
    var shut := ShutStep(waiting, ClientClose);
    assert AllDone<E>([0]) == [Answer(0, Done)];
    assert Perform(shut, [], []) == shut;
    assert Act(waiting, CallClose, []) == shut;
    assert [CallClose][1..] == [];
    assert Perform(waiting, [CallClose], []) == Perform(shut, [], []);
    var delivered := DeliverStep(shut, e);
    assert delivered.buffer == [e];
  }
}
