/**
  Broadcast with replay (agently/utils/GeneratorConsumer.py:30-145 and :204-238): one source, any number of
  subscribers that may join late. Putting on an unbounded queue never suspends, so a broadcast, and a
  subscription with its replay, are each one atomic step; the steps interleave freely.
 */
module Broadcast {
  import opened Chars

  datatype Message<T, E> = Item(value: T) | Error(error: E) | Sentinel

  /** How a subscriber's generator ended. */
  datatype Ending<E> = Live | Finished | Raised(error: E) | Left

  datatype Listener<T, E> = Listener(delivered: seq<T>, queue: seq<Message<T, E>>, ending: Ending<E>)

  /** The consumer coroutine: not created, in the source's loop, past the loop, or over. */
  datatype Phase = NotStarted | Running | Closing | Over

  datatype State<T, E> = State(
    /** The source is a plain generator, which `close` does not close. */
    sync: bool,
    history: seq<T>,
    listeners: seq<Listener<T, E>>,
    phase: Phase,
    exception: Option<E>,
    done: bool,
    closed: bool,
    generatorClosed: bool,
    sourceClosed: bool)

  datatype Step<T, E> =
    | Start                  // `get_result` creates the consumer coroutine
    | Subscribe              // `get_async_generator`, up to its first wait
    | Emit(value: T)         // the source yields
    | Fail(error: E)         // the source raises
    | EndSource              // the source is exhausted, or its coroutine is cancelled
    | Finish                 // the rest of the consumer coroutine
    | CloseBegin             // `close`, up to waiting for the consumer
    | CloseEnd               // the rest of `close`
    | Deliver(id: nat)       // a subscriber takes the next message
    | Leave(id: nat)         // a subscriber stops early

  function Init<T, E>(sync: bool): State<T, E> {
    State(sync, [], [], NotStarted, None, false, false, false, false)
  }

  /** `_broadcast` to the queues that are still listed. */
  function Put<T, E>(listeners: seq<Listener<T, E>>, m: Message<T, E>): (r: seq<Listener<T, E>>)
    ensures |r| == |listeners|
  {
    seq(|listeners|, i requires 0 <= i < |listeners| =>
      if listeners[i].ending.Live? then listeners[i].(queue := listeners[i].queue + [m]) else listeners[i])
  }

  function Items<T, E>(values: seq<T>): (r: seq<Message<T, E>>)
    ensures |r| == |values|
  {
    seq(|values|, i requires 0 <= i < |values| => Item(values[i]))
  }

  function Enabled<T, E>(s: State<T, E>, step: Step<T, E>): bool {
    match step
    case Start => true
    case Subscribe => true
    case Emit(_) => s.phase == Running && (s.sync || !s.sourceClosed)
    case Fail(_) => s.phase == Running && (s.sync || !s.sourceClosed)
    case EndSource => s.phase == Running
    case Finish => s.phase == Closing
    case CloseBegin => true
    case CloseEnd => s.closed && (s.phase == NotStarted || s.phase == Over)
    case Deliver(id) => id < |s.listeners| && s.listeners[id].ending.Live? && s.listeners[id].queue != []
    case Leave(id) => id < |s.listeners| && s.listeners[id].ending.Live?
  }

  function Started<T, E>(s: State<T, E>): State<T, E> {
    if s.phase == NotStarted then s.(phase := Running) else s
  }

  /** A new subscriber: the history, then the error or the sentinel if the stream is already over. */
  function Replayed<T, E>(s: State<T, E>): Listener<T, E> {
    var tail := if s.exception.Some? then [Error(s.exception.value)] else if s.done then [Sentinel] else [];
    Listener([], Items(s.history) + tail, Live)
  }

  /** `_done.set()` and the sentinel, which is broadcast once. */
  function Settled<T, E>(s: State<T, E>): State<T, E> {
    s.(sourceClosed := true, done := true, generatorClosed := true,
       listeners := if s.generatorClosed then s.listeners else Put(s.listeners, Sentinel))
  }

  function Taken<T, E>(l: Listener<T, E>): Listener<T, E>
    requires l.queue != []
  {
    var rest := l.queue[1..];
    match l.queue[0]
    case Item(v) => Listener(l.delivered + [v], rest, Live)
    case Error(e) => Listener(l.delivered, rest, Raised(e))
    case Sentinel => Listener(l.delivered, rest, Finished)
  }

  function Next<T, E>(s: State<T, E>, step: Step<T, E>): State<T, E>
    requires Enabled(s, step)
  {
    match step
    case Start => Started(s)
    case Subscribe =>
      if s.closed then s
      else var t := Started(s); t.(listeners := t.listeners + [Replayed(t)])
    case Emit(v) => s.(history := s.history + [v], listeners := Put(s.listeners, Item(v)))
    case Fail(e) => s.(exception := Some(e), listeners := Put(s.listeners, Error(e)), phase := Closing)
    case EndSource => s.(phase := Closing)
    case Finish => Settled(s).(phase := Over)
    case CloseBegin => s.(closed := true)
    case CloseEnd => Settled(s)
    case Deliver(id) => s.(listeners := s.listeners[id := Taken(s.listeners[id])])
    case Leave(id) => s.(listeners := s.listeners[id := s.listeners[id].(ending := Left)])
  }

  predicate CanRun<T, E>(s: State<T, E>, steps: seq<Step<T, E>>)
    decreases |steps|
  {
    steps == [] || (Enabled(s, steps[0]) && CanRun(Next(s, steps[0]), steps[1..]))
  }

  function Run<T, E>(s: State<T, E>, steps: seq<Step<T, E>>): State<T, E>
    requires CanRun(s, steps)
    decreases |steps|
  {
    if steps == [] then s else Run(Next(s, steps[0]), steps[1..])
  }

  /** What `get_result` answers: nothing until the stream is done, then the history or the error. */
  datatype Answer<T, E> = Waits | Returns(history: seq<T>) | Raises(error: E)

  function GetResult<T, E>(s: State<T, E>): Answer<T, E> {
    if !s.done then Waits else if s.exception.Some? then Raises(s.exception.value) else Returns(s.history)
  }

  // The invariant.

  /** What stands behind the history in a queue: nothing yet, or the error first, or the sentinel. */
  predicate TailOk<T(==), E(==)>(s: State<T, E>, tail: seq<Message<T, E>>) {
    if s.exception.Some? then
      tail == [Error(s.exception.value)] || (s.done && tail == [Error(s.exception.value), Sentinel])
    else tail == if s.done then [Sentinel] else []
  }

  /** Delivered plus queued messages are the full history, in order, followed only by terminators. */
  predicate LiveOk<T(==), E(==)>(s: State<T, E>, l: Listener<T, E>) {
    && l.delivered <= s.history
    && var n := |s.history| - |l.delivered|;
       && n <= |l.queue| && l.queue[..n] == Items(s.history[|l.delivered|..]) && TailOk(s, l.queue[n..])
  }

  predicate ListenerOk<T(==), E(==)>(s: State<T, E>, l: Listener<T, E>) {
    match l.ending
    case Live => LiveOk(s, l)
    case Finished => l.delivered == s.history && s.exception == None && s.phase == Over
    case Raised(e) => l.delivered == s.history && s.exception == Some(e)
    case Left => l.delivered <= s.history
  }

  predicate Inv<T(==), E(==)>(s: State<T, E>) {
    && (s.exception.Some? ==> s.phase == Closing || s.phase == Over)
    && s.done == s.generatorClosed == s.sourceClosed
    && (s.phase == Over ==> s.done)
    && (s.phase == NotStarted ==> s.listeners == [])
    && (s.done && s.phase != Over ==> s.closed && s.listeners == [])
    && forall i :: 0 <= i < |s.listeners| ==> ListenerOk(s, s.listeners[i])
  }

  lemma InitInv<T, E>(sync: bool)
    ensures Inv<T, E>(Init(sync))
  {
  }

  lemma PutItemOk<T, E>(s: State<T, E>, s': State<T, E>, v: T, l: Listener<T, E>)
    requires LiveOk(s, l) && !s.done && s.exception == None
    requires s'.history == s.history + [v] && s'.exception == None && !s'.done
    ensures LiveOk(s', l.(queue := l.queue + [Item(v)]))
  {
    var n, queue := |s.history| - |l.delivered|, l.queue + [Item(v)];
    assert l.queue == l.queue[..n] + l.queue[n..] == Items(s.history[|l.delivered|..]);
    assert s'.history[|l.delivered|..] == s.history[|l.delivered|..] + [v];
    assert queue[..n + 1] == queue;
    assert queue == Items(s'.history[|l.delivered|..]);
    assert queue[n + 1..] == [];
  }

  lemma PutTailOk<T, E>(s: State<T, E>, s': State<T, E>, m: Message<T, E>, l: Listener<T, E>)
    requires LiveOk(s, l) && s'.history == s.history
    requires forall tail :: TailOk(s, tail) ==> TailOk(s', tail + [m])
    ensures LiveOk(s', l.(queue := l.queue + [m]))
  {
    hide TailOk;
    var n := |s.history| - |l.delivered|;
    assert (l.queue + [m])[..n] == l.queue[..n];
    assert (l.queue + [m])[n..] == l.queue[n..] + [m];
  }

  lemma EmitKeepsInv<T, E>(s: State<T, E>, v: T)
    requires Inv(s) && Enabled(s, Emit(v))
    ensures Inv(Next(s, Emit(v)))
  {
    hide LiveOk;
    var s' := Next(s, Emit(v));
    forall i | 0 <= i < |s'.listeners| ensures ListenerOk(s', s'.listeners[i]) {
      assert ListenerOk(s, s.listeners[i]);
      if s.listeners[i].ending.Live? { PutItemOk(s, s', v, s.listeners[i]); }
    }
  }

  lemma FailKeepsInv<T, E>(s: State<T, E>, e: E)
    requires Inv(s) && Enabled(s, Fail(e))
    ensures Inv(Next(s, Fail(e)))
  {
    hide LiveOk;
    var s' := Next(s, Fail(e));
    forall i | 0 <= i < |s'.listeners| ensures ListenerOk(s', s'.listeners[i]) {
      assert ListenerOk(s, s.listeners[i]);
      if s.listeners[i].ending.Live? { PutTailOk(s, s', Error(e), s.listeners[i]); }
    }
  }

  lemma SettleKeepsInv<T, E>(s: State<T, E>, s': State<T, E>)
    requires Inv(s) && (s.phase == Closing || (s.closed && (s.phase == NotStarted || s.phase == Over)))
    requires s' == if s.phase == Closing then Settled(s).(phase := Over) else Settled(s)
    ensures Inv(s')
  {
    hide LiveOk;
    forall i | 0 <= i < |s'.listeners| ensures ListenerOk(s', s'.listeners[i]) {
      assert ListenerOk(s, s.listeners[i]);
      if s.listeners[i].ending.Live? {
        if s.generatorClosed { SameOk(s, s', s.listeners[i]); } else { PutTailOk(s, s', Sentinel, s.listeners[i]); }
      }
    }
  }

  lemma SameOk<T, E>(s: State<T, E>, s': State<T, E>, l: Listener<T, E>)
    requires LiveOk(s, l) && s'.history == s.history && s'.exception == s.exception && s'.done == s.done
    ensures LiveOk(s', l)
  {
  }

  lemma SubscribeKeepsInv<T, E>(s: State<T, E>)
    requires Inv(s)
    ensures Inv(Next(s, Subscribe))
  {
    hide LiveOk;
    var s' := Next(s, Subscribe);
    if !s.closed {
      ReplayedOk(s');
      forall i | 0 <= i < |s.listeners| ensures ListenerOk(s', s.listeners[i]) {
        assert ListenerOk(s, s.listeners[i]);
        if s.listeners[i].ending.Live? { SameOk(s, s', s.listeners[i]); }
      }
    }
  }

  lemma ReplayedOk<T, E>(s: State<T, E>)
    ensures LiveOk(s, Replayed(s))
  {
    var l, n := Replayed(s), |s.history|;
    assert s.history[0..] == s.history;
    assert l.queue[..n] == Items(s.history);
    assert l.queue[n..] == if s.exception.Some? then [Error(s.exception.value)] else if s.done then [Sentinel] else [];
  }

  lemma DeliverItemOk<T, E>(s: State<T, E>, l: Listener<T, E>)
    requires LiveOk(s, l) && |l.delivered| < |s.history|
    ensures l.queue != [] && l.queue[0] == Item(s.history[|l.delivered|]) && LiveOk(s, Taken(l))
  {
    hide TailOk;
    var n, k := |s.history| - |l.delivered|, |l.delivered|;
    var rest := l.queue[1..];
    assert l.queue[0] == l.queue[..n][0];
    ItemsTail<T, E>(s.history, k);
    assert rest[..n - 1] == l.queue[..n][1..] == Items(s.history[k + 1..]);
    assert rest[n - 1..] == l.queue[n..];
    assert l.delivered + [s.history[k]] <= s.history;
  }

  lemma ItemsTail<T, E>(values: seq<T>, k: nat)
    requires k < |values|
    ensures Items<T, E>(values[k..])[0] == Item(values[k]) && Items<T, E>(values[k..])[1..] == Items(values[k + 1..])
  {
  }

  lemma DeliverOk<T, E>(s: State<T, E>, l: Listener<T, E>)
    requires LiveOk(s, l) && l.ending.Live? && l.queue != [] && (s.done ==> s.phase == Over)
    ensures ListenerOk(s, Taken(l))
  {
    if |l.delivered| < |s.history| {
      hide LiveOk;
      DeliverItemOk(s, l);
    } else {
      assert l.queue[0..] == l.queue;
      assert l.delivered == s.history;
    }
  }

  lemma OneListenerKeepsInv<T, E>(s: State<T, E>, id: nat, l: Listener<T, E>)
    requires Inv(s) && id < |s.listeners| && ListenerOk(s, l)
    ensures Inv(s.(listeners := s.listeners[id := l]))
  {
    hide LiveOk;
    var s' := s.(listeners := s.listeners[id := l]);
    forall i | 0 <= i < |s'.listeners| ensures ListenerOk(s', s'.listeners[i]) {
      assert ListenerOk(s, s'.listeners[i]);
      if s'.listeners[i].ending.Live? { SameOk(s, s', s'.listeners[i]); }
    }
  }

  lemma QuietKeepsInv<T, E>(s: State<T, E>, step: Step<T, E>)
    requires Inv(s) && Enabled(s, step) && (step.Start? || step.EndSource? || step.CloseBegin?)
    ensures Inv(Next(s, step))
  {
    hide LiveOk;
    var s' := Next(s, step);
    forall i | 0 <= i < |s'.listeners| ensures ListenerOk(s', s'.listeners[i]) {
      assert ListenerOk(s, s.listeners[i]);
      if s.listeners[i].ending.Live? { SameOk(s, s', s.listeners[i]); }
    }
  }

  /** Every step keeps the invariant. */
  lemma StepKeepsInv<T, E>(s: State<T, E>, step: Step<T, E>)
    requires Inv(s) && Enabled(s, step)
    ensures Inv(Next(s, step))
  {
    match step
    case Emit(v) => EmitKeepsInv(s, v);
    case Fail(e) => FailKeepsInv(s, e);
    case Finish => SettleKeepsInv(s, Next(s, step));
    case CloseEnd => SettleKeepsInv(s, Next(s, step));
    case Subscribe => SubscribeKeepsInv(s);
    case Deliver(id) =>
      assert ListenerOk(s, s.listeners[id]);
      DeliverOk(s, s.listeners[id]);
      OneListenerKeepsInv(s, id, Taken(s.listeners[id]));
    case Leave(id) =>
      assert ListenerOk(s, s.listeners[id]);
      OneListenerKeepsInv(s, id, s.listeners[id].(ending := Left));
    case _ => QuietKeepsInv(s, step);
  }

  lemma {:induction false} RunKeepsInv<T, E>(s: State<T, E>, steps: seq<Step<T, E>>)
    requires Inv(s) && CanRun(s, steps)
    ensures Inv(Run(s, steps))
    decreases |steps|
  {
    if steps != [] {
      StepKeepsInv(s, steps[0]);
      RunKeepsInv(Next(s, steps[0]), steps[1..]);
    }
  }

  // What a run did, read off its steps alone.

  /** The values the source yielded, in order. */
  function Yielded<T, E>(steps: seq<Step<T, E>>): seq<T> {
    if steps == [] then []
    else (match steps[0] case Emit(v) => [v] case _ => []) + Yielded(steps[1..])
  }

  /** The error the source raised last, if it raised any. */
  function Failure<T, E>(steps: seq<Step<T, E>>): Option<E> {
    if steps == [] then None
    else if Failure(steps[1..]).Some? then Failure(steps[1..])
    else match steps[0] case Fail(e) => Some(e) case _ => None
  }

  /** How many subscriptions there were before `close`. */
  function Joined<T, E>(steps: seq<Step<T, E>>): nat {
    if steps == [] || steps[0].CloseBegin? then 0
    else (if steps[0].Subscribe? then 1 else 0) + Joined(steps[1..])
  }

  /** The stream is over once the consumer has finished or `close` has ended. */
  predicate Ends<T, E>(steps: seq<Step<T, E>>) {
    exists k :: 0 <= k < |steps| && (steps[k].Finish? || steps[k].CloseEnd?)
  }

  predicate Closes<T, E>(steps: seq<Step<T, E>>) { exists k :: 0 <= k < |steps| && steps[k].CloseBegin? }

  lemma EndsFirst<T, E>(steps: seq<Step<T, E>>)
    requires steps != []
    ensures Ends(steps) <==> steps[0].Finish? || steps[0].CloseEnd? || Ends(steps[1..])
    ensures Closes(steps) <==> steps[0].CloseBegin? || Closes(steps[1..])
  {
    var rest := steps[1..];
    assert forall k :: 0 < k < |steps| ==> steps[k] == rest[k - 1];
    assert forall k :: 0 <= k < |rest| ==> rest[k] == steps[k + 1];
  }

  /** A run from any state adds what its steps did. */
  lemma {:induction false} RunAdds<T, E>(s: State<T, E>, steps: seq<Step<T, E>>)
    requires CanRun(s, steps)
    ensures var s' := Run(s, steps);
      && s'.history == s.history + Yielded(steps)
      && s'.exception == (if Failure(steps).Some? then Failure(steps) else s.exception)
      && |s'.listeners| == |s.listeners| + (if s.closed then 0 else Joined(steps))
      && (s'.done <==> s.done || Ends(steps))
      && (s'.closed <==> s.closed || Closes(steps))
    decreases |steps|
  {
    hide Ends, Closes;
    if steps == [] {
      NoSteps<T, E>();
    } else {
      var step, rest := steps[0], steps[1..];
      EndsFirst(steps);
      NextAdds(s, step);
      RunAdds(Next(s, step), rest);
      assert s.history + (if step.Emit? then [step.value] else []) + Yielded(rest)
        == s.history + ((if step.Emit? then [step.value] else []) + Yielded(rest));
    }
  }

  lemma NoSteps<T, E>()
    ensures !Ends<T, E>([]) && !Closes<T, E>([])
  {
  }

  lemma NextAdds<T, E>(s: State<T, E>, step: Step<T, E>)
    requires Enabled(s, step)
    ensures var s' := Next(s, step);
      && s'.history == s.history + (if step.Emit? then [step.value] else [])
      && s'.exception == (if step.Fail? then Some(step.error) else s.exception)
      && |s'.listeners| == |s.listeners| + (if step.Subscribe? && !s.closed then 1 else 0)
      && (s'.done <==> s.done || step.Finish? || step.CloseEnd?)
      && (s'.closed <==> s.closed || step.CloseBegin?)
  {
    hide Put, Items, Replayed, Taken, CanRun, Run;
    match step {
      case Emit(v) => PutLength(s.listeners, Item(v));
      case Fail(e) => PutLength(s.listeners, Error(e));
      case _ => PutLength(s.listeners, Sentinel);
    }
  }

  lemma PutLength<T, E>(listeners: seq<Listener<T, E>>, m: Message<T, E>)
    ensures |Put(listeners, m)| == |listeners|
  {
  }

  /** The source raises at most once, and yields nothing afterwards. */
  lemma {:induction false} NothingAfterFailure<T, E>(s: State<T, E>, steps: seq<Step<T, E>>)
    requires CanRun(s, steps) && (s.phase == Closing || s.phase == Over)
    ensures Yielded(steps) == [] && Failure(steps) == None
    decreases |steps|
  {
    if steps != [] { NothingAfterFailure(Next(s, steps[0]), steps[1..]); }
  }

  /** The state of any run is told by its steps: history, error, number of subscribers, and whether it is over. */
  lemma RunIsItsSteps<T, E>(sync: bool, steps: seq<Step<T, E>>)
    requires CanRun(Init(sync), steps)
    ensures var s := Run(Init(sync), steps);
      && s.history == Yielded(steps) && s.exception == Failure(steps) && |s.listeners| == Joined(steps)
      && (s.done <==> Ends(steps)) && (s.closed <==> Closes(steps))
    ensures forall k :: 0 <= k < |steps| && steps[k].Fail? ==>
      Failure(steps) == Some(steps[k].error) && Yielded(steps[k + 1..]) == []
  {
    RunAdds(Init(sync), steps);
    assert [] + Yielded(steps) == Yielded(steps);
    forall k | 0 <= k < |steps| && steps[k].Fail?
      ensures Failure(steps) == Some(steps[k].error) && Yielded(steps[k + 1..]) == []
    {
      FailureIs(Init(sync), steps, k);
    }
  }

  lemma {:induction false} FailureIs<T, E>(s: State<T, E>, steps: seq<Step<T, E>>, k: nat)
    requires CanRun(s, steps) && k < |steps| && steps[k].Fail?
    ensures Failure(steps) == Some(steps[k].error) && Yielded(steps[k + 1..]) == []
    decreases |steps|
  {
    if k == 0 {
      NothingAfterFailure(Next(s, steps[0]), steps[1..]);
    } else {
      FailureIs(Next(s, steps[0]), steps[1..], k - 1);
      assert steps[1..][k - 1] == steps[k] && steps[1..][k..] == steps[k + 1..];
    }
  }

  // What one subscriber did.

  function Takings<T, E>(steps: seq<Step<T, E>>, id: nat): nat {
    if steps == [] then 0 else (if steps[0] == Deliver(id) then 1 else 0) + Takings(steps[1..], id)
  }

  /** How far a subscriber is: what it got, and the terminator if it got one. */
  function Got<T, E>(l: Listener<T, E>): nat {
    |l.delivered| + (if l.ending.Finished? || l.ending.Raised? then 1 else 0)
  }

  /** Each message a subscriber takes brings it one further, and it is out exactly when it has left. */
  lemma {:induction false} SubscriberSteps<T, E>(s: State<T, E>, steps: seq<Step<T, E>>, id: nat)
    requires CanRun(s, steps) && id < |s.listeners|
    ensures id < |Run(s, steps).listeners|
    ensures var l, l' := s.listeners[id], Run(s, steps).listeners[id];
      && Got(l') == Got(l) + Takings(steps, id)
      && (l'.ending.Left? <==> l.ending.Left? || Leave(id) in steps)
    decreases |steps|
  {
    if steps != [] {
      NextForOne(s, steps[0], id);
      SubscriberSteps(Next(s, steps[0]), steps[1..], id);
      assert Leave(id) in steps <==> steps[0] == Leave(id) || Leave(id) in steps[1..];
    }
  }

  lemma NextForOne<T, E>(s: State<T, E>, step: Step<T, E>, id: nat)
    requires Enabled(s, step) && id < |s.listeners|
    ensures id < |Next(s, step).listeners|
    ensures var l, l' := s.listeners[id], Next(s, step).listeners[id];
      && Got(l') == Got(l) + (if step == Deliver(id) then 1 else 0)
      && (l'.ending.Left? <==> l.ending.Left? || step == Leave(id))
  {
    hide *;
    ListenerOf(s, step, id);
    var l, l' := s.listeners[id], Next(s, step).listeners[id];
    if step.Deliver? && step.id == id {
      TakenIsOneMore(l);
    } else {
      SameStanding(l, l');
    }
  }

  /** What a step makes of one listener. */
  lemma ListenerOf<T, E>(s: State<T, E>, step: Step<T, E>, id: nat)
    requires Enabled(s, step) && id < |s.listeners|
    ensures id < |Next(s, step).listeners|
    ensures var l, l' := s.listeners[id], Next(s, step).listeners[id];
      if step.Deliver? && step.id == id then l.ending.Live? && l.queue != [] && l' == Taken(l)
      else if step.Leave? && step.id == id then l.ending.Live? && l' == l.(ending := Left)
      else l' == l.(queue := l'.queue)
  {
    hide Taken, Replayed, Items;
    match step
    case Deliver(_) =>
    case Leave(_) =>
    case Subscribe =>
    case Start =>
    case EndSource =>
    case CloseBegin =>
    case Emit(v) => PutAt(s.listeners, Item(v), id);
    case Fail(e) => PutAt(s.listeners, Error(e), id);
    case Finish => PutAt(s.listeners, Sentinel, id);
    case CloseEnd => PutAt(s.listeners, Sentinel, id);
  }

  lemma PutAt<T, E>(listeners: seq<Listener<T, E>>, m: Message<T, E>, id: nat)
    requires id < |listeners|
    ensures var l' := Put(listeners, m)[id]; l' == listeners[id].(queue := l'.queue)
  {
  }

  lemma TakenIsOneMore<T, E>(l: Listener<T, E>)
    requires l.ending.Live? && l.queue != []
    ensures Got(Taken(l)) == Got(l) + 1 && !Taken(l).ending.Left?
  {
  }

  lemma SameStanding<T, E>(l: Listener<T, E>, l': Listener<T, E>)
    requires l'.delivered == l.delivered && (l'.ending == l.ending || (l.ending.Live? && l'.ending.Left?))
    ensures Got(l') == Got(l)
  {
  }

  // Main results, for every run.

  /**
    Broadcast with replay: in every reachable state, whenever a subscriber joined, what it has got and what
    is queued for it is all that the source has yielded so far, in order; behind it there is nothing until the
    stream fails or is done, then the error first if the source failed, and the sentinel otherwise.
   */
  lemma ReplayIsComplete<T, E>(sync: bool, steps: seq<Step<T, E>>, id: nat)
    requires CanRun(Init(sync), steps)
    requires var s := Run(Init(sync), steps); id < |s.listeners| && s.listeners[id].ending.Live?
    ensures var s := Run(Init(sync), steps);
            var l := s.listeners[id];
            l.delivered <= Yielded(steps) && exists tail ::
              l.queue == Items(Yielded(steps)[|l.delivered|..]) + tail && TailOk(s, tail)
    ensures Ends(steps) || Failure(steps).Some? ==>
            var l := Run(Init(sync), steps).listeners[id];
            var n := |Yielded(steps)| - |l.delivered|;
              |l.queue| > n >= 0
              && l.queue[n] == if Failure(steps).Some? then Error(Failure(steps).value) else Sentinel
  {
    hide Ends;
    InitInv<T, E>(sync);
    RunKeepsInv(Init(sync), steps);
    RunIsItsSteps(sync, steps);
    var s := Run(Init(sync), steps);
    var l := s.listeners[id];
    assert ListenerOk(s, l);
    var n := |s.history| - |l.delivered|;
    var tail := l.queue[n..];
    assert l.queue == l.queue[..n] + tail;
    if s.done || s.exception.Some? { assert tail[0] == l.queue[n]; }
  }

  /**
    Subscribers that ran to the end, early or late, saw all that the source yielded, and the error it raised;
    and `get_result` answers the same.
   */
  lemma FinishedSawTheResult<T, E>(sync: bool, steps: seq<Step<T, E>>, id: nat)
    requires CanRun(Init(sync), steps) && id < |Run(Init(sync), steps).listeners|
    ensures var s := Run(Init(sync), steps);
            var l := s.listeners[id];
            && (l.ending.Finished? ==>
                  l.delivered == Yielded(steps) && Failure(steps) == None && GetResult(s) == Returns(Yielded(steps)))
            && (l.ending.Raised? ==>
                  && l.delivered == Yielded(steps) && Failure(steps) == Some(l.ending.error)
                  && (Ends(steps) ==> GetResult(s) == Raises(l.ending.error)))
  {
    hide Ends;
    InitInv<T, E>(sync);
    RunKeepsInv(Init(sync), steps);
    RunIsItsSteps(sync, steps);
    assert ListenerOk(Run(Init(sync), steps), Run(Init(sync), steps).listeners[id]);
  }

  /** The answer of `get_result` in any run: nothing until it is over, then the error, or all that was yielded. */
  lemma ResultIsWhatWasYielded<T, E>(sync: bool, steps: seq<Step<T, E>>)
    requires CanRun(Init(sync), steps)
    ensures GetResult(Run(Init(sync), steps)) ==
      if !Ends(steps) then Waits
      else if Failure(steps).Some? then Raises(Failure(steps).value)
      else Returns(Yielded(steps))
  {
    RunIsItsSteps(sync, steps);
    hide Run, Yielded, Failure, Ends;
  }

  /** A running consumer can be brought to its end in two steps, whether the source is exhausted or raises. */
  lemma StreamCanEnd<T, E>(s: State<T, E>, e: E)
    requires Inv(s) && s.phase == Running && (s.sync || !s.sourceClosed)
    ensures var steps: seq<Step<T, E>> := [EndSource, Finish];
      CanRun(s, steps) && GetResult(Run(s, steps)) == Returns(s.history)
    ensures var steps: seq<Step<T, E>> := [Fail(e), Finish];
      CanRun(s, steps) && GetResult(Run(s, steps)) == Raises(e)
  {
    var last: seq<Step<T, E>> := [Finish];
    var ends: seq<Step<T, E>> := [EndSource, Finish];
    var fails: seq<Step<T, E>> := [Fail(e), Finish];
    assert ends[1..] == last && fails[1..] == last && last[1..] == [];
    var s1, f1 := Next(s, EndSource), Next(s, Fail(e));
    assert CanRun(Next(s1, Finish), []) && CanRun(s1, last) && Run(s1, last) == Next(s1, Finish);
    assert CanRun(Next(f1, Finish), []) && CanRun(f1, last) && Run(f1, last) == Next(f1, Finish);
  }

  /** From the start, asking for the result or subscribing sets the consumer running; closing alone does not. */
  lemma AskingStarts<T, E>(sync: bool)
    ensures var s: State<T, E> := Init(sync);
      Next(s, Start).phase == Running && Next(s, Subscribe).phase == Running && Next(s, CloseBegin).phase == NotStarted
  {
  }

  function Takes<T, E>(id: nat, n: nat): seq<Step<T, E>> {
    seq(n, _ => Deliver(id))
  }

  /**
    No subscriber is left waiting: once the stream is done, a live subscriber that keeps taking messages
    ends after the rest of the history and one terminator, with the error if the source failed.
   */
  lemma {:induction false} SubscriberEnds<T, E>(s: State<T, E>, id: nat)
    requires Inv(s) && s.done && id < |s.listeners| && s.listeners[id].ending.Live?
    ensures var steps := Takes<T, E>(id, |s.history| - |s.listeners[id].delivered| + 1);
            && CanRun(s, steps)
            && var l := Run(s, steps).listeners;
               id < |l| && l[id].delivered == s.history
               && l[id].ending == if s.exception.Some? then Raised(s.exception.value) else Finished
    decreases |s.history| - |s.listeners[id].delivered|
  {
    hide *;
    DeliverTurn(s, id);
    var n := |s.history| - |s.listeners[id].delivered|;
    var s' := Next(s, Deliver(id));
    TakesFirst<T, E>(id, n);
    RunFirst(s, Takes<T, E>(id, n + 1));
    if n == 0 { RunFirst(s', Takes<T, E>(id, 0)); } else { SubscriberEnds(s', id); }
  }

  lemma TakesFirst<T, E>(id: nat, n: nat)
    ensures var steps := Takes<T, E>(id, n + 1); steps[0] == Deliver(id) && steps[1..] == Takes<T, E>(id, n)
    ensures Takes<T, E>(id, 0) == [] && |Takes<T, E>(id, n + 1)| == n + 1
  {
  }

  lemma RunFirst<T, E>(s: State<T, E>, steps: seq<Step<T, E>>)
    ensures steps == [] ==> CanRun(s, steps) && Run(s, steps) == s
    ensures steps != [] ==> (CanRun(s, steps) <==> Enabled(s, steps[0]) && CanRun(Next(s, steps[0]), steps[1..]))
    ensures steps != [] && CanRun(s, steps) ==> Run(s, steps) == Run(Next(s, steps[0]), steps[1..])
  {
  }

  /** The next message of a live subscriber once the stream is done. */
  lemma DeliverTurn<T, E>(s: State<T, E>, id: nat)
    requires Inv(s) && s.done && id < |s.listeners| && s.listeners[id].ending.Live?
    ensures |s.listeners[id].delivered| <= |s.history| && Enabled(s, Deliver(id))
    ensures var s' := Next(s, Deliver(id));
      && Inv(s') && s'.done && s'.history == s.history && s'.exception == s.exception && id < |s'.listeners|
      && var l := s'.listeners[id];
         if |s.listeners[id].delivered| < |s.history|
           then l.ending.Live? && |l.delivered| == |s.listeners[id].delivered| + 1
         else l.delivered == s.history && l.ending == if s.exception.Some? then Raised(s.exception.value) else Finished
  {
    hide *;
    var l := s.listeners[id];
    LiveInInv(s, id);
    if |l.delivered| < |s.history| { DeliverItemOk(s, l); } else { LastDelivery(s, l); }
    DeliverMeans(s, id);
    StepKeepsInv(s, Deliver(id));
  }

  lemma LiveInInv<T, E>(s: State<T, E>, id: nat)
    requires Inv(s) && id < |s.listeners| && s.listeners[id].ending.Live?
    ensures LiveOk(s, s.listeners[id]) && |s.listeners[id].delivered| <= |s.history|
  {
    hide TailOk;
    assert ListenerOk(s, s.listeners[id]);
  }

  lemma LastDelivery<T, E>(s: State<T, E>, l: Listener<T, E>)
    requires LiveOk(s, l) && s.done && |l.delivered| == |s.history|
    ensures l.delivered == s.history && l.queue != []
    ensures l.queue[0] == if s.exception.Some? then Error(s.exception.value) else Sentinel
  {
    assert l.queue[0..] == l.queue;
  }

  lemma DeliverMeans<T, E>(s: State<T, E>, id: nat)
    requires id < |s.listeners| && s.listeners[id].ending.Live? && s.listeners[id].queue != []
    ensures Enabled(s, Deliver(id))
    ensures var s', l := Next(s, Deliver(id)), s.listeners[id];
      && s' == s.(listeners := s'.listeners) && |s'.listeners| == |s.listeners|
      && s'.listeners[id].delivered == (if l.queue[0].Item? then l.delivered + [l.queue[0].value] else l.delivered)
      && s'.listeners[id].ending
        == match l.queue[0] { case Item(_) => Live case Error(e) => Raised(e) case Sentinel => Finished }
  {
  }

  /** Once a subscriber has finished, the history it saw never changes. */
  lemma {:induction false} FinishedIsFinal<T, E>(s: State<T, E>, steps: seq<Step<T, E>>, id: nat)
    requires Inv(s) && CanRun(s, steps) && id < |s.listeners| && s.listeners[id].ending.Finished?
    ensures var s' := Run(s, steps);
      s'.history == s.history && id < |s'.listeners| && s'.listeners[id] == s.listeners[id]
    decreases |steps|
  {
    if steps != [] {
      assert ListenerOk(s, s.listeners[id]);
      StepKeepsInv(s, steps[0]);
      FinishedIsFinal(Next(s, steps[0]), steps[1..], id);
    }
  }

  /** The history can still grow although the stream is done: a plain generator whose consumer is yet to run. */
  predicate LateRun<T, E>(s: State<T, E>) {
    s.sync && (s.phase == NotStarted || s.phase == Running)
  }

  lemma {:induction false} ResultIsFinal<T, E>(s: State<T, E>, steps: seq<Step<T, E>>)
    requires Inv(s) && CanRun(s, steps) && s.done && !LateRun(s)
    ensures GetResult(Run(s, steps)) == GetResult(s)
    decreases |steps|
  {
    if steps != [] {
      StepKeepsInv(s, steps[0]);
      ResultIsFinal(Next(s, steps[0]), steps[1..]);
    }
  }

  lemma LateRunGrows<T, E>(s: State<T, E>, v: T)
    requires Inv(s) && s.done && LateRun(s)
    ensures var steps: seq<Step<T, E>> := [Start, Emit(v)];
            CanRun(s, steps) && GetResult(s) == Returns(s.history)
              && GetResult(Run(s, steps)) == Returns(s.history + [v])
  {
    var last: seq<Step<T, E>> := [Emit(v)];
    var steps: seq<Step<T, E>> := [Start, Emit(v)];
    var s1 := Next(s, Start);
    var s2 := Next(s1, Emit(v));
    assert steps[1..] == last && last[1..] == [];
    assert CanRun(s2, []) && CanRun(s1, last) && Run(s1, last) == Run(s2, []) == s2;
  }

  /**
    When the answer of `get_result` is final: after the stream is done it never changes again, except exactly
    when a plain generator was closed before its consumer ran; then a late run still adds to the history.
   */
  lemma ResultIsFinalIff<T, E>(s: State<T, E>, v: T)
    requires Inv(s) && s.done
    ensures (forall steps: seq<Step<T, E>> :: CanRun(s, steps) ==> GetResult(Run(s, steps)) == GetResult(s))
      <==> !LateRun(s)
  {
    if LateRun(s) {
      LateRunGrows(s, v);
    } else {
      forall steps: seq<Step<T, E>> | CanRun(s, steps) ensures GetResult(Run(s, steps)) == GetResult(s) {
        ResultIsFinal(s, steps);
      }
    }
  }

  /** Such a state is reachable: close, and only then ask for the result. */
  lemma LateRunIsReachable<T, E>()
    ensures var steps: seq<Step<T, E>> := [CloseBegin, CloseEnd];
            CanRun(Init(true), steps) && Run(Init(true), steps).done && LateRun(Run(Init(true), steps))
  {
    var s0: State<T, E> := Init(true);
    var s1 := Next(s0, CloseBegin);
    var s2 := Next(s1, CloseEnd);
    var last: seq<Step<T, E>> := [CloseEnd];
    var steps: seq<Step<T, E>> := [CloseBegin, CloseEnd];
    assert steps[1..] == last && last[1..] == [];
    assert CanRun(s2, []) && CanRun(s1, last) && Run(s1, last) == Run(s2, []) == s2;
  }

  // The object whose fields the steps update.

  class GeneratorConsumer<T(==), E(==)> {
    const sync: bool
    var history: seq<T>
    var listeners: seq<Listener<T, E>>
    var consumeTask: Phase
    var exception: Option<E>
    var done: bool
    var closed: bool
    var generatorClosed: bool
    var sourceClosed: bool

    function Now(): State<T, E>
      reads this
    {
      State(sync, history, listeners, consumeTask, exception, done, closed, generatorClosed, sourceClosed)
    }

    constructor (sync: bool)
      ensures Now() == Init(sync) && Inv(Now())
    {
      this.sync := sync;
      history, listeners, consumeTask, exception := [], [], NotStarted, None;
      done, closed, generatorClosed, sourceClosed := false, false, false, false;
      new;
      InitInv<T, E>(sync);
    }

    /** Puts a message on every listed queue, in order. */
    method ToQueues(m: Message<T, E>)
      modifies this`listeners
      ensures listeners == Put(old(listeners), m)
    {
      for i := 0 to |listeners|
        invariant |listeners| == |old(listeners)|
        invariant forall k :: 0 <= k < i ==> listeners[k] == Put(old(listeners), m)[k]
        invariant forall k :: i <= k < |listeners| ==> listeners[k] == old(listeners)[k]
      {
        var l := listeners[i];
        if l.ending.Live? { listeners := listeners[i := l.(queue := l.queue + [m])]; }
      }
    }

    /** `_broadcast`: items go into the history, errors and the sentinel do not. */
    method SendToAll(m: Message<T, E>)
      modifies this`history, this`listeners
      ensures history == (if m.Item? then old(history) + [m.value] else old(history))
        && listeners == Put(old(listeners), m)
    {
      if m.Item? { history := history + [m.value]; }
      ToQueues(m);
    }

    method EnsureStarted()
      requires Inv(Now())
      modifies this`consumeTask
      ensures Now() == Next(old(Now()), Start) && Inv(Now())
    {
      StepKeepsInv(Now(), Start);
      if consumeTask == NotStarted { consumeTask := Running; }
    }

    /** One round of the source's loop: a message, an error, or the end. */
    method SourceYields(value: T)
      requires Inv(Now()) && Enabled(Now(), Emit(value))
      modifies this`history, this`listeners
      ensures Now() == Next(old(Now()), Emit(value)) && Inv(Now())
    {
      StepKeepsInv(Now(), Emit(value));
      SendToAll(Item(value));
    }

    method SourceRaises(error: E)
      requires Inv(Now()) && Enabled(Now(), Fail(error))
      modifies this`history, this`listeners, this`exception, this`consumeTask
      ensures Now() == Next(old(Now()), Fail(error)) && Inv(Now())
    {
      StepKeepsInv(Now(), Fail(error));
      exception := Some(error);
      SendToAll(Error(error));
      consumeTask := Closing;
    }

    method SourceEnds()
      requires Inv(Now()) && Enabled(Now(), EndSource)
      modifies this`consumeTask
      ensures Now() == Next(old(Now()), EndSource) && Inv(Now())
    {
      StepKeepsInv(Now(), EndSource);
      consumeTask := Closing;
    }

    /** The closing part shared by the consumer coroutine and `close`. */
    method Settle()
      modifies this`sourceClosed, this`done, this`generatorClosed, this`history, this`listeners
      ensures Now() == Settled(old(Now()))
    {
      sourceClosed := true;
      done := true;
      if !generatorClosed {
        SendToAll(Sentinel);
        generatorClosed := true;
      }
    }

    method FinishConsume()
      requires Inv(Now()) && Enabled(Now(), Finish)
      modifies this
      ensures Now() == Next(old(Now()), Finish) && Inv(Now())
    {
      StepKeepsInv(Now(), Finish);
      Settle();
      consumeTask := Over;
    }

    method BeginClose()
      requires Inv(Now())
      modifies this`closed
      ensures Now() == Next(old(Now()), CloseBegin) && Inv(Now())
    {
      StepKeepsInv(Now(), CloseBegin);
      closed := true;
    }

    method EndClose()
      requires Inv(Now()) && Enabled(Now(), CloseEnd)
      modifies this
      ensures Now() == Next(old(Now()), CloseEnd) && Inv(Now())
    {
      StepKeepsInv(Now(), CloseEnd);
      Settle();
    }

    /** `get_async_generator` up to its first wait; refused, with `None`, once the consumer is closed. */
    method Join() returns (id: Option<nat>)
      requires Inv(Now())
      modifies this`consumeTask, this`listeners
      ensures Now() == Next(old(Now()), Subscribe) && Inv(Now())
      ensures id == if old(closed) then None else Some(|old(listeners)|)
    {
      StepKeepsInv(Now(), Subscribe);
      if closed {
        return None;
      }
      EnsureStarted();
      var queue: seq<Message<T, E>> := [];
      for i := 0 to |history|
        invariant queue == Items(history[..i])
      {
        assert history[..i + 1] == history[..i] + [history[i]];
        queue := queue + [Item(history[i])];
      }
      assert history[..|history|] == history;
      assert queue + [] == queue;
      if exception.Some? {
        queue := queue + [Error(exception.value)];
      } else if done {
        queue := queue + [Sentinel];
      }
      id := Some(|listeners|);
      listeners := listeners + [Listener([], queue, Live)];
    }

    /** One round of a subscriber's loop. */
    method Take(id: nat) returns (message: Message<T, E>)
      requires Inv(Now()) && Enabled(Now(), Deliver(id))
      modifies this`listeners
      ensures Now() == Next(old(Now()), Deliver(id)) && Inv(Now())
      ensures message == old(listeners)[id].queue[0]
    {
      StepKeepsInv(Now(), Deliver(id));
      var l := listeners[id];
      message := l.queue[0];
      var rest := l.queue[1..];
      match message {
        case Item(v) => listeners := listeners[id := Listener(l.delivered + [v], rest, Live)];
        case Error(e) => listeners := listeners[id := Listener(l.delivered, rest, Raised(e))];
        case Sentinel => listeners := listeners[id := Listener(l.delivered, rest, Finished)];
      }
    }

    method Result() returns (answer: Answer<T, E>)
      ensures answer == GetResult(Now())
    {
      if !done {
        return Waits;
      }
      if exception.Some? {
        return Raises(exception.value);
      }
      return Returns(history);
    }
  }
}
