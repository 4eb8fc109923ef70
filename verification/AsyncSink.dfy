/** internal/flow/async.go: a bounded channel between Emit and one background drainer. */
module AsyncSink {
  /** The drainer: between two receives, blocked in a receive on an empty channel, delivering, or done. */
  datatype Drainer<T> = Between | Parked | Delivering(f: T) | Finished

  /** One finished Emit. */
  datatype Emission<T> = Emission(f: T, taken: bool)

  datatype Sink<T> = Sink(
    capacity: nat, buffer: seq<T>, drainer: Drainer<T>, dropped: nat, closed: bool,
    delivered: seq<T>, log: seq<Emission<T>>)

  datatype Label<T> = Emit(f: T) | Park | Take | Deliver | Close | Finish

  function New<T>(buffer: nat): Sink<T> {
    Sink(buffer, [], Between, 0, false, [], [])
  }

  /** A non-blocking send succeeds into a waiting receiver or into free buffer space. */
  predicate Accepts<T>(s: Sink<T>) {
    s.drainer.Parked? || |s.buffer| < s.capacity
  }

  /** Emit must not be called once Close has been. */
  predicate Enabled<T>(s: Sink<T>, l: Label<T>) {
    match l
    case Emit(_) => !s.closed
    case Park => s.drainer.Between? && s.buffer == [] && !s.closed
    case Take => s.drainer.Between? && s.buffer != []
    case Deliver => s.drainer.Delivering?
    case Close => !s.closed
    case Finish => s.closed && s.buffer == [] && (s.drainer.Between? || s.drainer.Parked?)
  }

  function Step<T>(s: Sink<T>, l: Label<T>): Sink<T>
    requires Enabled(s, l)
  {
    match l
    case Emit(f) =>
      var s' := s.(log := s.log + [Emission(f, Accepts(s))]);
      if s.drainer.Parked? then s'.(drainer := Delivering(f))
      else if |s.buffer| < s.capacity then s'.(buffer := s.buffer + [f])
      else s'.(dropped := s.dropped + 1)
    case Park => s.(drainer := Parked)
    case Take => s.(drainer := Delivering(s.buffer[0]), buffer := s.buffer[1..])
    case Deliver => s.(drainer := Between, delivered := s.delivered + [s.drainer.f])
    case Close => s.(closed := true)
    case Finish => s.(drainer := Finished)
  }

  ghost predicate IsRun<T>(s: Sink<T>, run: seq<Label<T>>)
    decreases |run|
  {
    run != [] ==> Enabled(s, run[0]) && IsRun(Step(s, run[0]), run[1..])
  }

  function After<T>(s: Sink<T>, run: seq<Label<T>>): Sink<T>
    requires IsRun(s, run)
    decreases |run|
  {
    if run == [] then s else After(Step(s, run[0]), run[1..])
  }

  /** The flows that the channel took, in the order they were emitted. */
  function Taken<T>(log: seq<Emission<T>>): seq<T> {
    if log == [] then []
    else
      var last := log[|log| - 1];
      Taken(log[..|log| - 1]) + (if last.taken then [last.f] else [])
  }

  function Shed<T>(log: seq<Emission<T>>): nat {
    if log == [] then 0
    else Shed(log[..|log| - 1]) + (if log[|log| - 1].taken then 0 else 1)
  }

  function InHand<T>(s: Sink<T>): seq<T> {
    if s.drainer.Delivering? then [s.drainer.f] else []
  }

  ghost predicate Inv<T>(s: Sink<T>) {
    && |s.buffer| <= s.capacity
    && (s.drainer.Parked? ==> s.buffer == [])
    && (s.drainer.Finished? ==> s.closed && s.buffer == [])
    && Taken(s.log) == s.delivered + InHand(s) + s.buffer
    && Shed(s.log) == s.dropped
  }

  lemma LogSnoc<T>(log: seq<Emission<T>>, e: Emission<T>)
    ensures Taken(log + [e]) == Taken(log) + (if e.taken then [e.f] else [])
    ensures Shed(log + [e]) == Shed(log) + (if e.taken then 0 else 1)
  {
    assert (log + [e])[..|log|] == log;
  }

  lemma StepKeepsInv<T>(s: Sink<T>, l: Label<T>)
    requires Inv(s) && Enabled(s, l)
    ensures Inv(Step(s, l))
  {
    match l
    case Emit(f) => LogSnoc(s.log, Emission(f, Accepts(s)));
    case _ =>
  }

  lemma {:induction false} RunKeepsInv<T>(s: Sink<T>, run: seq<Label<T>>)
    requires Inv(s) && IsRun(s, run)
    ensures Inv(After(s, run))
    decreases |run|
  {
    if run != [] {
      StepKeepsInv(s, run[0]);
      RunKeepsInv(Step(s, run[0]), run[1..]);
    }
  }

  lemma {:induction false} LogIsAccounted<T>(log: seq<Emission<T>>)
    ensures |log| == |Taken(log)| + Shed(log)
  {
    if log != [] {
      LogIsAccounted(log[..|log| - 1]);
    }
  }

  /** Under every interleaving: what was delivered, is in hand and is buffered is what the channel took, in
      emission order; everything else was dropped and counted; and once the drainer has finished, nothing is
      left behind. */
  lemma Conservation<T>(buffer: nat, run: seq<Label<T>>)
    requires IsRun(New<T>(buffer), run)
    ensures var s := After(New<T>(buffer), run);
            && s.delivered + InHand(s) + s.buffer == Taken(s.log)
            && |s.log| == |s.delivered| + |InHand(s)| + |s.buffer| + s.dropped
            && |s.buffer| <= buffer
            && (s.drainer.Finished? ==> s.delivered == Taken(s.log) && |s.log| == |s.delivered| + s.dropped)
  {
    RunKeepsInv(New<T>(buffer), run);
    RunKeepsCapacity(New<T>(buffer), run);
    LogIsAccounted(After(New<T>(buffer), run).log);
  }

  lemma {:induction false} RunKeepsCapacity<T>(s: Sink<T>, run: seq<Label<T>>)
    requires IsRun(s, run)
    ensures After(s, run).capacity == s.capacity
    decreases |run|
  {
    if run != [] {
      RunKeepsCapacity(Step(s, run[0]), run[1..]);
    }
  }

  /** At any point of any run, an Emit drops its flow if and only if the buffer asked for is full and the drainer is not
      waiting for it; otherwise the flow is in the drainer's hand or last in the buffer.  Nothing else is disturbed. */
  lemma DroppedExactlyWhenFull<T>(buffer: nat, run: seq<Label<T>>, f: T)
    requires IsRun(New<T>(buffer), run) && Enabled(After(New<T>(buffer), run), Emit(f))
    ensures var s := After(New<T>(buffer), run);
            var s' := Step(s, Emit(f));
            && s'.delivered == s.delivered
            && if |s.buffer| == buffer && !s.drainer.Parked? then
                 s'.dropped == s.dropped + 1 && InHand(s') + s'.buffer == InHand(s) + s.buffer
               else
                 s'.dropped == s.dropped && InHand(s') + s'.buffer == InHand(s) + s.buffer + [f]
  {
    RunKeepsInv(New<T>(buffer), run);
    RunKeepsCapacity(New<T>(buffer), run);
  }

  /** The drainer's remaining steps after Close. */
  function Draining<T>(s: Sink<T>): seq<Label<T>>
    decreases |s.buffer|, s.drainer.Delivering?
  {
    if s.drainer.Delivering? then [Deliver] + Draining(s.(drainer := Between, delivered := s.delivered + [s.drainer.f]))
    else if s.buffer != [] && s.drainer.Between? then
      [Take] + Draining(s.(drainer := Delivering(s.buffer[0]), buffer := s.buffer[1..]))
    else [Finish]
  }

  /** Close returns: from any point of any run the drainer reaches its end by its own steps, having delivered
      everything that was in hand or buffered, in order. */
  lemma {:induction false} CloseReturns<T>(s: Sink<T>)
    requires Inv(s) && s.closed && !s.drainer.Finished?
    ensures IsRun(s, Draining(s))
    ensures var s' := After(s, Draining(s));
            && s'.drainer.Finished? && s'.closed && s'.delivered == s.delivered + InHand(s) + s.buffer
            && s'.dropped == s.dropped && s'.log == s.log
    decreases |s.buffer|, s.drainer.Delivering?
  {
    var run := Draining(s);
    if run[0].Finish? {
      assert run[1..] == [];
    } else {
      var s1 := Step(s, run[0]);
      StepKeepsInv(s, run[0]);
      assert run[1..] == Draining(s1);
      CloseReturns(s1);
    }
  }

  /** Both have the same end to drain to. */
  ghost predicate Drains<T>(s0: Sink<T>, s: Sink<T>) {
    && IsRun(s0, Draining(s0)) && IsRun(s, Draining(s))
    && After(s, Draining(s)) == After(s0, Draining(s0))
  }

  lemma DrainStep<T>(s0: Sink<T>, s: Sink<T>)
    requires Inv(s) && s.closed && !s.drainer.Finished? && Drains(s0, s)
    ensures var s' := Step(s, Draining(s)[0]);
            Inv(s') && (if Draining(s)[0].Finish? then s' == After(s0, Draining(s0)) else Drains(s0, s'))
  {
    var run := Draining(s);
    StepKeepsInv(s, run[0]);
    assert After(s, run) == After(Step(s, run[0]), run[1..]);
    if run[0].Finish? {
      assert run[1..] == [];
      assert After(Step(s, run[0]), []) == Step(s, run[0]);
    } else {
      assert run[1..] == Draining(Step(s, run[0]));
    }
  }

  // ---- the object --------------------------------------------------------------------------------

  class Async<T(0)> {
    const capacity: nat
    var ch: seq<T>
    var drainer: Drainer<T>
    var dropped: nat
    var closed: bool
    var wrapped: seq<T>
    ghost var log: seq<Emission<T>>

    ghost function State(): Sink<T>
      reads this
    {
      Sink(capacity, ch, drainer, dropped, closed, wrapped, log)
    }

    constructor (buffer: nat)
      ensures State() == New(buffer)
    {
      capacity := buffer;
      ch, drainer, dropped, closed, wrapped, log := [], Between, 0, false, [], [];
    }

    method EmitFlow(f: T)
      requires Enabled(State(), Emit(f))
      modifies this
      ensures State() == Step(old(State()), Emit(f))
    {
      log := log + [Emission(f, Accepts(State()))];
      if drainer.Parked? {
        drainer := Delivering(f);
      } else if |ch| < capacity {
        ch := ch + [f];
      } else {
        dropped := dropped + 1;
      }
    }

    /** The rest of the drainer's loop over a closed channel: it takes exactly the machine's remaining steps, and ends
        by announcing that it is done. */
    method Run()
      requires Inv(State()) && closed && !drainer.Finished?
      modifies this
      ensures IsRun(old(State()), Draining(old(State())))
      ensures State() == After(old(State()), Draining(old(State())))
    {
      ghost var s0 := State();
      CloseReturns(s0);
      while ch != [] || drainer.Delivering?
        invariant Inv(State()) && closed && !drainer.Finished?
        invariant Drains(s0, State())
        decreases |ch|, drainer.Delivering?
      {
        DrainStep(s0, State());
        if drainer.Delivering? {
          wrapped := wrapped + [drainer.f];
          drainer := Between;
        } else {
          drainer := Delivering(ch[0]);
          ch := ch[1..];
        }
      }
      DrainStep(s0, State());
      drainer := Finished;
    }

    /** Close: closing the channel, then waiting until the drainer, wherever it stands, is done. */
    method CloseAndWait()
      requires Inv(State()) && !closed && !drainer.Finished?
      modifies this
      ensures Inv(State()) && drainer.Finished? && closed
      ensures wrapped == old(wrapped) + old(InHand(State())) + old(ch) == Taken(log)
      ensures log == old(log) && dropped == old(dropped)
    {
      closed := true;
      ghost var s := State();
      CloseReturns(s);
      Run();
      RunKeepsInv(s, Draining(s));
    }
  }
}
