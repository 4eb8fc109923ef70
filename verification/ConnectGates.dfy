/** Which filter decided about a connection: the one in force at its one gate step. */
module ConnectGates {
  import opened Wrappers
  import opened Text
  import opened HostPort
  import opened Origin
  import opened Connect
  import ConnectRuns

  /** The filter in force after these steps: the last one set, or the one at the start. */
  function InForce(f: Filter, steps: seq<Label>): Filter {
    if steps == [] then f
    else
      var last := steps[|steps| - 1];
      if last.SetFilter? then last.f else InForce(f, steps[..|steps| - 1])
  }

  /** Step `i` is the gate of this event's connection, and the event shows the filter in force there. */
  predicate GatedAt(e: Event, f: Filter, steps: seq<Label>, i: int)
    requires e.Gated?
  {
    0 <= i < |steps| && steps[i] == Gate(e.c) && e.filter == InForce(f, steps[..i])
  }

  ghost predicate EventsHaveGates(log: seq<Event>, f: Filter, steps: seq<Label>) {
    forall j | 0 <= j < |log| && log[j].Gated? :: exists i :: GatedAt(log[j], f, steps, i)
  }

  /** A connection passes its gate once. */
  predicate OneGateEach(steps: seq<Label>) {
    forall i, j | 0 <= i < j < |steps| :: steps[i].Gate? && steps[j].Gate? ==> steps[i].c != steps[j].c
  }

  ghost predicate GatesArePassed(s: Sys, steps: seq<Label>) {
    forall i | 0 <= i < |steps| && steps[i].Gate? :: steps[i].c in s.conns && !s.conns[steps[i].c].pc.Accepted?
  }

  ghost predicate GatesOk(s: Sys, f: Filter, steps: seq<Label>) {
    && s.filter == InForce(f, steps)
    && EventsHaveGates(s.log, f, steps)
    && OneGateEach(steps)
    && GatesArePassed(s, steps)
  }

  lemma InForceSnoc(f: Filter, steps: seq<Label>, l: Label)
    ensures InForce(f, steps + [l]) == if l.SetFilter? then l.f else InForce(f, steps)
  {
    assert (steps + [l])[..|steps|] == steps;
  }

  lemma GateStays(e: Event, f: Filter, steps: seq<Label>, l: Label, i: int)
    requires e.Gated? && GatedAt(e, f, steps, i)
    ensures GatedAt(e, f, steps + [l], i)
  {
    assert (steps + [l])[..i] == steps[..i];
  }

  lemma StepKeepsEventsGated(s: Sys, f: Filter, steps: seq<Label>, l: Label)
    requires s.filter == InForce(f, steps) && EventsHaveGates(s.log, f, steps) && Enabled(s, l)
    ensures EventsHaveGates(Step(s, l).log, f, steps + [l])
  {
    var log := Step(s, l).log;
    forall j | 0 <= j < |log| && log[j].Gated? ensures exists i :: GatedAt(log[j], f, steps + [l], i) {
      if j < |s.log| {
        assert log[j] == s.log[j];
        var i :| GatedAt(s.log[j], f, steps, i);
        GateStays(s.log[j], f, steps, l, i);
      } else {
        assert (steps + [l])[..|steps|] == steps;
        assert GatedAt(log[j], f, steps + [l], |steps|);
      }
    }
  }

  lemma StepKeepsGatesPassed(s: Sys, steps: seq<Label>, l: Label)
    requires OneGateEach(steps) && GatesArePassed(s, steps) && Enabled(s, l)
    ensures OneGateEach(steps + [l]) && GatesArePassed(Step(s, l), steps + [l])
  {
    forall i | 0 <= i < |steps + [l]| && (steps + [l])[i].Gate?
      ensures var c := (steps + [l])[i].c; c in Step(s, l).conns && !Step(s, l).conns[c].pc.Accepted?
    {
      assert i < |steps| ==> (steps + [l])[i] == steps[i];
    }
  }

  lemma {:induction false} RunKeepsGates(s: Sys, f: Filter, steps: seq<Label>, run: seq<Label>)
    requires GatesOk(s, f, steps) && IsRun(s, run)
    ensures GatesOk(After(s, run), f, steps + run)
    decreases |run|
  {
    if run == [] {
      assert steps + run == steps;
    } else {
      InForceSnoc(f, steps, run[0]);
      StepKeepsEventsGated(s, f, steps, run[0]);
      StepKeepsGatesPassed(s, steps, run[0]);
      RunKeepsGates(Step(s, run[0]), f, steps + [run[0]], run[1..]);
      assert steps + [run[0]] + run[1..] == steps + run;
    }
  }

  /** The filter that was in force at step `i` lets this connection through. */
  predicate LetThrough(cfg: Config, g: Filter, origin: Option<Process>) {
    cfg.filtering && g.Active() ==> origin.Some? && g.Match(origin.value)
  }

  /** Step `i` is the one gate of connection `c`. */
  predicate OnlyGate(run: seq<Label>, c: nat, i: int) {
    0 <= i < |run| && run[i] == Gate(c) && forall j | 0 <= j < |run| && run[j] == Gate(c) :: j == i
  }

  lemma GateWasOnly(s: Sys, f: Filter, run: seq<Label>, k: nat)
    requires GatesOk(s, f, run) && k < |s.log| && s.log[k].Gated?
    ensures exists i :: OnlyGate(run, s.log[k].c, i) && s.log[k].filter == InForce(f, run[..i])
  {
    var i :| GatedAt(s.log[k], f, run, i);
    assert OnlyGate(run, s.log[k].c, i);
  }

  /** Every flow read in the clear inside a CONNECT, and every refused handshake, was let through by the filter in
      force when its connection passed its one gate (the last one set before, or the one at the start), whatever was
      set later: that filter narrowed nothing, or it matched the process. */
  lemma InterceptionsWereAllowed(cfg: Config, f: Filter, run: seq<Label>, j: nat)
    requires IsRun(Start(cfg, f), run) && j < |After(Start(cfg, f), run).log|
    requires var s := After(Start(cfg, f), run); var e := s.log[j];
             e.Learned? || (e.Emitted? && e.flow.intercepted && e.c in s.conns && s.conns[e.c].isConnect)
    ensures var s := After(Start(cfg, f), run); var c := s.log[j].c;
            && c in s.conns
            && exists i :: OnlyGate(run, c, i) && LetThrough(cfg, InForce(f, run[..i]), s.conns[c].origin)
  {
    var s := After(Start(cfg, f), run);
    var c := s.log[j].c;
    var k := ConnectRuns.InterceptionWasGated(cfg, f, run, j);
    RunKeepsGates(Start(cfg, f), f, [], run);
    assert [] + run == run;
    GateWasOnly(s, f, run, k);
  }

  /** Whatever flags or choices the filter in force at its gate was built from, a connection is decrypted, or offered a
      certificate to refuse, only if they ask for its process. */
  lemma OnlyWantedAreDecrypted(cfg: Config, f: Filter, run: seq<Label>, j: nat)
    requires cfg.filtering && IsRun(Start(cfg, f), run) && j < |After(Start(cfg, f), run).log|
    requires var s := After(Start(cfg, f), run); var e := s.log[j];
             e.Learned? || (e.Emitted? && e.flow.intercepted && e.c in s.conns && s.conns[e.c].isConnect)
    ensures var s := After(Start(cfg, f), run); var c := s.log[j].c;
            && c in s.conns
            && exists i :: OnlyGate(run, c, i) &&
                 forall onlySim, apps | InForce(f, run[..i]) == Build(onlySim, apps) ::
                   match s.conns[c].origin
                   case None => !onlySim && forall a <- apps :: TrimSpace(a) == ""
                   case Some(p) => Wanted(onlySim, apps, p)
  {
    InterceptionsWereAllowed(cfg, f, run, j);
    var s := After(Start(cfg, f), run);
    var c := s.log[j].c;
    var i :| OnlyGate(run, c, i) && LetThrough(cfg, InForce(f, run[..i]), s.conns[c].origin);
    forall onlySim, apps | InForce(f, run[..i]) == Build(onlySim, apps)
      ensures match s.conns[c].origin
              case None => !onlySim && forall a <- apps :: TrimSpace(a) == ""
              case Some(p) => Wanted(onlySim, apps, p)
    {
      VerdictIsAsWanted(onlySim, apps);
      assert Allows(true, Build(onlySim, apps), s.conns[c].origin);
    }
  }

  // ---- never everything, decrypted ---------------------------------------------------------------------

  predicate FromSimulator(origin: Option<Process>) {
    origin.Some? && origin.value.simulator
  }

  /** A filter lets through simulator processes alone exactly when it is active. */
  lemma OnlySimulatorExactlyWhenActive(cfg: Config, g: Filter)
    requires cfg.filtering
    ensures (forall origin: Option<Process> :: LetThrough(cfg, g, origin) ==> FromSimulator(origin)) <==> g.Active()
  {
    if !g.Active() {
      assert LetThrough(cfg, g, None) && !FromSimulator(None);
    }
  }

  /** None of these steps chooses everything. */
  predicate NarrowThroughout(steps: seq<Label>) {
    forall i | 0 <= i < |steps| :: steps[i].SetFilter? ==> steps[i].f.Active()
  }

  lemma {:induction false} NarrowStaysActive(f: Filter, steps: seq<Label>)
    requires f.Active() && NarrowThroughout(steps)
    ensures InForce(f, steps).Active()
  {
    if steps != [] {
      NarrowStaysActive(f, steps[..|steps| - 1]);
    }
  }

  /** Taking over the system proxy starts the filter at simulator-only.  From there nothing but a simulator process is
      read in the clear, or offered a certificate to refuse, as long as nobody chose everything before its gate. */
  lemma HostIsNeverDecrypted(cfg: Config, apps: seq<string>, run: seq<Label>, j: nat)
    requires cfg.filtering && IsRun(Start(cfg, Build(true, apps)), run)
    requires j < |After(Start(cfg, Build(true, apps)), run).log|
    requires var s := After(Start(cfg, Build(true, apps)), run); var e := s.log[j];
             e.Learned? || (e.Emitted? && e.flow.intercepted && e.c in s.conns && s.conns[e.c].isConnect)
    ensures var s := After(Start(cfg, Build(true, apps)), run); var c := s.log[j].c;
            && c in s.conns
            && exists i :: OnlyGate(run, c, i) && (NarrowThroughout(run[..i]) ==> FromSimulator(s.conns[c].origin))
  {
    var f := Build(true, apps);
    InterceptionsWereAllowed(cfg, f, run, j);
    var s := After(Start(cfg, f), run);
    var c := s.log[j].c;
    var i :| OnlyGate(run, c, i) && LetThrough(cfg, InForce(f, run[..i]), s.conns[c].origin);
    if NarrowThroughout(run[..i]) {
      NarrowStaysActive(f, run[..i]);
      OnlySimulatorExactlyWhenActive(cfg, InForce(f, run[..i]));
    }
  }

  /** The last flow shown was read in the clear from a process outside the simulator. */
  ghost predicate ShowsHost(s: Sys) {
    s.log != [] && var e := s.log[|s.log| - 1];
    e.Emitted? && e.flow.intercepted && e.c in s.conns && s.conns[e.c].isConnect && !FromSimulator(s.conns[e.c].origin)
  }

  ghost predicate CanShowHost(s: Sys) {
    exists run :: IsRun(s, run) && ShowsHost(After(s, run))
  }

  lemma StillCanShowHost(s: Sys, l: Label)
    requires Enabled(s, l) && CanShowHost(Step(s, l))
    ensures CanShowHost(s)
  {
    var run :| IsRun(Step(s, l), run) && ShowsHost(After(Step(s, l), run));
    RunCons(s, l, run);
  }

  predicate IsHostConnect(s: Sys, c: nat) {
    c in s.conns && s.conns[c].isConnect && !FromSimulator(s.conns[c].origin)
  }

  lemma ServingShowsHost(s: Sys, c: nat)
    requires IsHostConnect(s, c) && s.conns[c].pc.Serving? && s.conns[c].allowed
    ensures CanShowHost(s)
  {
    var asked, answered := Happen(c, Requested("")), Happen(c, Exchanged(Response(200, None)));
    var s1 := Step(s, asked);
    var s2 := Step(s1, answered);
    var s3 := Step(s2, Emit(c));
    assert IsRun(s3, []) && ShowsHost(After(s3, []));
    StillCanShowHost(s2, Emit(c));
    StillCanShowHost(s1, answered);
    StillCanShowHost(s, asked);
  }

  lemma PassedShowsHost(s: Sys, c: nat)
    requires IsHostConnect(s, c) && s.conns[c].pc.Passed? && s.conns[c].allowed
    requires !ShouldTunnel(s.cfg, s.learned, s.conns[c].target)
    ensures CanShowHost(s)
  {
    var s1 := Step(s, Check(c));
    ServingShowsHost(Step(s1, Happen(c, HandshakeOk)), c);
    StillCanShowHost(s1, Happen(c, HandshakeOk));
    StillCanShowHost(s, Check(c));
  }

  /** And once everything is chosen, it is not so: from any state, whatever the filter was at the start, choosing
      everything lets the next connection of a process outside the simulator be decrypted, if its host is not to be
      tunnelled anyway. */
  lemma EverythingShowsHost(s: Sys, c: nat, target: string, origin: Option<Process>)
    requires c !in s.conns && !FromSimulator(origin) && !ShouldTunnel(s.cfg, s.learned, target)
    ensures CanShowHost(s)
  {
    var everything := SetFilter(Filter(false, {}));
    var s1 := Step(s, everything);
    var s2 := Step(s1, Open(c, true, target, origin));
    PassedShowsHost(Step(s2, Gate(c)), c);
    StillCanShowHost(s2, Gate(c));
    StillCanShowHost(s1, Open(c, true, target, origin));
    StillCanShowHost(s, everything);
  }
}
