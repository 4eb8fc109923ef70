/** The proxy's decisions and its flows (internal/proxy/connect.go and server.go) as a state machine:
    any number of connections, interleaved between every two accesses to shared state, with the
    filter swapped at any time. */
module Connect {
  import opened Wrappers
  import opened Text
  import opened HostPort
  import opened Origin

  datatype Config = Config(hasAuthority: bool, excluded: seq<string>, filtering: bool)

  /** What went wrong: Go's error text, and where it arose (which the flow's Error says in front of it). */
  datatype Stage = Dialling | Handshaking | Building | RoundTripping | Relaying

  datatype Problem = NoProblem | Problem(stage: Stage, text: string)

  datatype Flow = Flow(id: nat, host: string, intercepted: bool, error: Problem)

  /** How one forwarded exchange ended. */
  datatype Exchange =
    | BuildError(text: string)
    | RoundTripError(text: string)
    | Response(status: nat, relayError: Option<string>)

  /** What the network and the client did. */
  datatype Incident =
    | HijackFails
    | EstablishFails
    | DialFails(text: string)
    | Copied
    | HandshakeFails(text: string)
    | HandshakeOk
    | Requested(host: string)
    | Exchanged(x: Exchange)
    | Closed

  datatype Pc =
    | Accepted
    | Passed
    | Tunnelling
    | Intercepting
    | Refused(text: string)
    | Noting(error: Problem)
    | Serving
    | Forwarding(id: nat, host: string)
    | Emitting(flow: Flow)
    | Ended

  /** `tunnel` says that this is a CONNECT; a plain request is forwarded without one. */
  datatype Conn = Conn(
    isConnect: bool, target: string, origin: Option<Process>, allowed: bool, pc: Pc, past: seq<Incident>)

  datatype Event =
    | Gated(c: nat, filter: Filter, allowed: bool)
    | Checked(c: nat, host: string, tunnel: bool)
    | Learned(c: nat, host: string)
    | Emitted(c: nat, flow: Flow)

  datatype Sys = Sys(
    cfg: Config, filter: Filter, learned: set<string>, lastId: nat, conns: map<nat, Conn>, log: seq<Event>)

  datatype Label =
    | Open(c: nat, isConnect: bool, target: string, origin: Option<Process>)
    | SetFilter(f: Filter)
    | Gate(c: nat)
    | Check(c: nat)
    | Happen(c: nat, i: Incident)
    | Learn(c: nat)
    | TakeId(c: nat)
    | Emit(c: nat)

  function Start(cfg: Config, f: Filter): Sys {
    Sys(cfg, f, {}, 0, map[], [])
  }

  // ---- the source's decisions ----------------------------------------------------------------

  predicate Excluded(cfg: Config, host: string) {
    exists s <- cfg.excluded :: host == s || HasSuffix(host, "." + s)
  }

  /** shouldTunnel, given the learned set it reads under the lock. */
  predicate ShouldTunnel(cfg: Config, learned: set<string>, target: string) {
    !cfg.hasAuthority || Excluded(cfg, HostOnly(target)) || HostOnly(target) in learned
  }

  function ExchangeError(x: Exchange): Problem {
    match x
    case BuildError(t) => Problem(Building, t)
    case RoundTripError(t) => Problem(RoundTripping, t)
    case Response(_, Some(t)) => Problem(Relaying, t)
    case Response(_, None) => NoProblem
  }

  /** WriteHeader panics on a status it does not know, and the HTTP server, recovering, closes the connection.  The
      transport lets through any three digits. */
  predicate Aborts(x: Exchange) {
    x.Response? && !(100 <= x.status <= 999)
  }

  /** A flow without its id. */
  datatype Summary = Summary(host: string, intercepted: bool, error: Problem)

  /** The flow that a captured exchange calls for. */
  function ExchangeFlows(host: string, x: Exchange): seq<Summary> {
    if Aborts(x) then [] else [Summary(host, true, ExchangeError(x))]
  }

  // ---- steps ------------------------------------------------------------------------------------

  predicate CanHappen(conn: Conn, i: Incident) {
    match conn.pc
    case Tunnelling => i.HijackFails? || i.DialFails? || i.EstablishFails? || i.Copied?
    case Intercepting => i.HijackFails? || i.EstablishFails? || i.HandshakeFails? || i.HandshakeOk?
    case Serving => i.Requested? || (conn.isConnect && i.Closed?)
    case Forwarding(_, _) => i.Exchanged?
    case _ => false
  }

  predicate Enabled(s: Sys, l: Label) {
    match l
    case Open(c, _, _, _) => c !in s.conns
    case SetFilter(_) => true
    case Gate(c) => c in s.conns && s.conns[c].pc.Accepted?
    case Check(c) => c in s.conns && s.conns[c].pc.Passed?
    case Happen(c, i) => c in s.conns && CanHappen(s.conns[c], i)
    case Learn(c) => c in s.conns && s.conns[c].pc.Refused?
    case TakeId(c) => c in s.conns && s.conns[c].pc.Noting?
    case Emit(c) => c in s.conns && s.conns[c].pc.Emitting?
  }

  /** A decrypted request without a Host header is for the CONNECT target. */
  function HostOf(conn: Conn, i: Incident): string {
    if i.Requested? && i.host != "" then i.host else conn.target
  }

  /** Where a connection goes when something happens to it; `id` is the next flow id. */
  function React(conn: Conn, i: Incident, id: nat): Pc
    requires CanHappen(conn, i)
  {
    match conn.pc
    case Tunnelling =>
      if !conn.allowed then Ended
      else if i.DialFails? then Noting(Problem(Dialling, i.text))
      else if i.Copied? then Noting(NoProblem)
      else Ended
    case Intercepting => if i.HandshakeFails? then Refused(i.text) else if i.HandshakeOk? then Serving else Ended
    case Serving => if i.Requested? then Forwarding(id, HostOf(conn, i)) else Ended
    case Forwarding(own, host) =>
      if conn.allowed && !Aborts(i.x) then Emitting(Flow(own, host, true, ExchangeError(i.x)))
      else Ended
  }

  function Update(s: Sys, c: nat, pc: Pc): map<nat, Conn>
    requires c in s.conns
  {
    s.conns[c := s.conns[c].(pc := pc)]
  }

  function Step(s: Sys, l: Label): Sys
    requires Enabled(s, l)
  {
    match l
    case Open(c, isConnect, target, origin) =>
      s.(conns := s.conns[c := Conn(isConnect, target, origin, false, Accepted, [])])
    case SetFilter(f) => s.(filter := f)
    case Gate(c) =>
      var conn := s.conns[c];
      var ok := Allows(s.cfg.filtering, s.filter, conn.origin);
      var pc := if !conn.isConnect then Serving else if ok then Passed else Tunnelling;
      s.(conns := s.conns[c := conn.(allowed := ok, pc := pc)], log := s.log + [Gated(c, s.filter, ok)])
    case Check(c) =>
      var t := ShouldTunnel(s.cfg, s.learned, s.conns[c].target);
      s.(conns := Update(s, c, if t then Tunnelling else Intercepting),
         log := s.log + [Checked(c, HostOnly(s.conns[c].target), t)])
    case Happen(c, i) =>
      var conn := s.conns[c];
      s.(conns := s.conns[c := conn.(pc := React(conn, i, s.lastId + 1), past := conn.past + [i])],
         lastId := if i.Requested? then s.lastId + 1 else s.lastId)
    case Learn(c) =>
      var host := HostOnly(s.conns[c].target);
      s.(learned := s.learned + {host}, conns := Update(s, c, Noting(Problem(Handshaking, s.conns[c].pc.text))),
         log := s.log + [Learned(c, host)])
    case TakeId(c) =>
      var conn := s.conns[c];
      s.(lastId := s.lastId + 1,
         conns := Update(s, c, Emitting(Flow(s.lastId + 1, conn.target, false, conn.pc.error))))
    case Emit(c) =>
      var conn := s.conns[c];
      s.(conns := Update(s, c, if conn.isConnect && conn.pc.flow.intercepted then Serving else Ended),
         log := s.log + [Emitted(c, conn.pc.flow)])
  }

  ghost predicate IsRun(s: Sys, run: seq<Label>)
    decreases |run|
  {
    run != [] ==> Enabled(s, run[0]) && IsRun(Step(s, run[0]), run[1..])
  }

  function After(s: Sys, run: seq<Label>): Sys
    requires IsRun(s, run)
    decreases |run|
  {
    if run == [] then s else After(Step(s, run[0]), run[1..])
  }

  lemma RunCons(s: Sys, l: Label, run: seq<Label>)
    requires Enabled(s, l) && IsRun(Step(s, l), run)
    ensures IsRun(s, [l] + run) && After(s, [l] + run) == After(Step(s, l), run)
  {
    assert ([l] + run)[1..] == run;
  }

  // ---- exact emission -----------------------------------------------------------------------------

  function Summarize(f: Flow): Summary {
    Summary(f.host, f.intercepted, f.error)
  }

  function EmittedBy(log: seq<Event>, c: nat): seq<Summary> {
    if log == [] then []
    else
      (if log[0].Emitted? && log[0].c == c then [Summarize(log[0].flow)] else []) + EmittedBy(log[1..], c)
  }

  /** The flows that a connection's history calls for: one per failed dial, per finished tunnel, per refused handshake
      and per exchange that is not aborted, and none at all for a connection that the filter turned away. */
  function CalledFor(conn: Conn): seq<Summary> {
    if conn.allowed then FlowsOf(conn, |conn.past|) else []
  }

  function FlowsOf(conn: Conn, n: nat): seq<Summary>
    requires n <= |conn.past|
  {
    if n == 0 then []
    else
      FlowsOf(conn, n - 1) +
      match conn.past[n - 1]
      case DialFails(t) => [Summary(conn.target, false, Problem(Dialling, t))]
      case Copied => [Summary(conn.target, false, NoProblem)]
      case HandshakeFails(t) => [Summary(conn.target, false, Problem(Handshaking, t))]
      case Exchanged(x) =>
        var host := if n >= 2 then HostOf(conn, conn.past[n - 2]) else conn.target;
        ExchangeFlows(host, x)
      case _ => []
  }

  /** The flow that is on its way out. */
  function OnItsWay(conn: Conn): seq<Summary> {
    match conn.pc
    case Refused(t) => [Summary(conn.target, false, Problem(Handshaking, t))]
    case Noting(e) => [Summary(conn.target, false, e)]
    case Emitting(f) => [Summarize(f)]
    case _ => []
  }

  predicate ConnOk(conn: Conn) {
    && (conn.pc.Accepted? ==> !conn.allowed)
    && (conn.pc.Accepted? || conn.pc.Passed? ==> conn.past == [])
    && (!conn.allowed ==> conn.pc.Accepted? || conn.pc.Tunnelling? || conn.pc.Ended?
                          || (!conn.isConnect && (conn.pc.Serving? || conn.pc.Forwarding?)))
    && (conn.pc.Forwarding? ==> conn.past != [] && conn.pc.host == HostOf(conn, conn.past[|conn.past| - 1]))
  }

  ghost predicate FlowsExact(s: Sys) {
    && (forall c <- s.conns :: FlowsExactFor(s.log, c, s.conns[c]))
    && (forall c: nat :: c !in s.conns ==> EmittedBy(s.log, c) == [])
  }

  lemma {:induction false} EmittedBySnoc(log: seq<Event>, e: Event, c: nat)
    ensures EmittedBy(log + [e], c) ==
            EmittedBy(log, c) + (if e.Emitted? && e.c == c then [Summarize(e.flow)] else [])
  {
    if log == [] {
      assert log + [e] == [e] && [e][1..] == [];
    } else {
      assert (log + [e])[0] == log[0] && (log + [e])[1..] == log[1..] + [e];
      EmittedBySnoc(log[1..], e, c);
    }
  }

  lemma {:induction false} FlowsOfPrefix(conn: Conn, conn': Conn, n: nat)
    requires n <= |conn.past| && n <= |conn'.past| && conn.target == conn'.target
    requires forall i | 0 <= i < n :: conn.past[i] == conn'.past[i]
    ensures FlowsOf(conn, n) == FlowsOf(conn', n)
  {
    if n > 0 {
      FlowsOfPrefix(conn, conn', n - 1);
    }
  }

  function Reacted(conn: Conn, i: Incident, id: nat): Conn
    requires CanHappen(conn, i)
  {
    conn.(pc := React(conn, i, id), past := conn.past + [i])
  }

  lemma FlowsOfSnoc(conn: Conn, conn': Conn, i: Incident)
    requires conn'.past == conn.past + [i] && conn'.target == conn.target
    ensures FlowsOf(conn', |conn'.past|) ==
            FlowsOf(conn, |conn.past|) +
            match i
            case DialFails(t) => [Summary(conn.target, false, Problem(Dialling, t))]
            case Copied => [Summary(conn.target, false, NoProblem)]
            case HandshakeFails(t) => [Summary(conn.target, false, Problem(Handshaking, t))]
            case Exchanged(x) =>
              var host := if conn.past != [] then HostOf(conn, conn.past[|conn.past| - 1]) else conn.target;
              ExchangeFlows(host, x)
            case _ => []
  {
    var n := |conn.past|;
    FlowsOfPrefix(conn, conn', n);
    assert conn'.past[n] == i;
    if n > 0 {
      assert conn'.past[n - 1] == conn.past[n - 1];
    }
  }

  lemma ReactionCallsForFlow(conn: Conn, i: Incident, id: nat)
    requires ConnOk(conn) && CanHappen(conn, i)
    ensures CalledFor(Reacted(conn, i, id)) == CalledFor(conn) + OnItsWay(Reacted(conn, i, id))
  {
    FlowsOfSnoc(conn, Reacted(conn, i, id), i);
  }

  lemma ReactionKeepsConnOk(conn: Conn, i: Incident, id: nat)
    requires ConnOk(conn) && CanHappen(conn, i)
    ensures ConnOk(Reacted(conn, i, id))
  {
  }

  function Subject(l: Label): Option<nat> {
    if l.SetFilter? then None else Some(l.c)
  }

  ghost predicate FlowsExactFor(log: seq<Event>, c: nat, conn: Conn) {
    ConnOk(conn) && EmittedBy(log, c) + OnItsWay(conn) == CalledFor(conn)
  }

  lemma ReactionKeepsExact(conn: Conn, i: Incident, id: nat, emitted: seq<Summary>)
    requires ConnOk(conn) && CanHappen(conn, i) && emitted + OnItsWay(conn) == CalledFor(conn)
    ensures emitted + OnItsWay(Reacted(conn, i, id)) == CalledFor(Reacted(conn, i, id)) && ConnOk(Reacted(conn, i, id))
  {
    ReactionKeepsConnOk(conn, i, id);
    assert OnItsWay(conn) == [];
    assert emitted + [] == emitted;
    ReactionCallsForFlow(conn, i, id);
  }

  lemma SameCalledFor(conn: Conn, pc: Pc)
    ensures CalledFor(conn.(pc := pc)) == CalledFor(conn)
  {
    FlowsOfPrefix(conn, conn.(pc := pc), |conn.past|);
  }

  lemma FreshConnOwesNothing(conn: Conn, ok: bool)
    requires ConnOk(conn) && conn.pc.Accepted?
    ensures var pc := if !conn.isConnect then Serving else if ok then Passed else Tunnelling;
            var conn' := conn.(allowed := ok, pc := pc);
            CalledFor(conn) == [] && CalledFor(conn') == [] && OnItsWay(conn') == [] && ConnOk(conn')
  {
  }

  /** A connection moves on and says so in the log: what it emits was on its way. */
  lemma MoveKeepsFlows(log: seq<Event>, e: Event, c: nat, conn: Conn, pc: Pc)
    requires FlowsExactFor(log, c, conn) && ConnOk(conn.(pc := pc))
    requires OnItsWay(conn) ==
             (if e.Emitted? && e.c == c then [Summarize(e.flow)] else []) + OnItsWay(conn.(pc := pc))
    ensures FlowsExactFor(log + [e], c, conn.(pc := pc))
  {
    SameCalledFor(conn, pc);
    EmittedBySnoc(log, e, c);
  }

  lemma GateKeepsFlows(log: seq<Event>, e: Event, c: nat, conn: Conn, ok: bool)
    requires FlowsExactFor(log, c, conn) && conn.pc.Accepted? && e.Gated?
    ensures var pc := if !conn.isConnect then Serving else if ok then Passed else Tunnelling;
            FlowsExactFor(log + [e], c, conn.(allowed := ok, pc := pc))
  {
    EmittedBySnoc(log, e, c);
    FreshConnOwesNothing(conn, ok);
  }

  lemma LoggedMoveKeepsFlows(s: Sys, l: Label)
    requires Enabled(s, l) && (l.Check? || l.Learn? || l.Emit?) && FlowsExactFor(s.log, l.c, s.conns[l.c])
    ensures FlowsExactFor(Step(s, l).log, l.c, Step(s, l).conns[l.c])
  {
    MoveKeepsFlows(s.log, Step(s, l).log[|s.log|], l.c, s.conns[l.c], Step(s, l).conns[l.c].pc);
  }

  lemma SubjectKeepsFlows(s: Sys, l: Label)
    requires Enabled(s, l) && !l.SetFilter?
    requires if l.Open? then EmittedBy(s.log, l.c) == [] else FlowsExactFor(s.log, l.c, s.conns[l.c])
    ensures FlowsExactFor(Step(s, l).log, l.c, Step(s, l).conns[l.c])
  {
    var conn' := Step(s, l).conns[l.c];
    match l
    case Open(_, _, _, _) =>
      assert CalledFor(conn') == [];
    case Gate(c) =>
      GateKeepsFlows(s.log, Step(s, l).log[|s.log|], c, s.conns[c], conn'.allowed);
    case Happen(c, i) =>
      assert conn' == Reacted(s.conns[c], i, s.lastId + 1);
      ReactionKeepsExact(s.conns[c], i, s.lastId + 1, EmittedBy(s.log, c));
    case TakeId(c) =>
      SameCalledFor(s.conns[c], conn'.pc);
    case _ =>
      LoggedMoveKeepsFlows(s, l);
  }

  /** A step is logged once at most, and as a step of its own connection. */
  lemma StepLogsItself(s: Sys, l: Label)
    requires Enabled(s, l)
    ensures var log := Step(s, l).log;
            log == s.log ||
            (|log| > |s.log| && log == s.log + [log[|s.log|]] && Subject(l) == Some(log[|s.log|].c))
  {
  }

  lemma OthersStay(s: Sys, l: Label, c: nat)
    requires Enabled(s, l) && Subject(l) != Some(c)
    ensures var s' := Step(s, l); (c in s'.conns <==> c in s.conns) && (c in s.conns ==> s'.conns[c] == s.conns[c])
  {
  }

  lemma OthersEmitNothing(log: seq<Event>, log': seq<Event>, c: nat)
    requires log' == log || (|log'| > |log| && log' == log + [log'[|log|]] && log'[|log|].c != c)
    ensures EmittedBy(log', c) == EmittedBy(log, c)
  {
    if log' != log {
      EmittedBySnoc(log, log'[|log|], c);
    }
  }

  lemma StepKeepsFlows(s: Sys, l: Label)
    requires FlowsExact(s) && Enabled(s, l)
    ensures FlowsExact(Step(s, l))
  {
    var s' := Step(s, l);
    if !l.SetFilter? {
      SubjectKeepsFlows(s, l);
    }
    forall c: nat | Subject(l) != Some(c)
      ensures c in s'.conns ==> FlowsExactFor(s'.log, c, s'.conns[c])
      ensures c !in s'.conns ==> EmittedBy(s'.log, c) == []
    {
      OthersStay(s, l, c);
      StepLogsItself(s, l);
      OthersEmitNothing(s.log, s'.log, c);
    }
  }

  lemma {:induction false} RunKeepsFlows(s: Sys, run: seq<Label>)
    requires FlowsExact(s) && IsRun(s, run)
    ensures FlowsExact(After(s, run))
    decreases |run|
  {
    if run != [] {
      StepKeepsFlows(s, run[0]);
      RunKeepsFlows(Step(s, run[0]), run[1..]);
    }
  }

  /** Exact emission: once a connection has ended, the flows emitted for it are, in order, exactly those
      its history calls for, in every interleaving with other connections. */
  lemma EmissionIsExact(cfg: Config, f: Filter, run: seq<Label>, c: nat)
    requires IsRun(Start(cfg, f), run)
    requires c in After(Start(cfg, f), run).conns && After(Start(cfg, f), run).conns[c].pc.Ended?
    ensures EmittedBy(After(Start(cfg, f), run).log, c) == CalledFor(After(Start(cfg, f), run).conns[c])
  {
    RunKeepsFlows(Start(cfg, f), run);
  }
}
