/** Whole-run properties of the connection machine: who is intercepted and why, and flow ids. */
module ConnectRuns {
  import opened Wrappers
  import opened HostPort
  import opened Origin
  import opened Connect

  // ---- flow ids --------------------------------------------------------------------------------

  function Held(conn: Conn): Option<nat> {
    match conn.pc
    case Forwarding(id, _) => Some(id)
    case Emitting(f) => Some(f.id)
    case _ => None
  }

  predicate Fresh(log: seq<Event>, id: nat) {
    forall j | 0 <= j < |log| :: log[j].Emitted? ==> log[j].flow.id != id
  }

  ghost predicate IdsOk(s: Sys) {
    LogIdsOk(s) && HeldIdsOk(s)
  }

  ghost predicate LogIdsOk(s: Sys) {
    && (forall j | 0 <= j < |s.log| :: s.log[j].Emitted? ==> s.log[j].flow.id <= s.lastId)
    && (forall i, j | 0 <= i < j < |s.log| ::
          s.log[i].Emitted? && s.log[j].Emitted? ==> s.log[i].flow.id != s.log[j].flow.id)
  }

  ghost predicate HeldIdsOk(s: Sys) {
    && (forall c <- s.conns :: Held(s.conns[c]).Some? ==>
          Held(s.conns[c]).value <= s.lastId && Fresh(s.log, Held(s.conns[c]).value))
    && (forall c <- s.conns, d <- s.conns :: c != d && Held(s.conns[c]).Some? ==> Held(s.conns[c]) != Held(s.conns[d]))
  }

  lemma EmitKeepsIds(s: Sys, c: nat)
    requires IdsOk(s) && Enabled(s, Emit(c))
    ensures IdsOk(Step(s, Emit(c)))
  {
    var s' := Step(s, Emit(c));
    var f := s.conns[c].pc.flow;
    assert Held(s.conns[c]) == Some(f.id);
    assert s'.log == s.log + [Emitted(c, f)];
    forall d <- s'.conns | Held(s'.conns[d]).Some?
      ensures Held(s'.conns[d]).value <= s'.lastId && Fresh(s'.log, Held(s'.conns[d]).value)
    {
      assert d != c && s'.conns[d] == s.conns[d];
    }
  }

  /** A step that only takes, keeps or gives up an id. */
  lemma QuietStepKeepsIds(s: Sys, l: Label)
    requires IdsOk(s) && Enabled(s, l) && !l.Emit?
    ensures IdsOk(Step(s, l))
  {
    var s' := Step(s, l);
    forall j | 0 <= j < |s'.log| && s'.log[j].Emitted? ensures j < |s.log| && s'.log[j] == s.log[j] {
    }
    assert Fresh(s.log, s.lastId + 1);
    forall d <- s'.conns | Held(s'.conns[d]).Some?
      ensures Held(s'.conns[d]).value <= s'.lastId && Fresh(s'.log, Held(s'.conns[d]).value)
      ensures (d in s.conns && Held(s'.conns[d]) == Held(s.conns[d])) || Held(s'.conns[d]) == Some(s.lastId + 1)
    {
      if d in s.conns && s'.conns[d] == s.conns[d] {
      } else {
        assert Subject(l) == Some(d);
      }
    }
  }

  // ---- decisions -----------------------------------------------------------------------------------

  predicate PastCheck(pc: Pc) {
    !pc.Accepted? && !pc.Passed?
  }

  predicate MidIntercept(pc: Pc) {
    pc.Intercepting? || pc.Refused?
  }

  /** An allowed gate of this connection, under the filter it read. */
  ghost predicate WasAllowed(s: Sys, events: seq<Event>, c: nat)
    requires c in s.conns
  {
    exists f :: Gated(c, f, true) in events && Allows(s.cfg.filtering, f, s.conns[c].origin)
  }

  ghost predicate CheckedEventOk(s: Sys, j: nat)
    requires j < |s.log| && s.log[j].Checked?
  {
    var e := s.log[j];
    && e.c in s.conns && s.conns[e.c].isConnect
    && e.host == HostOnly(s.conns[e.c].target) && PastCheck(s.conns[e.c].pc)
    && WasAllowed(s, s.log[..j], e.c)
  }

  ghost predicate CheckedEventsOk(s: Sys) {
    forall j | 0 <= j < |s.log| && s.log[j].Checked? :: CheckedEventOk(s, j)
  }

  /** A connection is checked at most once. */
  ghost predicate OneCheckEach(log: seq<Event>) {
    forall i, j | 0 <= i < j < |log| :: log[i].Checked? && log[j].Checked? ==> log[i].c != log[j].c
  }

  ghost predicate PassedOk(s: Sys) {
    forall c <- s.conns :: s.conns[c].pc.Passed? ==> s.conns[c].isConnect && WasAllowed(s, s.log, c)
  }

  ghost predicate ChecksOk(s: Sys) {
    CheckedEventsOk(s) && OneCheckEach(s.log) && PassedOk(s)
  }

  ghost predicate LearnedEventsOk(s: Sys) {
    forall j | 0 <= j < |s.log| && s.log[j].Learned? ::
      var e := s.log[j];
      && e.host in s.learned && e.c in s.conns
      && PastCheck(s.conns[e.c].pc) && !MidIntercept(s.conns[e.c].pc)
      && Checked(e.c, e.host, false) in s.log[..j]
  }

  /** A check that follows the learning of its host says tunnel. */
  ghost predicate OnceLearnedTunnelled(log: seq<Event>) {
    forall i, j | 0 <= i < j < |log| ::
      log[i].Learned? && log[j].Checked? && log[i].host == log[j].host ==> log[j].tunnel
  }

  /** A connection learns at most once. */
  ghost predicate OneLearnEach(log: seq<Event>) {
    forall i, j | 0 <= i < j < |log| :: log[i].Learned? && log[j].Learned? ==> log[i].c != log[j].c
  }

  ghost predicate LearnsOk(s: Sys) {
    && LearnedEventsOk(s)
    && OneLearnEach(s.log)
    && OnceLearnedTunnelled(s.log)
    && (forall c <- s.conns :: MidIntercept(s.conns[c].pc) ==>
          Checked(c, HostOnly(s.conns[c].target), false) in s.log)
  }

  /** A CONNECT whose requests are being read in the clear was checked and not tunnelled. */
  ghost predicate ClearConnsOk(s: Sys) {
    forall c <- s.conns :: s.conns[c].isConnect && InTheClear(s.conns[c].pc) ==>
      Checked(c, HostOnly(s.conns[c].target), false) in s.log
  }

  ghost predicate ClearFlowsOk(s: Sys) {
    forall j | 0 <= j < |s.log| && s.log[j].Emitted? && s.log[j].flow.intercepted ::
      var c := s.log[j].c;
      c in s.conns && (s.conns[c].isConnect ==> Checked(c, HostOnly(s.conns[c].target), false) in s.log)
  }

  ghost predicate ClearOk(s: Sys) {
    ClearConnsOk(s) && ClearFlowsOk(s)
  }

  predicate InTheClear(pc: Pc) {
    pc.Intercepting? || pc.Serving? || pc.Forwarding? || (pc.Emitting? && pc.flow.intercepted)
  }

  /** The log only grows, and what identifies a connection stays. */
  lemma StepExtends(s: Sys, l: Label)
    requires Enabled(s, l)
    ensures var s' := Step(s, l);
            && s.log <= s'.log && |s'.log| <= |s.log| + 1
            && s.learned <= s'.learned && s'.cfg == s.cfg
            && forall c <- s.conns ::
                 && c in s'.conns && s'.conns[c].isConnect == s.conns[c].isConnect
                 && s'.conns[c].target == s.conns[c].target && s'.conns[c].origin == s.conns[c].origin
                 && (PastCheck(s.conns[c].pc) ==> PastCheck(s'.conns[c].pc))
  {
  }

  lemma AllowedStays(s: Sys, s': Sys, c: nat, a: seq<Event>, b: seq<Event>)
    requires c in s.conns && c in s'.conns && s'.cfg == s.cfg && s'.conns[c].origin == s.conns[c].origin
    requires a <= b && WasAllowed(s, a, c)
    ensures WasAllowed(s', b, c)
  {
    var f :| Gated(c, f, true) in a && Allows(s.cfg.filtering, f, s.conns[c].origin);
    assert Gated(c, f, true) in b;
  }

  lemma StepKeepsCheckedEvents(s: Sys, l: Label)
    requires ChecksOk(s) && Enabled(s, l)
    ensures CheckedEventsOk(Step(s, l)) && OneCheckEach(Step(s, l).log)
  {
    var s' := Step(s, l);
    StepExtends(s, l);
    forall j | 0 <= j < |s'.log| && s'.log[j].Checked?
      ensures CheckedEventOk(s', j)
    {
      var e := s'.log[j];
      if j < |s.log| {
        assert CheckedEventOk(s, j) && e == s.log[j] && s'.log[..j] == s.log[..j];
        AllowedStays(s, s', e.c, s.log[..j], s'.log[..j]);
      } else {
        assert l.Check? && s'.log[..j] == s.log;
        AllowedStays(s, s', e.c, s.log, s'.log[..j]);
      }
    }
    forall i, j | 0 <= i < j < |s'.log| && s'.log[i].Checked? && s'.log[j].Checked?
      ensures s'.log[i].c != s'.log[j].c
    {
      assert CheckedEventOk(s, i) && s'.log[i] == s.log[i];
    }
  }

  lemma StepKeepsPassed(s: Sys, l: Label)
    requires ChecksOk(s) && Enabled(s, l)
    ensures PassedOk(Step(s, l))
  {
    var s' := Step(s, l);
    StepExtends(s, l);
    forall c <- s'.conns | s'.conns[c].pc.Passed? ensures s'.conns[c].isConnect && WasAllowed(s', s'.log, c) {
      if l.Gate? && l.c == c {
        assert Gated(c, s.filter, true) in s'.log;
      } else {
        assert c in s.conns && s.conns[c].pc.Passed?;
        AllowedStays(s, s', c, s.log, s'.log);
      }
    }
  }

  lemma StepKeepsLearnedEvents(s: Sys, l: Label)
    requires LearnsOk(s) && Enabled(s, l)
    ensures LearnedEventsOk(Step(s, l))
  {
    var s' := Step(s, l);
    StepExtends(s, l);
    forall j | 0 <= j < |s'.log| && s'.log[j].Learned?
      ensures var e := s'.log[j];
              && e.host in s'.learned && e.c in s'.conns
              && PastCheck(s'.conns[e.c].pc) && !MidIntercept(s'.conns[e.c].pc)
              && Checked(e.c, e.host, false) in s'.log[..j]
    {
      if j < |s.log| {
        assert s'.log[j] == s.log[j] && s'.log[..j] == s.log[..j];
      } else {
        assert l.Learn? && s'.log[..j] == s.log;
      }
    }
  }

  lemma StepKeepsMidIntercept(s: Sys, l: Label)
    requires LearnsOk(s) && Enabled(s, l)
    ensures var s' := Step(s, l);
            forall c <- s'.conns :: MidIntercept(s'.conns[c].pc) ==>
              Checked(c, HostOnly(s'.conns[c].target), false) in s'.log
  {
    var s' := Step(s, l);
    forall c <- s'.conns | MidIntercept(s'.conns[c].pc)
      ensures Checked(c, HostOnly(s'.conns[c].target), false) in s'.log
    {
      if l.Check? && l.c == c {
        assert s'.log[|s.log|] == Checked(c, HostOnly(s.conns[c].target), false);
      } else {
        assert c in s.conns && MidIntercept(s.conns[c].pc);
      }
    }
  }

  lemma StepKeepsOrder(s: Sys, l: Label)
    requires LearnsOk(s) && Enabled(s, l)
    ensures OnceLearnedTunnelled(Step(s, l).log) && OneLearnEach(Step(s, l).log)
  {
    var s' := Step(s, l);
    if l.Check? {
      var e := s'.log[|s.log|];
      assert s'.log == s.log + [e];
      forall i | 0 <= i < |s.log| && s.log[i].Learned? && s.log[i].host == e.host ensures e.tunnel {
        assert s.log[i].host in s.learned;
      }
    } else if s'.log != s.log {
      assert s'.log == s.log + [s'.log[|s.log|]];
    }
  }

  lemma StepKeepsClearConns(s: Sys, l: Label)
    requires ClearConnsOk(s) && Enabled(s, l)
    ensures ClearConnsOk(Step(s, l))
  {
    var s' := Step(s, l);
    forall c <- s'.conns | s'.conns[c].isConnect && InTheClear(s'.conns[c].pc)
      ensures Checked(c, HostOnly(s'.conns[c].target), false) in s'.log
    {
      if l.Check? && l.c == c {
        assert s'.log[|s.log|] == Checked(c, HostOnly(s.conns[c].target), false);
      } else {
        assert c in s.conns && InTheClear(s.conns[c].pc);
      }
    }
  }

  lemma StepKeepsClearFlows(s: Sys, l: Label)
    requires ClearOk(s) && Enabled(s, l)
    ensures ClearFlowsOk(Step(s, l))
  {
    var s' := Step(s, l);
    StepExtends(s, l);
    forall j | 0 <= j < |s'.log| && s'.log[j].Emitted? && s'.log[j].flow.intercepted
      ensures var c := s'.log[j].c;
              c in s'.conns && (s'.conns[c].isConnect ==> Checked(c, HostOnly(s'.conns[c].target), false) in s'.log)
    {
      if j < |s.log| {
        assert s'.log[j] == s.log[j];
      }
    }
  }

  ghost predicate Inv(s: Sys) {
    IdsOk(s) && ChecksOk(s) && LearnsOk(s) && ClearOk(s)
  }

  lemma StepKeepsInv(s: Sys, l: Label)
    requires Inv(s) && Enabled(s, l)
    ensures Inv(Step(s, l))
  {
    if l.Emit? {
      EmitKeepsIds(s, l.c);
    } else {
      QuietStepKeepsIds(s, l);
    }
    StepKeepsCheckedEvents(s, l);
    StepKeepsPassed(s, l);
    StepKeepsLearnedEvents(s, l);
    StepKeepsMidIntercept(s, l);
    StepKeepsOrder(s, l);
    StepKeepsClearConns(s, l);
    StepKeepsClearFlows(s, l);
  }

  lemma {:induction false} RunKeepsInv(s: Sys, run: seq<Label>)
    requires Inv(s) && IsRun(s, run)
    ensures Inv(After(s, run)) && After(s, run).cfg == s.cfg && s.learned <= After(s, run).learned
    decreases |run|
  {
    if run != [] {
      StepKeepsInv(s, run[0]);
      StepExtends(s, run[0]);
      RunKeepsInv(Step(s, run[0]), run[1..]);
    }
  }

  // ---- the results ---------------------------------------------------------------------------------

  /** No two flows ever emitted share an id. */
  lemma FlowIdsAreDistinct(cfg: Config, f: Filter, run: seq<Label>)
    requires IsRun(Start(cfg, f), run)
    ensures var log := After(Start(cfg, f), run).log;
            forall i, j | 0 <= i < j < |log| ::
              log[i].Emitted? && log[j].Emitted? ==> log[i].flow.id != log[j].flow.id
  {
    RunKeepsInv(Start(cfg, f), run);
  }

  /** This connection showed nothing in the clear and refused nothing. */
  ghost predicate LeftAlone(log: seq<Event>, c: nat) {
    forall e <- log | e.c == c :: !e.Learned? && !(e.Emitted? && e.flow.intercepted)
  }

  lemma OneVerdict(log: seq<Event>, j: nat, host: string, n: nat)
    requires OneCheckEach(log) && j < |log| && log[j].Checked? && log[j].tunnel && n <= |log|
    ensures Checked(log[j].c, host, false) !in log[..n]
  {
    forall i | 0 <= i < n ensures log[..n][i] != Checked(log[j].c, host, false) {
    }
  }

  lemma TunnelledIsLeftAlone(s: Sys, j: nat)
    requires CheckedEventsOk(s) && OneCheckEach(s.log) && LearnedEventsOk(s) && ClearFlowsOk(s)
    requires j < |s.log| && s.log[j].Checked? && s.log[j].tunnel
    ensures LeftAlone(s.log, s.log[j].c)
  {
    var c := s.log[j].c;
    assert CheckedEventOk(s, j);
    OneVerdict(s.log, j, HostOnly(s.conns[c].target), |s.log|);
    assert s.log[..|s.log|] == s.log;
    forall k | 0 <= k < |s.log| && s.log[k].c == c ensures !s.log[k].Learned? {
      if s.log[k].Learned? {
        OneVerdict(s.log, j, s.log[k].host, k);
      }
    }
  }

  /** Once a host is learned it stays learned, and a connection to it, on any port, whose check comes later is
      never read in the clear and offered no certificate to refuse. */
  lemma LearnedHostsAreTunnelled(cfg: Config, f: Filter, run: seq<Label>, more: seq<Label>)
    requires IsRun(Start(cfg, f), run) && IsRun(After(Start(cfg, f), run), more)
    ensures After(Start(cfg, f), run).learned <= After(After(Start(cfg, f), run), more).learned
    ensures var log := After(After(Start(cfg, f), run), more).log;
            && OnceLearnedTunnelled(log)
            && forall i, j | 0 <= i < j < |log| && log[i].Learned? && log[j].Checked? && log[i].host == log[j].host ::
                 LeftAlone(log, log[j].c)
  {
    RunKeepsInv(Start(cfg, f), run);
    RunKeepsInv(After(Start(cfg, f), run), more);
    var s := After(After(Start(cfg, f), run), more);
    forall i, j | 0 <= i < j < |s.log| && s.log[i].Learned? && s.log[j].Checked? && s.log[i].host == s.log[j].host
      ensures LeftAlone(s.log, s.log[j].c)
    {
      TunnelledIsLeftAlone(s, j);
    }
  }

  lemma GateIsLogged(s: Sys, c: nat, host: string) returns (k: nat)
    requires ChecksOk(s) && Checked(c, host, false) in s.log
    ensures k < |s.log| && s.log[k].Gated? && s.log[k].c == c && c in s.conns
    ensures Allows(s.cfg.filtering, s.log[k].filter, s.conns[c].origin)
  {
    var i :| 0 <= i < |s.log| && s.log[i] == Checked(c, host, false);
    assert CheckedEventOk(s, i);
    var g :| Gated(c, g, true) in s.log[..i] && Allows(s.cfg.filtering, g, s.conns[c].origin);
    k :| 0 <= k < i && s.log[..i][k] == Gated(c, g, true);
  }

  /** Every flow read in the clear inside a CONNECT, and every refused handshake, follows a gate that its connection
      passed. */
  lemma InterceptionWasGated(cfg: Config, f: Filter, run: seq<Label>, j: nat) returns (k: nat)
    requires IsRun(Start(cfg, f), run) && j < |After(Start(cfg, f), run).log|
    requires var s := After(Start(cfg, f), run); var e := s.log[j];
             e.Learned? || (e.Emitted? && e.flow.intercepted && e.c in s.conns && s.conns[e.c].isConnect)
    ensures var s := After(Start(cfg, f), run);
            && k < |s.log| && s.log[k].Gated? && s.log[k].c == s.log[j].c && s.log[j].c in s.conns
            && Allows(cfg.filtering, s.log[k].filter, s.conns[s.log[j].c].origin)
  {
    RunKeepsInv(Start(cfg, f), run);
    var s := After(Start(cfg, f), run);
    var e := s.log[j];
    if e.Learned? {
      var i :| 0 <= i < j && s.log[..j][i] == Checked(e.c, e.host, false);
      assert s.log[i] == Checked(e.c, e.host, false);
      k := GateIsLogged(s, e.c, e.host);
    } else {
      k := GateIsLogged(s, e.c, HostOnly(s.conns[e.c].target));
    }
  }

  // ---- how often a client can refuse ------------------------------------------------------------------

  function Conns(log: seq<Event>): set<nat> {
    set e | e in log :: e.c
  }

  /** The connections whose interception of `host` was refused. */
  function Refusers(log: seq<Event>, host: string): set<nat> {
    set e | e in log && e.Learned? && e.host == host :: e.c
  }

  /** No refusal of `host` is recorded. */
  predicate Unlearned(log: seq<Event>, host: string) {
    forall e <- log :: e.Learned? ==> e.host != host
  }

  /** The connections that were told to intercept `host` before any refusal of it. */
  ghost function EarlyCheckers(log: seq<Event>, host: string): set<nat> {
    set c | c in Conns(log) &&
      exists k :: 0 <= k < |log| && log[k] == Checked(c, host, false) && Unlearned(log[..k], host)
  }

  lemma SubsetIsSmaller(a: set<nat>, b: set<nat>)
    requires a <= b
    ensures |a| <= |b|
  {
    assert b == a + (b - a);
  }

  lemma RefuserCheckedEarly(log: seq<Event>, host: string, j: nat)
    requires OnceLearnedTunnelled(log)
    requires j < |log| && log[j].Learned? && log[j].host == host
    requires Checked(log[j].c, host, false) in log[..j]
    ensures log[j].c in EarlyCheckers(log, host)
  {
    var k :| 0 <= k < j && log[..j][k] == Checked(log[j].c, host, false);
    assert log[k] == Checked(log[j].c, host, false) && log[k] in log;
    forall d <- log[..k] | d.Learned? ensures d.host != host {
      var i :| 0 <= i < k && log[..k][i] == d;
      assert log[i] == d;
    }
    assert Unlearned(log[..k], host);
  }

  /** Each refusal of a host comes from its own connection, and each of those had its check before the first
      refusal of that host: there are no more refusals than checks in flight at that moment. */
  lemma RefusalsAreBounded(cfg: Config, f: Filter, run: seq<Label>, host: string)
    requires IsRun(Start(cfg, f), run)
    ensures var log := After(Start(cfg, f), run).log;
            && OneLearnEach(log)
            && Refusers(log, host) <= EarlyCheckers(log, host)
            && |Refusers(log, host)| <= |EarlyCheckers(log, host)|
  {
    RunKeepsInv(Start(cfg, f), run);
    var log := After(Start(cfg, f), run).log;
    forall c <- Refusers(log, host) ensures c in EarlyCheckers(log, host) {
      var e :| e in log && e.Learned? && e.host == host && e.c == c;
      var j :| 0 <= j < |log| && log[j] == e;
      RefuserCheckedEarly(log, host, j);
    }
    SubsetIsSmaller(Refusers(log, host), EarlyCheckers(log, host));
  }

  /** A connection is opened only when all earlier ones have ended. */
  ghost predicate OneByOne(s: Sys, run: seq<Label>)
    requires IsRun(s, run)
    decreases |run|
  {
    run != [] ==>
      (run[0].Open? ==> forall c <- s.conns :: s.conns[c].pc.Ended?) && OneByOne(Step(s, run[0]), run[1..])
  }

  ghost predicate OneOpen(s: Sys) {
    forall c <- s.conns, d <- s.conns :: c == d || s.conns[c].pc.Ended? || s.conns[d].pc.Ended?
  }

  /** Whoever is being intercepted is so for a host that nobody has refused. */
  ghost predicate InterceptedAreUnlearned(s: Sys) {
    forall c <- s.conns :: MidIntercept(s.conns[c].pc) ==> HostOnly(s.conns[c].target) !in s.learned
  }

  ghost predicate LearnedOnce(s: Sys) {
    && (forall j | 0 <= j < |s.log| && s.log[j].Learned? :: s.log[j].host in s.learned)
    && (forall i, j | 0 <= i < j < |s.log| :: s.log[i].Learned? && s.log[j].Learned? ==> s.log[i].host != s.log[j].host)
  }

  ghost predicate OneByOneOk(s: Sys) {
    OneOpen(s) && InterceptedAreUnlearned(s) && LearnedOnce(s)
  }

  lemma StepKeepsOneOpen(s: Sys, l: Label)
    requires OneOpen(s) && Enabled(s, l) && (l.Open? ==> forall c <- s.conns :: s.conns[c].pc.Ended?)
    ensures OneOpen(Step(s, l))
  {
  }

  lemma StepKeepsUnlearned(s: Sys, l: Label)
    requires OneOpen(s) && InterceptedAreUnlearned(s) && Enabled(s, l)
    ensures InterceptedAreUnlearned(Step(s, l))
  {
    var s' := Step(s, l);
    if l.Learn? {
      assert forall d <- s.conns :: d != l.c ==> s.conns[d].pc.Ended?;
    }
    forall c <- s'.conns | MidIntercept(s'.conns[c].pc) ensures HostOnly(s'.conns[c].target) !in s'.learned {
      if l.Check? && l.c == c {
        assert !ShouldTunnel(s.cfg, s.learned, s.conns[c].target);
      } else {
        assert c in s.conns && MidIntercept(s.conns[c].pc) && s'.conns[c].target == s.conns[c].target;
      }
    }
  }

  lemma StepKeepsLearnedOnce(s: Sys, l: Label)
    requires InterceptedAreUnlearned(s) && LearnedOnce(s) && Enabled(s, l)
    ensures LearnedOnce(Step(s, l))
  {
    var s' := Step(s, l);
    if s'.log != s.log {
      assert s'.log == s.log + [s'.log[|s.log|]];
    }
  }

  lemma {:induction false} RunKeepsOneByOne(s: Sys, run: seq<Label>)
    requires OneByOneOk(s) && IsRun(s, run) && OneByOne(s, run)
    ensures OneByOneOk(After(s, run))
    decreases |run|
  {
    if run != [] {
      StepKeepsOneOpen(s, run[0]);
      StepKeepsUnlearned(s, run[0]);
      StepKeepsLearnedOnce(s, run[0]);
      RunKeepsOneByOne(Step(s, run[0]), run[1..]);
    }
  }

  /** When connections do not overlap a client gets to refuse a host once. */
  lemma OneRefusalPerHost(cfg: Config, f: Filter, run: seq<Label>)
    requires IsRun(Start(cfg, f), run) && OneByOne(Start(cfg, f), run)
    ensures var log := After(Start(cfg, f), run).log;
            forall i, j | 0 <= i < j < |log| :: log[i].Learned? && log[j].Learned? ==> log[i].host != log[j].host
  {
    RunKeepsOneByOne(Start(cfg, f), run);
  }
}
