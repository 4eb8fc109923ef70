/** What a whole run shows of one connection: one kind of flow, one flow per refusal, one per plain request. */
module ConnectFlows {
  import opened Wrappers
  import opened Origin
  import opened Connect

  /** What can happen to a connection that is read in the clear. */
  predicate InClear(i: Incident) {
    i.HandshakeOk? || i.Requested? || i.Exchanged? || i.Closed?
  }

  predicate AllInClear(past: seq<Incident>) {
    forall i | 0 <= i < |past| :: InClear(past[i])
  }

  /** Which histories can have led to where a CONNECT stands. */
  predicate ConnectPast(conn: Conn) {
    var past := conn.past;
    && (past != [] && past[0].HandshakeFails? ==> conn.allowed)
    && match conn.pc
       case Accepted => past == []
       case Passed => past == []
       case Tunnelling => past == []
       case Intercepting => past == []
       case Refused(t) => past == [HandshakeFails(t)]
       case Noting(_) => |past| == 1
       case Emitting(f) => if f.intercepted then AllInClear(past) else |past| == 1
       case Serving => AllInClear(past)
       case Forwarding(_, _) => AllInClear(past)
       case Ended => AllInClear(past) || |past| == 1
  }

  predicate OneExchange(past: seq<Incident>) {
    |past| == 2 && past[0].Requested? && past[1].Exchanged?
  }

  /** And a plain request. */
  predicate PlainPast(conn: Conn) {
    var past := conn.past;
    match conn.pc
    case Accepted => past == []
    case Serving => past == []
    case Forwarding(_, _) => |past| == 1 && past[0].Requested?
    case Emitting(f) => OneExchange(past) && f.intercepted
    case Ended => OneExchange(past)
    case _ => false
  }

  predicate PastOk(conn: Conn) {
    if conn.isConnect then ConnectPast(conn) else PlainPast(conn)
  }

  ghost predicate PastsOk(s: Sys) {
    forall c <- s.conns :: PastOk(s.conns[c])
  }

  lemma SnocInClear(past: seq<Incident>, i: Incident)
    requires AllInClear(past) && InClear(i)
    ensures AllInClear(past + [i])
  {
  }

  lemma ReactionKeepsPast(conn: Conn, i: Incident, id: nat)
    requires ConnOk(conn) && PastOk(conn) && CanHappen(conn, i)
    ensures PastOk(Reacted(conn, i, id))
  {
    if conn.isConnect && (conn.pc.Serving? || conn.pc.Forwarding?) {
      SnocInClear(conn.past, i);
      assert conn.past != [] ==> InClear(conn.past[0]);
    }
  }

  lemma StepKeepsPasts(s: Sys, l: Label)
    requires Enabled(s, l) && PastsOk(s) && forall c <- s.conns :: ConnOk(s.conns[c])
    ensures PastsOk(Step(s, l))
  {
    var s' := Step(s, l);
    forall c <- s'.conns ensures PastOk(s'.conns[c]) {
      if Subject(l) != Some(c) {
        assert c in s.conns && s'.conns[c] == s.conns[c];
      } else if l.Happen? {
        ReactionKeepsPast(s.conns[c], l.i, s.lastId + 1);
      }
    }
  }

  lemma {:induction false} RunKeepsPasts(s: Sys, run: seq<Label>)
    requires FlowsExact(s) && PastsOk(s) && IsRun(s, run)
    ensures FlowsExact(After(s, run)) && PastsOk(After(s, run))
    decreases |run|
  {
    if run != [] {
      assert forall c <- s.conns :: FlowsExactFor(s.log, c, s.conns[c]);
      StepKeepsFlows(s, run[0]);
      StepKeepsPasts(s, run[0]);
      RunKeepsPasts(Step(s, run[0]), run[1..]);
    }
  }

  predicate AllIntercepted(flows: seq<Summary>) {
    forall i | 0 <= i < |flows| :: flows[i].intercepted
  }

  lemma {:induction false} ClearPastShowsIntercepted(conn: Conn, n: nat)
    requires AllInClear(conn.past) && n <= |conn.past|
    ensures AllIntercepted(FlowsOf(conn, n))
  {
    if n > 0 {
      assert InClear(conn.past[n - 1]);
      ClearPastShowsIntercepted(conn, n - 1);
    }
  }

  lemma ShortPastShowsOne(conn: Conn)
    requires |conn.past| == 1
    ensures |FlowsOf(conn, 1)| <= 1
  {
    assert FlowsOf(conn, 0) == [];
  }

  lemma OneKindCalledFor(conn: Conn)
    requires PastOk(conn)
    ensures AllIntercepted(CalledFor(conn)) || |CalledFor(conn)| <= 1
  {
    if |conn.past| == 1 {
      ShortPastShowsOne(conn);
    } else {
      assert AllInClear(conn.past);
      ClearPastShowsIntercepted(conn, |conn.past|);
    }
  }

  lemma RefusalCallsForOne(conn: Conn, reason: string)
    requires PastOk(conn) && conn.pc.Ended? && HandshakeFails(reason) in conn.past
    ensures CalledFor(conn) == [Summary(conn.target, false, Problem(Handshaking, reason))]
  {
    var i :| 0 <= i < |conn.past| && conn.past[i] == HandshakeFails(reason);
    assert !InClear(conn.past[i]);
    assert FlowsOf(conn, 0) == [];
  }

  lemma PlainRequestCallsForOne(conn: Conn)
    requires PlainPast(conn) && conn.pc.Ended?
    ensures CalledFor(conn) ==
            if conn.allowed then ExchangeFlows(HostOf(conn, conn.past[0]), conn.past[1].x) else []
  {
    assert FlowsOf(conn, 0) == [];
    assert FlowsOf(conn, 1) == [];
  }

  lemma EmittedIsPrefix(s: Sys, c: nat)
    requires FlowsExact(s) && c in s.conns
    ensures EmittedBy(s.log, c) <= CalledFor(s.conns[c])
    ensures s.conns[c].pc.Ended? ==> EmittedBy(s.log, c) == CalledFor(s.conns[c])
  {
    assert FlowsExactFor(s.log, c, s.conns[c]);
    assert EmittedBy(s.log, c) + [] == EmittedBy(s.log, c);
  }

  lemma RunIsExact(cfg: Config, f: Filter, run: seq<Label>, c: nat)
    requires IsRun(Start(cfg, f), run) && c in After(Start(cfg, f), run).conns
    ensures var s := After(Start(cfg, f), run);
            && PastOk(s.conns[c])
            && EmittedBy(s.log, c) <= CalledFor(s.conns[c])
            && (s.conns[c].pc.Ended? ==> EmittedBy(s.log, c) == CalledFor(s.conns[c]))
  {
    RunKeepsPasts(Start(cfg, f), run);
    EmittedIsPrefix(After(Start(cfg, f), run), c);
  }

  /** At every moment of every run, the flows shown for a connection are either all read in the clear, or there is
      at most one: a tunnel shows one flow at most, and never next to decrypted ones.  A connection that the filter
      turned away shows none. */
  lemma OneKindOfFlow(cfg: Config, f: Filter, run: seq<Label>, c: nat)
    requires IsRun(Start(cfg, f), run) && c in After(Start(cfg, f), run).conns
    ensures var s := After(Start(cfg, f), run);
            var shown := EmittedBy(s.log, c);
            (AllIntercepted(shown) || |shown| <= 1) && (!s.conns[c].allowed ==> shown == [])
  {
    RunIsExact(cfg, f, run, c);
    OneKindCalledFor(After(Start(cfg, f), run).conns[c]);
  }

  /** A CONNECT whose client refused the handshake shows, once it is over, exactly one flow: un-intercepted, for the
      CONNECT target, with the reason. */
  lemma RefusalShowsOneFlow(cfg: Config, f: Filter, run: seq<Label>, c: nat, reason: string)
    requires IsRun(Start(cfg, f), run) && c in After(Start(cfg, f), run).conns
    requires var conn := After(Start(cfg, f), run).conns[c];
             conn.pc.Ended? && HandshakeFails(reason) in conn.past
    ensures var s := After(Start(cfg, f), run);
            EmittedBy(s.log, c) == [Summary(s.conns[c].target, false, Problem(Handshaking, reason))]
  {
    RunIsExact(cfg, f, run, c);
    RefusalCallsForOne(After(Start(cfg, f), run).conns[c], reason);
  }

  /** A CONNECT that was tunnelled shows, once it is over, one un-intercepted flow for its target if bytes were copied,
      one with the reason if the dial failed, and none if the client was lost before; and none at all if the filter
      turned it away. */
  lemma TunnelShowsOneFlow(cfg: Config, f: Filter, run: seq<Label>, c: nat, i: Incident)
    requires IsRun(Start(cfg, f), run) && c in After(Start(cfg, f), run).conns
    requires var conn := After(Start(cfg, f), run).conns[c];
             conn.pc.Ended? && conn.past == [i] && !i.HandshakeFails? && !InClear(i)
    ensures var s := After(Start(cfg, f), run);
            EmittedBy(s.log, c) ==
            if !s.conns[c].allowed then []
            else if i.Copied? then [Summary(s.conns[c].target, false, NoProblem)]
            else if i.DialFails? then [Summary(s.conns[c].target, false, Problem(Dialling, i.text))]
            else []
  {
    RunIsExact(cfg, f, run, c);
    assert FlowsOf(After(Start(cfg, f), run).conns[c], 0) == [];
  }

  /** This is the flow of that exchange. */
  predicate Tells(f: Summary, host: string, x: Exchange) {
    && f.host == host && f.intercepted
    && match x
       case BuildError(text) => f.error == Problem(Building, text)
       case RoundTripError(text) => f.error == Problem(RoundTripping, text)
       case Response(status, relayError) =>
         && 100 <= status <= 999
         && f.error == if relayError.Some? then Problem(Relaying, relayError.value) else NoProblem
  }

  predicate CannotBeRelayed(x: Exchange) {
    x.Response? && (x.status < 100 || x.status > 999)
  }

  /** An exchange calls for exactly one flow, which tells its host and what went wrong, or, with a status below 100 or
      above 999, for none. */
  lemma ExchangeIsTold(host: string, x: Exchange)
    ensures var flows := ExchangeFlows(host, x);
            if CannotBeRelayed(x) then flows == [] else |flows| == 1 && Tells(flows[0], host, x)
    ensures Aborts(x) <==> CannotBeRelayed(x)
  {
  }

  /** A plain request shows, once it is over, exactly one intercepted flow, which tells its host and the exchange's
      error if it had one, if and only if the filter let it through and the upstream's status is one that can be
      relayed; otherwise none. */
  lemma PlainRequestShowsOneFlow(cfg: Config, f: Filter, run: seq<Label>, c: nat)
    requires IsRun(Start(cfg, f), run) && c in After(Start(cfg, f), run).conns
    requires var conn := After(Start(cfg, f), run).conns[c]; conn.pc.Ended? && !conn.isConnect
    ensures var s := After(Start(cfg, f), run);
            var conn := s.conns[c];
            var shown := EmittedBy(s.log, c);
            && OneExchange(conn.past)
            && var host, x := if conn.past[0].host != "" then conn.past[0].host else conn.target, conn.past[1].x;
            if conn.allowed && !CannotBeRelayed(x) then |shown| == 1 && Tells(shown[0], host, x) else shown == []
  {
    RunIsExact(cfg, f, run, c);
    var conn := After(Start(cfg, f), run).conns[c];
    PlainRequestCallsForOne(conn);
    ExchangeIsTold(HostOf(conn, conn.past[0]), conn.past[1].x);
  }

  lemma AbortedShowsNothing(s: Sys, c: nat)
    requires c in s.conns && s.conns[c].pc.Forwarding? && s.conns[c].allowed
    ensures Enabled(s, Happen(c, Exchanged(Response(99, None))))
    ensures var s' := Step(s, Happen(c, Exchanged(Response(99, None))));
            s'.conns[c].pc.Ended? && s'.conns[c].allowed && s'.log == s.log
  {
  }

  /** A connection that was let through is over and has shown nothing. */
  ghost predicate EndedUnshown(s: Sys, c: nat) {
    c in s.conns && s.conns[c].pc.Ended? && s.conns[c].allowed && EmittedBy(s.log, c) == []
  }

  ghost predicate CanEndUnshown(s: Sys, c: nat) {
    exists run :: IsRun(s, run) && EndedUnshown(After(s, run), c)
  }

  lemma StillCanEndUnshown(s: Sys, l: Label, c: nat)
    requires Enabled(s, l) && CanEndUnshown(Step(s, l), c)
    ensures CanEndUnshown(s, c)
  {
    var run :| IsRun(Step(s, l), run) && EndedUnshown(After(Step(s, l), run), c);
    RunCons(s, l, run);
  }

  /** A captured exchange need not show a flow: from any state in which the filter narrows nothing, a plain request to
      an upstream that answers with status 099 can end without one. */
  lemma StatusBelow100ShowsNothing(s: Sys, c: nat, target: string)
    requires c !in s.conns && EmittedBy(s.log, c) == [] && !s.filter.Active()
    ensures CanEndUnshown(s, c)
  {
    var asked, answered := Happen(c, Requested(target)), Happen(c, Exchanged(Response(99, None)));
    var s1 := Step(s, Open(c, false, target, None));
    var s2 := Step(s1, Gate(c));
    assert s2.conns[c].pc.Serving? && s2.conns[c].allowed;
    EmittedBySnoc(s.log, Gated(c, s.filter, true), c);
    var s3 := Step(s2, asked);
    AbortedShowsNothing(s3, c);
    var s4 := Step(s3, answered);
    assert IsRun(s4, []) && EndedUnshown(After(s4, []), c);
    StillCanEndUnshown(s3, answered, c);
    StillCanEndUnshown(s2, asked, c);
    StillCanEndUnshown(s1, Gate(c), c);
    StillCanEndUnshown(s, Open(c, false, target, None), c);
  }
}
