/** Decrypted connections: what their clients asked, and that each completed exchange is shown. */
module ConnectTalks {
  import opened Wrappers
  import opened Origin
  import opened Connect
  import opened ConnectFlows

  /** What serving decrypted requests looks like from outside, and the flows it should leave behind. */
  function Asked(exchanges: seq<(string, Exchange)>): seq<Incident> {
    if exchanges == [] then []
    else
      var last := exchanges[|exchanges| - 1];
      Asked(exchanges[..|exchanges| - 1]) + [Requested(last.0), Exchanged(last.1)]
  }

  function AnswerTo(target: string, e: (string, Exchange)): seq<Summary> {
    ExchangeFlows(if e.0 != "" then e.0 else target, e.1)
  }

  function Answered(target: string, exchanges: seq<(string, Exchange)>): seq<Summary> {
    if exchanges == [] then []
    else Answered(target, exchanges[..|exchanges| - 1]) + AnswerTo(target, exchanges[|exchanges| - 1])
  }

  predicate NoneAborts(exchanges: seq<(string, Exchange)>) {
    forall i | 0 <= i < |exchanges| :: !Aborts(exchanges[i].1)
  }

  function PastAfter(exchanges: seq<(string, Exchange)>): seq<Incident> {
    [HandshakeOk] + Asked(exchanges)
  }

  function ConnectConn(target: string, origin: Option<Process>, allowed: bool, past: seq<Incident>): Conn {
    Conn(true, target, origin, allowed, Ended, past)
  }

  lemma {:induction false} AllAnswered(target: string, exchanges: seq<(string, Exchange)>)
    requires NoneAborts(exchanges)
    ensures |Answered(target, exchanges)| == |exchanges|
  {
    if exchanges != [] {
      AllAnswered(target, exchanges[..|exchanges| - 1]);
    }
  }

  lemma HandshakeCallsForNothing(target: string, origin: Option<Process>)
    ensures CalledFor(ConnectConn(target, origin, true, [HandshakeOk])) == []
  {
    assert FlowsOf(ConnectConn(target, origin, true, [HandshakeOk]), 0) == [];
  }

  /** Serving these exchanges calls for exactly their answers. */
  lemma {:induction false} ExchangesCallForAnswers(
    target: string, origin: Option<Process>, exchanges: seq<(string, Exchange)>)
    ensures CalledFor(ConnectConn(target, origin, true, PastAfter(exchanges))) == Answered(target, exchanges)
  {
    if exchanges == [] {
      assert PastAfter(exchanges) == [HandshakeOk];
      HandshakeCallsForNothing(target, origin);
    } else {
      var front, last := exchanges[..|exchanges| - 1], exchanges[|exchanges| - 1];
      ExchangesCallForAnswers(target, origin, front);
      ExchangeCallsForAnswer(target, origin, PastAfter(front), last);
      assert PastAfter(exchanges) == PastAfter(front) + [Requested(last.0)] + [Exchanged(last.1)];
    }
  }

  lemma ExchangeCallsForAnswer(
    target: string, origin: Option<Process>, past: seq<Incident>, e: (string, Exchange))
    ensures CalledFor(ConnectConn(target, origin, true, past + [Requested(e.0)] + [Exchanged(e.1)])) ==
            CalledFor(ConnectConn(target, origin, true, past)) + AnswerTo(target, e)
  {
    var conn0 := ConnectConn(target, origin, true, past);
    var conn1 := ConnectConn(target, origin, true, past + [Requested(e.0)]);
    var conn2 := ConnectConn(target, origin, true, past + [Requested(e.0)] + [Exchanged(e.1)]);
    FlowsOfSnoc(conn0, conn1, Requested(e.0));
    FlowsOfSnoc(conn1, conn2, Exchanged(e.1));
  }

  // ---- what a decrypted connection shows -----------------------------------------------------------

  /** The connection was closed between two requests, or its last exchange was aborted. */
  ghost predicate EndsTalk(past: seq<Incident>, exchanges: seq<(string, Exchange)>) {
    || (NoneAborts(exchanges) && past == PastAfter(exchanges) + [Closed])
    || (exchanges != [] && NoneAborts(exchanges[..|exchanges| - 1]) && Aborts(exchanges[|exchanges| - 1].1)
        && past == PastAfter(exchanges))
  }

  predicate Decrypted(past: seq<Incident>) {
    past != [] && past[0].HandshakeOk?
  }

  ghost predicate TalkOk(conn: Conn) {
    && (Decrypted(conn.past) ==> conn.allowed)
    && match conn.pc
       case Serving => exists exchanges :: NoneAborts(exchanges) && conn.past == PastAfter(exchanges)
       case Forwarding(_, _) =>
         exists exchanges, host :: NoneAborts(exchanges) && conn.past == PastAfter(exchanges) + [Requested(host)]
       case Emitting(f) =>
         if f.intercepted then exists exchanges :: NoneAborts(exchanges) && conn.past == PastAfter(exchanges)
         else !Decrypted(conn.past)
       case Ended => Decrypted(conn.past) ==> exists exchanges :: EndsTalk(conn.past, exchanges)
       case _ => !Decrypted(conn.past)
  }

  ghost predicate TalksOk(s: Sys) {
    forall c <- s.conns :: s.conns[c].isConnect ==> TalkOk(s.conns[c])
  }

  lemma PastAfterSnoc(exchanges: seq<(string, Exchange)>, e: (string, Exchange))
    ensures PastAfter(exchanges + [e]) == PastAfter(exchanges) + [Requested(e.0)] + [Exchanged(e.1)]
  {
    assert (exchanges + [e])[..|exchanges|] == exchanges;
  }

  lemma ExchangeKeepsTalk(conn: Conn, i: Incident, id: nat)
    requires ConnOk(conn) && conn.isConnect && TalkOk(conn) && CanHappen(conn, i) && conn.pc.Forwarding?
    ensures TalkOk(Reacted(conn, i, id))
  {
    var conn' := Reacted(conn, i, id);
    var exchanges, host :| NoneAborts(exchanges) && conn.past == PastAfter(exchanges) + [Requested(host)];
    var more := exchanges + [(host, i.x)];
    PastAfterSnoc(exchanges, (host, i.x));
    assert conn'.past == PastAfter(more);
    assert Decrypted(conn.past) && conn.allowed;
    ExchangeSnoc(exchanges, (host, i.x));
    if Aborts(i.x) {
      assert conn'.pc == Ended && EndsTalk(conn'.past, more);
    } else {
      assert conn'.pc.Emitting? && NoneAborts(more);
    }
  }

  lemma ExchangeSnoc(exchanges: seq<(string, Exchange)>, e: (string, Exchange))
    requires NoneAborts(exchanges)
    ensures var more := exchanges + [e];
            if Aborts(e.1) then EndsTalk(PastAfter(more), more) else NoneAborts(more)
  {
    assert (exchanges + [e])[..|exchanges|] == exchanges;
  }

  lemma ReactionKeepsTalk(conn: Conn, i: Incident, id: nat)
    requires ConnOk(conn) && conn.isConnect && PastOk(conn) && TalkOk(conn) && CanHappen(conn, i)
    ensures TalkOk(Reacted(conn, i, id))
  {
    assert NoneAborts([]) && PastAfter([]) == [HandshakeOk];
    match conn.pc
    case Forwarding(_, _) => ExchangeKeepsTalk(conn, i, id);
    case Serving =>
      var exchanges :| NoneAborts(exchanges) && conn.past == PastAfter(exchanges);
      assert i.Closed? ==> EndsTalk(Reacted(conn, i, id).past, exchanges);
    case _ =>
  }

  lemma StepKeepsTalks(s: Sys, l: Label)
    requires Enabled(s, l) && TalksOk(s) && PastsOk(s) && forall c <- s.conns :: ConnOk(s.conns[c])
    ensures TalksOk(Step(s, l))
  {
    var s' := Step(s, l);
    forall c <- s'.conns | s'.conns[c].isConnect ensures TalkOk(s'.conns[c]) {
      if Subject(l) != Some(c) {
        assert c in s.conns && s'.conns[c] == s.conns[c];
      } else if l.Happen? {
        ReactionKeepsTalk(s.conns[c], l.i, s.lastId + 1);
      } else if !l.Open? {
        assert TalkOk(s.conns[c]) && PastOk(s.conns[c]) && s'.conns[c].past == s.conns[c].past;
      }
    }
  }

  lemma {:induction false} RunKeepsTalks(s: Sys, run: seq<Label>)
    requires FlowsExact(s) && PastsOk(s) && TalksOk(s) && IsRun(s, run)
    ensures TalksOk(After(s, run))
    decreases |run|
  {
    if run != [] {
      assert forall c <- s.conns :: FlowsExactFor(s.log, c, s.conns[c]);
      StepKeepsFlows(s, run[0]);
      StepKeepsPasts(s, run[0]);
      StepKeepsTalks(s, run[0]);
      RunKeepsTalks(Step(s, run[0]), run[1..]);
    }
  }

  /** Each exchange has its flow, in order, but for a last one that cannot be relayed. */
  predicate ShowsEach(shown: seq<Summary>, target: string, exchanges: seq<(string, Exchange)>) {
    && |shown| <= |exchanges|
    && (forall k | 0 <= k < |shown| ::
          Tells(shown[k], if exchanges[k].0 != "" then exchanges[k].0 else target, exchanges[k].1))
    && (forall k | |shown| <= k < |exchanges| :: k == |exchanges| - 1 && CannotBeRelayed(exchanges[k].1))
  }

  lemma {:induction false} AnswersTell(target: string, exchanges: seq<(string, Exchange)>)
    requires exchanges != [] ==> NoneAborts(exchanges[..|exchanges| - 1])
    ensures ShowsEach(Answered(target, exchanges), target, exchanges)
  {
    if exchanges != [] {
      var front, last := exchanges[..|exchanges| - 1], exchanges[|exchanges| - 1];
      assert front != [] ==> NoneAborts(front[..|front| - 1]);
      AnswersTell(target, front);
      AllAnswered(target, front);
      ExchangeIsTold(if last.0 != "" then last.0 else target, last.1);
    }
  }

  lemma EndedTalkShowsEach(conn: Conn)
    requires conn.isConnect && conn.pc.Ended? && TalkOk(conn) && Decrypted(conn.past)
    ensures exists exchanges ::
              EndsTalk(conn.past, exchanges) && ShowsEach(CalledFor(conn), conn.target, exchanges)
  {
    var exchanges :| EndsTalk(conn.past, exchanges);
    var talked := ConnectConn(conn.target, conn.origin, true, PastAfter(exchanges));
    assert conn == talked.(past := conn.past);
    ExchangesCallForAnswers(conn.target, conn.origin, exchanges);
    AnswersTell(conn.target, exchanges);
    if conn.past == PastAfter(exchanges) + [Closed] {
      ClosingShowsNothing(talked, conn);
    } else {
      assert conn == talked;
    }
  }

  lemma ClosingShowsNothing(conn: Conn, conn': Conn)
    requires conn' == conn.(past := conn.past + [Closed])
    ensures CalledFor(conn') == CalledFor(conn)
  {
    FlowsOfSnoc(conn, conn', Closed);
    assert FlowsOf(conn, |conn.past|) + [] == FlowsOf(conn, |conn.past|);
  }

  /** A CONNECT that was decrypted shows, once it is over, exactly one intercepted flow for each request its client
      made, in order, for the Host it named or else the CONNECT target, with what went wrong if something did; only a
      last response with a status that cannot be relayed goes unshown. */
  lemma DecryptedRequestsAreShown(cfg: Config, f: Filter, run: seq<Label>, c: nat)
    requires IsRun(Start(cfg, f), run) && c in After(Start(cfg, f), run).conns
    requires var conn := After(Start(cfg, f), run).conns[c];
             conn.isConnect && conn.pc.Ended? && Decrypted(conn.past)
    ensures var s := After(Start(cfg, f), run);
            exists exchanges ::
              EndsTalk(s.conns[c].past, exchanges) && ShowsEach(EmittedBy(s.log, c), s.conns[c].target, exchanges)
  {
    RunIsExact(cfg, f, run, c);
    RunKeepsTalks(Start(cfg, f), run);
    EndedTalkShowsEach(After(Start(cfg, f), run).conns[c]);
  }
}
