/** The proxy's Server as an object: one connection handled from start to end with nobody in between,
    proved to decide and emit as the connection machine says. */
module ServerClass {
  import opened Wrappers
  import opened Text
  import opened HostPort
  import opened Origin
  import C = Connect
  import F = ConnectFlows
  import opened ConnectTalks

  /** What will happen to a connection: whether hijacking and answering work, how the upstream dial and the
      client's handshake go, and which exchanges the client then asks for. */
  datatype Fate = Fate(
    hijacks: bool, answers: bool, dialError: Option<string>, handshakeError: Option<string>,
    exchanges: seq<(string, C.Exchange)>)

  /** Flows with consecutive ids after `base`. */
  function Numbered(base: nat, flows: seq<C.Summary>): seq<C.Flow> {
    if flows == [] then []
    else
      var n := |flows| - 1;
      Numbered(base, flows[..n]) + [C.Flow(base + n + 1, flows[n].host, flows[n].intercepted, flows[n].error)]
  }

  lemma NumberedSnoc(base: nat, flows: seq<C.Summary>, f: C.Summary)
    ensures Numbered(base, flows + [f]) ==
            Numbered(base, flows) + [C.Flow(base + |flows| + 1, f.host, f.intercepted, f.error)]
  {
    assert (flows + [f])[..|flows|] == flows;
  }

  /** The exchanges that take place: an aborted one closes the connection. */
  function Served(exchanges: seq<(string, C.Exchange)>): seq<(string, C.Exchange)> {
    if exchanges == [] then []
    else if C.Aborts(exchanges[0].1) then [exchanges[0]]
    else [exchanges[0]] + Served(exchanges[1..])
  }

  /** An aborted exchange is the last thing that happened. */
  predicate EndsAborted(past: seq<C.Incident>) {
    past != [] && past[|past| - 1].Exchanged? && C.Aborts(past[|past| - 1].x)
  }

  /** All exchanges take place, or all up to the first that aborts. */
  lemma {:induction false} OnlyLastAborts(exchanges: seq<(string, C.Exchange)>)
    ensures var served := Served(exchanges);
            && served <= exchanges
            && (served != [] ==> NoneAborts(served[..|served| - 1]))
            && (served == exchanges || (served != [] && F.CannotBeRelayed(served[|served| - 1].1)))
  {
    if exchanges != [] && !C.Aborts(exchanges[0].1) {
      var rest := Served(exchanges[1..]);
      OnlyLastAborts(exchanges[1..]);
      forall i | 0 <= i < |rest| ensures !C.Aborts(Served(exchanges)[i].1) {
        assert i > 0 ==> Served(exchanges)[i] == rest[..|rest| - 1][i - 1];
      }
    }
  }

  /** All exchanges that take place are answered with a flow, but for an aborted last one. */
  lemma ServedAreAnswered(target: string, exchanges: seq<(string, C.Exchange)>)
    ensures var served := Served(exchanges);
            |served| == |Answered(target, served)| + (if EndsAborted(PastAfter(served)) then 1 else 0)
  {
    var served := Served(exchanges);
    if served != [] {
      OnlyLastAborts(exchanges);
      AllAnswered(target, served[..|served| - 1]);
      var last := served[|served| - 1];
      assert PastAfter(served)[|PastAfter(served)| - 1] == C.Exchanged(last.1);
    }
  }

  /** The first `i` exchanges have taken place, and the connection is open for more. */
  ghost predicate StillServing(exchanges: seq<(string, C.Exchange)>, i: nat, open: bool)
    requires i <= |exchanges|
  {
    if open then NoneAborts(exchanges[..i]) && Served(exchanges) == exchanges[..i] + Served(exchanges[i..])
    else Served(exchanges) == exchanges[..i]
  }

  lemma ServedStep(exchanges: seq<(string, C.Exchange)>, i: nat)
    requires i < |exchanges| && StillServing(exchanges, i, true)
    ensures StillServing(exchanges, i + 1, !C.Aborts(exchanges[i].1))
  {
    assert exchanges[i..][0] == exchanges[i] && exchanges[i..][1..] == exchanges[i + 1..];
    assert exchanges[..i + 1] == exchanges[..i] + [exchanges[i]];
  }

  lemma AllServed(exchanges: seq<(string, C.Exchange)>, i: nat, open: bool)
    requires i <= |exchanges| && StillServing(exchanges, i, open) && (open ==> i == |exchanges|)
    ensures Served(exchanges) == exchanges[..i]
  {
  }

  function SinkAfter(start: seq<C.Flow>, base: nat, target: string, exchanges: seq<(string, C.Exchange)>): seq<C.Flow> {
    start + Numbered(base, Answered(target, exchanges))
  }

  lemma AnsweredStep(start: seq<C.Flow>, base: nat, target: string, exchanges: seq<(string, C.Exchange)>, i: nat)
    requires i < |exchanges| && NoneAborts(exchanges[..i])
    ensures var e := exchanges[i];
            && PastAfter(exchanges[..i + 1]) ==
               PastAfter(exchanges[..i]) + [C.Requested(e.0), C.Exchanged(e.1)]
            && SinkAfter(start, base, target, exchanges[..i + 1]) ==
               SinkAfter(start, base, target, exchanges[..i]) +
               (if C.Aborts(e.1) then []
                else [C.Flow(base + i + 1, if e.0 != "" then e.0 else target, true, C.ExchangeError(e.1))])
  {
    var e, before := exchanges[i], Answered(target, exchanges[..i]);
    assert exchanges[..i + 1][..i] == exchanges[..i];
    AllAnswered(target, exchanges[..i]);
    if C.Aborts(e.1) {
      assert before + [] == before;
    } else {
      NumberedSnoc(base, before, C.Summary(if e.0 != "" then e.0 else target, true, C.ExchangeError(e.1)));
    }
  }

  /** The flow of a tunnel for which this happened, if it is to be shown. */
  function Noted(target: string, note: C.Problem, emit: bool, i: C.Incident, id: nat): seq<C.Flow> {
    if emit && i.DialFails? then [C.Flow(id, target, false, C.Problem(C.Dialling, i.text))]
    else if emit && i.Copied? then [C.Flow(id, target, false, note)]
    else []
  }

  /** What happens to a connection with this fate that is tunnelled. */
  function Tunnelled(fate: Fate): C.Incident {
    if !fate.hijacks then C.HijackFails
    else if fate.dialError.Some? then C.DialFails(fate.dialError.value)
    else if !fate.answers then C.EstablishFails
    else C.Copied
  }

  /** The history of a CONNECT with this fate that is, or is not, to be intercepted. */
  function PastOf(intercepts: bool, fate: Fate): seq<C.Incident> {
    if !intercepts then [Tunnelled(fate)]
    else if !fate.hijacks then [C.HijackFails]
    else if !fate.answers then [C.EstablishFails]
    else if fate.handshakeError.Some? then [C.HandshakeFails(fate.handshakeError.value)]
    else PastAfter(Served(fate.exchanges))
  }

  class Server {
    const cfg: C.Config
    var filter: Filter
    var learned: set<string>
    var lastId: nat
    var sink: seq<C.Flow>

    constructor (cfg: C.Config, f: Filter)
      ensures this.cfg == cfg && filter == f && learned == {} && lastId == 0 && sink == []
    {
      this.cfg := cfg;
      filter, learned, lastId, sink := f, {}, 0, [];
    }

    method ShouldTunnel(target: string) returns (t: bool)
      ensures t == C.ShouldTunnel(cfg, learned, target)
    {
      if !cfg.hasAuthority {
        return true;
      }
      var host := HostOnly(target);
      var i := 0;
      while i < |cfg.excluded|
        invariant 0 <= i <= |cfg.excluded|
        invariant forall j | 0 <= j < i :: !(host == cfg.excluded[j] || HasSuffix(host, "." + cfg.excluded[j]))
      {
        var suffix := cfg.excluded[i];
        if host == suffix || HasSuffix(host, "." + suffix) {
          assert suffix in cfg.excluded;
          return true;
        }
        i := i + 1;
      }
      return host in learned;
    }

    method Learn(target: string)
      modifies this`learned
      ensures learned == old(learned) + {HostOnly(target)}
    {
      learned := learned + {HostOnly(target)};
    }

    method NextId() returns (id: nat)
      modifies this`lastId
      ensures id == lastId == old(lastId) + 1
    {
      lastId := lastId + 1;
      id := lastId;
    }

    method EmitTunnel(target: string, note: C.Problem)
      modifies this`lastId, this`sink
      ensures lastId == old(lastId) + 1
      ensures sink == old(sink) + [C.Flow(lastId, target, false, note)]
    {
      var id := NextId();
      sink := sink + [C.Flow(id, target, false, note)];
    }

    /** forward and fail: a captured exchange leaves exactly one flow, unless it is aborted, when it leaves none. */
    method Forward(host: string, x: C.Exchange, capture: bool) returns (completed: bool)
      modifies this`lastId, this`sink
      ensures completed <==> !F.CannotBeRelayed(x)
      ensures lastId == old(lastId) + 1
      ensures sink == old(sink) +
                      (if capture && completed then [C.Flow(lastId, host, true, C.ExchangeError(x))] else [])
      ensures capture && completed ==> F.Tells(C.Summarize(sink[|sink| - 1]), host, x)
    {
      var id := NextId();
      var f := C.Flow(id, host, true, C.NoProblem);
      match x {
        case BuildError(text) =>
          f := f.(error := C.Problem(C.Building, text));
          if capture {
            sink := sink + [f];
          }
          return true;
        case RoundTripError(text) =>
          f := f.(error := C.Problem(C.RoundTripping, text));
          if capture {
            sink := sink + [f];
          }
          return true;
        case Response(status, relayError) =>
          if status < 100 || status > 999 {
            return false;  // WriteHeader panics
          }
          if relayError.Some? {
            f := f.(error := C.Problem(C.Relaying, relayError.value));
          }
      }
      if capture {
        sink := sink + [f];
      }
      return true;
    }

    method Tunnel(target: string, note: C.Problem, emit: bool, fate: Fate) returns (past: seq<C.Incident>)
      modifies this`lastId, this`sink
      ensures past == [Tunnelled(fate)]
      ensures var noted := Noted(target, note, emit, past[0], old(lastId) + 1);
              sink == old(sink) + noted && lastId == old(lastId) + |noted|
    {
      if !fate.hijacks {
        return [C.HijackFails];
      }
      if fate.dialError.Some? {
        if emit {
          EmitTunnel(target, C.Problem(C.Dialling, fate.dialError.value));
        }
        return [C.DialFails(fate.dialError.value)];
      }
      if !fate.answers {
        return [C.EstablishFails];
      }
      if emit {
        EmitTunnel(target, note);
      }
      return [C.Copied];
    }

    /** intercept and serveDecrypted. */
    method Intercept(target: string, ghost origin: Option<Process>, fate: Fate) returns (past: seq<C.Incident>)
      modifies this`lastId, this`sink, this`learned
      ensures var called := C.CalledFor(ConnectConn(target, origin, true, past));
              && sink == old(sink) + Numbered(old(lastId), called)
              && lastId == old(lastId) + |called| + (if EndsAborted(past) then 1 else 0)
      ensures past == PastOf(true, fate)
      ensures learned == old(learned) + (if past[0].HandshakeFails? then {HostOnly(target)} else {})
    {
      if !fate.hijacks {
        past := [C.HijackFails];
        TunnelCallsForOne(target, origin, C.HijackFails, lastId);
      } else if !fate.answers {
        past := [C.EstablishFails];
        TunnelCallsForOne(target, origin, C.EstablishFails, lastId);
      } else if fate.handshakeError.Some? {
        past := Refuse(target, origin, fate.handshakeError.value);
      } else {
        past := ServeDecrypted(target, fate.exchanges);
        ExchangesCallForAnswers(target, origin, Served(fate.exchanges));
        ServedAreAnswered(target, fate.exchanges);
      }
    }

    /** The branch of intercept on which the client refuses the handshake. */
    method Refuse(target: string, ghost origin: Option<Process>, reason: string) returns (past: seq<C.Incident>)
      modifies this`lastId, this`sink, this`learned
      ensures past == [C.HandshakeFails(reason)]
      ensures var called := C.CalledFor(ConnectConn(target, origin, true, past));
              && sink == old(sink) + Numbered(old(lastId), called)
              && lastId == old(lastId) + |called|
      ensures learned == old(learned) + {HostOnly(target)}
    {
      Learn(target);
      EmitTunnel(target, C.Problem(C.Handshaking, reason));
      past := [C.HandshakeFails(reason)];
      RefusalCallsForOne(target, origin, reason, old(lastId));
    }

    /** The handler: a request without a Host header is for the CONNECT target. */
    method ServeRequest(target: string, e: (string, C.Exchange)) returns (open: bool)
      modifies this`lastId, this`sink
      ensures open <==> !C.Aborts(e.1)
      ensures lastId == old(lastId) + 1
      ensures sink == old(sink) +
                      (if C.Aborts(e.1) then []
                       else [C.Flow(lastId, if e.0 != "" then e.0 else target, true, C.ExchangeError(e.1))])
    {
      var host := e.0;
      if host == "" {
        host := target;
      }
      open := Forward(host, e.1, true);
    }

    /** Requests are served one after the other, up to an aborted one. */
    method ServeDecrypted(target: string, exchanges: seq<(string, C.Exchange)>) returns (past: seq<C.Incident>)
      modifies this`lastId, this`sink
      ensures past == PastAfter(Served(exchanges))
      ensures sink == SinkAfter(old(sink), old(lastId), target, Served(exchanges))
      ensures lastId == old(lastId) + |Served(exchanges)|
    {
      past := [C.HandshakeOk];
      ghost var start, base := sink, lastId;
      var i, open := 0, true;
      assert exchanges[0..] == exchanges;
      while i < |exchanges| && open
        invariant 0 <= i <= |exchanges|
        invariant StillServing(exchanges, i, open)
        invariant lastId == base + i && past == PastAfter(exchanges[..i])
        invariant sink == SinkAfter(start, base, target, exchanges[..i])
      {
        var e := exchanges[i];
        AnsweredStep(start, base, target, exchanges, i);
        ServedStep(exchanges, i);
        open := ServeRequest(target, e);
        past := past + [C.Requested(e.0), C.Exchanged(e.1)];
        i := i + 1;
      }
      AllServed(exchanges, i, open);
    }

    /** A CONNECT from start to end: the flows are exactly those its history calls for, a host is learned
        exactly when its client refuses the handshake, and a handshake is attempted exactly when the filter lets
        the connection through, the host is not to be tunnelled, and the client can be answered.  Otherwise bytes are
        copied exactly when hijacking, dialling and answering work.  A completed handshake is followed by all
        exchanges up to one that is aborted. */
    method HandleConnect(target: string, origin: Option<Process>, fate: Fate) returns (past: seq<C.Incident>)
      modifies this`lastId, this`sink, this`learned
      ensures var allowed := Allows(cfg.filtering, filter, origin);
              var called := C.CalledFor(ConnectConn(target, origin, allowed, past));
              && sink == old(sink) + Numbered(old(lastId), called)
              && lastId == old(lastId) + |called| + (if EndsAborted(past) then 1 else 0)
      ensures past == PastOf(
                Allows(cfg.filtering, filter, origin) && !C.ShouldTunnel(cfg, old(learned), target), fate)
      ensures learned == old(learned) + (if past[0].HandshakeFails? then {HostOnly(target)} else {})
      ensures past[0].HandshakeFails? || past[0].HandshakeOk? <==>
              Allows(cfg.filtering, filter, origin) && !C.ShouldTunnel(cfg, old(learned), target)
              && fate.hijacks && fate.answers
      ensures past[0].Copied? <==>
              (!Allows(cfg.filtering, filter, origin) || C.ShouldTunnel(cfg, old(learned), target))
              && fate.hijacks && fate.dialError.None? && fate.answers
    {
      var allowed := Allows(cfg.filtering, filter, origin);
      if !allowed {
        past := PassThrough(target, origin, false, fate);
        return;
      }
      var t := ShouldTunnel(target);
      if t {
        past := PassThrough(target, origin, true, fate);
        return;
      }
      past := Intercept(target, origin, fate);
    }

    /** A tunnel, shown if the filter let the connection through. */
    method PassThrough(target: string, ghost origin: Option<Process>, allowed: bool, fate: Fate)
      returns (past: seq<C.Incident>)
      modifies this`lastId, this`sink
      ensures past == [Tunnelled(fate)]
      ensures var called := C.CalledFor(ConnectConn(target, origin, allowed, past));
              && sink == old(sink) + Numbered(old(lastId), called)
              && lastId == old(lastId) + |called|
    {
      past := Tunnel(target, C.NoProblem, allowed, fate);
      assert past == [past[0]];
      PassingCallsForNoted(target, origin, allowed, past[0], old(lastId));
    }
  }

  lemma PassingCallsForNoted(target: string, origin: Option<Process>, allowed: bool, i: C.Incident, base: nat)
    requires i.HijackFails? || i.DialFails? || i.EstablishFails? || i.Copied?
    ensures var called := C.CalledFor(ConnectConn(target, origin, allowed, [i]));
            var noted := Noted(target, C.NoProblem, allowed, i, base + 1);
            Numbered(base, called) == noted && |called| == |noted|
  {
    if allowed {
      TunnelCallsForOne(target, origin, i, base);
    }
  }

  lemma TunnelCallsForOne(target: string, origin: Option<Process>, i: C.Incident, base: nat)
    requires i.HijackFails? || i.DialFails? || i.EstablishFails? || i.Copied?
    ensures var called := C.CalledFor(ConnectConn(target, origin, true, [i]));
            Numbered(base, called) ==
            if i.DialFails? then [C.Flow(base + 1, target, false, C.Problem(C.Dialling, i.text))]
            else if i.Copied? then [C.Flow(base + 1, target, false, C.NoProblem)]
            else []
    ensures |C.CalledFor(ConnectConn(target, origin, true, [i]))| == if i.DialFails? || i.Copied? then 1 else 0
  {
    var conn := ConnectConn(target, origin, true, [i]);
    assert C.FlowsOf(conn, 0) == [];
    if i.DialFails? {
      NumberedSnoc(base, [], C.Summary(target, false, C.Problem(C.Dialling, i.text)));
    } else if i.Copied? {
      NumberedSnoc(base, [], C.Summary(target, false, C.NoProblem));
    }
  }

  lemma RefusalCallsForOne(target: string, origin: Option<Process>, text: string, base: nat)
    ensures var called := C.CalledFor(ConnectConn(target, origin, true, [C.HandshakeFails(text)]));
            |called| == 1 && Numbered(base, called) == [C.Flow(base + 1, target, false, C.Problem(C.Handshaking, text))]
  {
    var conn := ConnectConn(target, origin, true, [C.HandshakeFails(text)]);
    assert C.FlowsOf(conn, 0) == [];
    NumberedSnoc(base, [], C.Summary(target, false, C.Problem(C.Handshaking, text)));
  }
}
