/** The Server's handling of one CONNECT, seen as a run of the connection machine. */
module ServerRuns {
  import opened Wrappers
  import opened HostPort
  import opened Origin
  import opened Connect
  import opened ConnectTalks
  import opened ServerClass

  /** The connection is over with this history, but for a closing that nobody was there to see, and this is learned. */
  ghost predicate EndsSo(s: Sys, c: nat, past: seq<Incident>, learned: set<string>) {
    && c in s.conns && s.conns[c].pc.Ended?
    && (s.conns[c].past == past || s.conns[c].past == past + [Closed])
    && s.learned == learned
  }

  ghost predicate CanEndSo(s: Sys, c: nat, past: seq<Incident>, learned: set<string>) {
    exists run :: IsRun(s, run) && EndsSo(After(s, run), c, past, learned)
  }

  lemma AlreadyEnded(s: Sys, c: nat, past: seq<Incident>, learned: set<string>)
    requires EndsSo(s, c, past, learned)
    ensures CanEndSo(s, c, past, learned)
  {
    assert IsRun(s, []) && After(s, []) == s;
  }

  lemma StillCanEndSo(s: Sys, l: Label, c: nat, past: seq<Incident>, learned: set<string>)
    requires Enabled(s, l) && CanEndSo(Step(s, l), c, past, learned)
    ensures CanEndSo(s, c, past, learned)
  {
    var run :| IsRun(Step(s, l), run) && EndsSo(After(Step(s, l), run), c, past, learned);
    RunCons(s, l, run);
  }

  lemma {:induction false} AskedCons(e: (string, Exchange), rest: seq<(string, Exchange)>)
    ensures Asked([e] + rest) == [Requested(e.0), Exchanged(e.1)] + Asked(rest)
  {
    if rest == [] {
      assert [e] + rest == [e] && [e][..0] == [];
    } else {
      assert ([e] + rest)[..|rest|] == [e] + rest[..|rest| - 1];
      AskedCons(e, rest[..|rest| - 1]);
    }
  }

  lemma NothingMoreAsked(s: Sys, c: nat)
    requires c in s.conns && s.conns[c].isConnect && s.conns[c].pc.Serving?
    ensures CanEndSo(s, c, s.conns[c].past + Asked([]), s.learned)
  {
    var past := s.conns[c].past;
    assert past + Asked([]) == past;
    AlreadyEnded(Step(s, Happen(c, Closed)), c, past, s.learned);
    StillCanEndSo(s, Happen(c, Closed), c, past, s.learned);
  }

  lemma ExchangeCanHappen(s: Sys, c: nat, e: (string, Exchange))
    requires c in s.conns && s.conns[c].isConnect && s.conns[c].allowed && s.conns[c].pc.Serving?
    ensures Enabled(s, Happen(c, Requested(e.0)))
    ensures var s1 := Step(s, Happen(c, Requested(e.0)));
            && Enabled(s1, Happen(c, Exchanged(e.1)))
            && var s2 := Step(s1, Happen(c, Exchanged(e.1)));
            && c in s2.conns && s2.learned == s.learned
            && s2.conns[c] == s.conns[c].(pc := s2.conns[c].pc,
                                          past := s.conns[c].past + [Requested(e.0)] + [Exchanged(e.1)])
            && if Aborts(e.1) then s2.conns[c].pc.Ended?
               else s2.conns[c].pc.Emitting? && s2.conns[c].pc.flow.intercepted
  {
  }

  /** Once the handshake is done, its client's requests can be served as the Server serves them. */
  lemma {:induction false} TalkCanGoOn(s: Sys, c: nat, exchanges: seq<(string, Exchange)>)
    requires c in s.conns && s.conns[c].isConnect && s.conns[c].allowed && s.conns[c].pc.Serving?
    ensures CanEndSo(s, c, s.conns[c].past + Asked(Served(exchanges)), s.learned)
    decreases |exchanges|
  {
    if exchanges == [] {
      NothingMoreAsked(s, c);
    } else {
      var e, past := exchanges[0], s.conns[c].past + Asked(Served(exchanges));
      var asked, answered := Happen(c, Requested(e.0)), Happen(c, Exchanged(e.1));
      ExchangeCanHappen(s, c, e);
      var s1 := Step(s, asked);
      var s2 := Step(s1, answered);
      if Aborts(e.1) {
        AskedCons(e, []);
        assert [e] + [] == [e];
        assert past == s.conns[c].past + [Requested(e.0)] + [Exchanged(e.1)];
        AlreadyEnded(s2, c, past, s.learned);
      } else {
        var s3 := Step(s2, Emit(c));
        AskedCons(e, Served(exchanges[1..]));
        assert past == s3.conns[c].past + Asked(Served(exchanges[1..]));
        TalkCanGoOn(s3, c, exchanges[1..]);
        StillCanEndSo(s2, Emit(c), c, past, s.learned);
      }
      StillCanEndSo(s1, answered, c, past, s.learned);
      StillCanEndSo(s, asked, c, past, s.learned);
    }
  }

  lemma NoteCanBeShown(s: Sys, c: nat)
    requires c in s.conns && s.conns[c].pc.Noting?
    ensures CanEndSo(s, c, s.conns[c].past, s.learned)
  {
    var s1 := Step(s, TakeId(c));
    AlreadyEnded(Step(s1, Emit(c)), c, s.conns[c].past, s.learned);
    StillCanEndSo(s1, Emit(c), c, s.conns[c].past, s.learned);
    StillCanEndSo(s, TakeId(c), c, s.conns[c].past, s.learned);
  }

  lemma TunnelCanGoSo(s: Sys, c: nat, fate: Fate)
    requires c in s.conns && s.conns[c].pc.Tunnelling? && s.conns[c].past == []
    ensures CanEndSo(s, c, PastOf(false, fate), s.learned)
  {
    var l := Happen(c, Tunnelled(fate));
    var s1 := Step(s, l);
    assert s1.conns[c].past == [Tunnelled(fate)];
    if s1.conns[c].pc.Noting? {
      NoteCanBeShown(s1, c);
    } else {
      AlreadyEnded(s1, c, PastOf(false, fate), s.learned);
    }
    StillCanEndSo(s, l, c, PastOf(false, fate), s.learned);
  }

  lemma RefusalCanGoSo(s: Sys, c: nat, text: string)
    requires c in s.conns && s.conns[c].pc.Intercepting? && s.conns[c].past == []
    ensures CanEndSo(s, c, [HandshakeFails(text)], s.learned + {HostOnly(s.conns[c].target)})
  {
    var l := Happen(c, HandshakeFails(text));
    var learned := s.learned + {HostOnly(s.conns[c].target)};
    var s1 := Step(s, l);
    NoteCanBeShown(Step(s1, Learn(c)), c);
    StillCanEndSo(s1, Learn(c), c, [HandshakeFails(text)], learned);
    StillCanEndSo(s, l, c, [HandshakeFails(text)], learned);
  }

  function LearnedAfter(learned: set<string>, target: string, past: seq<Incident>): set<string> {
    learned + (if past != [] && past[0].HandshakeFails? then {HostOnly(target)} else {})
  }

  lemma InterceptionCanGoSo(s: Sys, c: nat, fate: Fate)
    requires c in s.conns && s.conns[c].isConnect && s.conns[c].allowed
    requires s.conns[c].pc.Intercepting? && s.conns[c].past == []
    ensures CanEndSo(s, c, PastOf(true, fate), LearnedAfter(s.learned, s.conns[c].target, PastOf(true, fate)))
  {
    if fate.hijacks && fate.answers && fate.handshakeError.Some? {
      RefusalCanGoSo(s, c, fate.handshakeError.value);
    } else {
      var i := if !fate.hijacks then HijackFails else if !fate.answers then EstablishFails else HandshakeOk;
      var s1 := Step(s, Happen(c, i));
      assert s1.conns[c].past == [i];
      if i.HandshakeOk? {
        TalkCanGoOn(s1, c, fate.exchanges);
      } else {
        AlreadyEnded(s1, c, [i], s.learned);
      }
      assert LearnedAfter(s.learned, s.conns[c].target, PastOf(true, fate)) == s.learned;
      StillCanEndSo(s, Happen(c, i), c, PastOf(true, fate), s.learned);
    }
  }

  /** What the Server does with a CONNECT from start to end, for any fate, the machine can do from the same state: with
      the same history, and learning the same. */
  lemma HandlingIsARun(s: Sys, c: nat, target: string, origin: Option<Process>, fate: Fate)
    requires c !in s.conns
    ensures var allowed := Allows(s.cfg.filtering, s.filter, origin);
            var past := PastOf(allowed && !ShouldTunnel(s.cfg, s.learned, target), fate);
            CanEndSo(s, c, past, LearnedAfter(s.learned, target, past))
  {
    var allowed := Allows(s.cfg.filtering, s.filter, origin);
    var past := PastOf(allowed && !ShouldTunnel(s.cfg, s.learned, target), fate);
    var learned := LearnedAfter(s.learned, target, past);
    var s1 := Step(s, Open(c, true, target, origin));
    var s2 := Step(s1, Gate(c));
    if !allowed {
      assert learned == s.learned;
      TunnelCanGoSo(s2, c, fate);
    } else {
      var s3 := Step(s2, Check(c));
      if ShouldTunnel(s.cfg, s.learned, target) {
        assert learned == s.learned;
        TunnelCanGoSo(s3, c, fate);
      } else {
        InterceptionCanGoSo(s3, c, fate);
      }
      StillCanEndSo(s2, Check(c), c, past, learned);
    }
    StillCanEndSo(s1, Gate(c), c, past, learned);
    StillCanEndSo(s, Open(c, true, target, origin), c, past, learned);
  }
}
