/** Which CONNECTs are tunnelled, and why: the exact reasons in any run. */
module ConnectChecks {
  import opened Text
  import opened HostPort
  import opened Origin
  import opened Connect
  import ConnectRuns

  /** The host is this one, or a name below it. */
  ghost predicate Under(host: string, domain: string) {
    host == domain || exists labels :: host == labels + "." + domain
  }

  ghost predicate UnderAny(host: string, domains: seq<string>) {
    exists d <- domains :: Under(host, d)
  }

  /** A refusal of this host is on record. */
  ghost predicate RefusedIn(log: seq<Event>, host: string) {
    exists e <- log :: e.Learned? && e.host == host
  }

  ghost predicate CheckIsExact(cfg: Config, log: seq<Event>, j: nat)
    requires j < |log| && log[j].Checked?
  {
    log[j].tunnel <==> !cfg.hasAuthority || UnderAny(log[j].host, cfg.excluded) || RefusedIn(log[..j], log[j].host)
  }

  ghost predicate ReasonsOk(s: Sys) {
    && (forall host :: host in s.learned <==> RefusedIn(s.log, host))
    && (forall j | 0 <= j < |s.log| && s.log[j].Checked? :: CheckIsExact(s.cfg, s.log, j))
  }

  lemma ExcludedMeansUnder(cfg: Config, host: string)
    ensures Excluded(cfg, host) <==> UnderAny(host, cfg.excluded)
  {
    forall d <- cfg.excluded ensures HasSuffix(host, "." + d) <==> exists labels :: host == labels + "." + d {
      if HasSuffix(host, "." + d) {
        assert host == host[..|host| - |"." + d|] + "." + d;
      }
      forall labels | host == labels + "." + d ensures HasSuffix(host, "." + d) {
        assert host == labels + ("." + d);
      }
    }
  }

  lemma RefusedSnoc(log: seq<Event>, e: Event, host: string)
    ensures RefusedIn(log + [e], host) <==> RefusedIn(log, host) || (e.Learned? && e.host == host)
  {
  }

  lemma StepKeepsReasons(s: Sys, l: Label)
    requires ReasonsOk(s) && Enabled(s, l)
    ensures ReasonsOk(Step(s, l))
  {
    var s' := Step(s, l);
    ConnectRuns.StepExtends(s, l);
    forall host ensures host in s'.learned <==> RefusedIn(s'.log, host) {
      if s'.log != s.log {
        RefusedSnoc(s.log, s'.log[|s.log|], host);
        assert s'.log == s.log + [s'.log[|s.log|]];
      }
    }
    forall j | 0 <= j < |s'.log| && s'.log[j].Checked? ensures CheckIsExact(s'.cfg, s'.log, j) {
      if j < |s.log| {
        assert s'.log[j] == s.log[j] && s'.log[..j] == s.log[..j] && CheckIsExact(s.cfg, s.log, j);
      } else {
        assert l.Check? && s'.log[..j] == s.log;
        ExcludedMeansUnder(s.cfg, s'.log[j].host);
      }
    }
  }

  lemma {:induction false} RunKeepsReasons(s: Sys, run: seq<Label>)
    requires ReasonsOk(s) && IsRun(s, run)
    ensures ReasonsOk(After(s, run)) && After(s, run).cfg == s.cfg
    decreases |run|
  {
    if run != [] {
      StepKeepsReasons(s, run[0]);
      RunKeepsReasons(Step(s, run[0]), run[1..]);
    }
  }

  /** In any run a CONNECT that is checked is tunnelled if and only if there is no authority to mint its certificate, or
      its host is an excluded one or a name below it, or an earlier refusal of its host is on record. */
  lemma TunnelledExactlyWhen(cfg: Config, f: Filter, run: seq<Label>, j: nat)
    requires IsRun(Start(cfg, f), run)
    requires j < |After(Start(cfg, f), run).log| && After(Start(cfg, f), run).log[j].Checked?
    ensures var s := After(Start(cfg, f), run); var e := s.log[j];
            && e.c in s.conns && e.host == HostOnly(s.conns[e.c].target)
            && (e.tunnel <==>
                  !cfg.hasAuthority || UnderAny(e.host, cfg.excluded) || RefusedIn(s.log[..j], e.host))
  {
    RunKeepsReasons(Start(cfg, f), run);
    ConnectRuns.RunKeepsInv(Start(cfg, f), run);
    assert ConnectRuns.CheckedEventOk(After(Start(cfg, f), run), j);
  }

  /** Every check of this connection says tunnel. */
  ghost predicate OnlyTunnelled(log: seq<Event>, c: nat) {
    forall j | 0 <= j < |log| && log[j].Checked? && log[j].c == c :: log[j].tunnel
  }

  lemma NeverToIntercept(log: seq<Event>, c: nat, host: string, n: nat)
    requires OnlyTunnelled(log, c) && n <= |log|
    ensures Checked(c, host, false) !in log[..n]
  {
    forall i | 0 <= i < n ensures log[..n][i] != Checked(c, host, false) {
      assert log[..n][i] == log[i];
    }
  }

  lemma OnlyTunnelledIsLeftAlone(s: Sys, c: nat)
    requires ConnectRuns.LearnedEventsOk(s) && ConnectRuns.ClearFlowsOk(s)
    requires c in s.conns && s.conns[c].isConnect && OnlyTunnelled(s.log, c)
    ensures ConnectRuns.LeftAlone(s.log, c)
  {
    NeverToIntercept(s.log, c, HostOnly(s.conns[c].target), |s.log|);
    assert s.log[..|s.log|] == s.log;
    forall j | 0 <= j < |s.log| && s.log[j].c == c ensures !s.log[j].Learned? {
      if s.log[j].Learned? {
        NeverToIntercept(s.log, c, s.log[j].host, j);
      }
    }
  }

  /** So a connection to an excluded domain, or any CONNECT without an authority, is never read in the clear and is
      offered no certificate to refuse. */
  lemma ExcludedAreLeftAlone(cfg: Config, f: Filter, run: seq<Label>, c: nat)
    requires IsRun(Start(cfg, f), run)
    requires c in After(Start(cfg, f), run).conns && After(Start(cfg, f), run).conns[c].isConnect
    requires !cfg.hasAuthority || UnderAny(HostOnly(After(Start(cfg, f), run).conns[c].target), cfg.excluded)
    ensures ConnectRuns.LeftAlone(After(Start(cfg, f), run).log, c)
  {
    var s := After(Start(cfg, f), run);
    ConnectRuns.RunKeepsInv(Start(cfg, f), run);
    forall j | 0 <= j < |s.log| && s.log[j].Checked? && s.log[j].c == c ensures s.log[j].tunnel {
      TunnelledExactlyWhen(cfg, f, run, j);
    }
    OnlyTunnelledIsLeftAlone(s, c);
  }
}
