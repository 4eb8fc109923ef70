/** Everything that a process stores, networksetup can print: so what a later process reads back in text is
    what was there. */
module Reports {
  import opened SysProxy
  import opened Networksetup
  import Takeover

  predicate PrintableProxies(p: Proxies) {
    Printable(p.web) && Printable(p.secure)
  }

  ghost predicate PrintableServices(services: map<string, Proxies>) {
    forall s <- services :: PrintableProxies(services[s])
  }

  ghost predicate PrintableWorld(w: World) {
    PrintableServices(w.services) && (w.file.Saved? ==> PrintableProxies(w.file.cfg.proxies))
  }

  predicate PrintableCommand(c: Command) {
    c.SetProxy? ==> Printable(Setting(true, c.host, c.port))
  }

  lemma CommandKeepsPrintable(w: World, c: Command)
    requires PrintableServices(w.services) && PrintableCommand(c)
    ensures PrintableServices(RunCommand(w, c).0.services) && RunCommand(w, c).0.file == w.file
  {
  }

  lemma {:induction false} CommandsKeepPrintable(w: World, cs: seq<Command>)
    requires PrintableServices(w.services) && forall i | 0 <= i < |cs| :: PrintableCommand(cs[i])
    ensures PrintableServices(RunAll(w, cs).0.services) && RunAll(w, cs).0.file == w.file
    decreases |cs|
  {
    if cs != [] {
      CommandKeepsPrintable(w, cs[0]);
      var (w1, st) := RunCommand(w, cs[0]);
      if st.Done? {
        CommandsKeepPrintable(w1, cs[1..]);
      }
    }
  }

  lemma RestoreKeepsPrintable(w: World, cfg: Config)
    requires PrintableWorld(w) && PrintableProxies(cfg.proxies)
    ensures PrintableWorld(RestoreConfig(w, cfg).0) && PrintableWorld(RestoreAndClear(w, cfg).0)
    ensures PrintableWorld(Rollback(w, cfg).0)
  {
    CommandsKeepPrintable(w, RestoreCommands(cfg));
  }

  lemma RecoverKeepsPrintable(w: World)
    requires PrintableWorld(w)
    ensures PrintableWorld(Recover(w).0)
  {
    var (w1, l) := LoadSnapshot(w);
    if l.Found? {
      RestoreKeepsPrintable(w1, l.cfg);
    }
  }

  lemma LoopbackIsPrintable(port: int)
    requires MIN_INT <= port <= MAX_INT
    ensures Printable(Setting(true, LOOPBACK, port))
  {
  }

  lemma TakeOverKeepsPrintable(w: World, cfg: Config, port: int)
    requires PrintableWorld(w) && PrintableProxies(cfg.proxies) && MIN_INT <= port <= MAX_INT
    ensures PrintableWorld(TakeOver(w, cfg, port).0)
  {
    var (w1, st1) := Persist(w, cfg);
    assert PrintableWorld(w1);
    if st1.Done? {
      LoopbackIsPrintable(port);
      CommandsKeepPrintable(w1, TakeoverCommands(cfg.service, port));
      RestoreKeepsPrintable(RunAll(w1, TakeoverCommands(cfg.service, port)).0, cfg);
    }
  }

  lemma ApplyKeepsPrintable(w: World, primary: Primary, port: int)
    requires PrintableWorld(w) && MIN_INT <= port <= MAX_INT
    ensures var (w', a) := Apply(w, primary, port);
            PrintableWorld(w') && (a.TookOver? ==> PrintableProxies(a.cfg.proxies))
  {
    Takeover.CaptureKeeps(w, primary);
    var (w1, c) := Capture(w, primary);
    if c.Read? {
      TakeOverKeepsPrintable(w1, c.cfg, port);
    }
  }

  /** One process leaves only printable settings and a printable snapshot behind, however it ends. */
  lemma SessionKeepsPrintable(w: World, primary: Primary, port: int)
    requires PrintableWorld(w) && MIN_INT <= port <= MAX_INT
    ensures PrintableWorld(Session(w, primary, port))
  {
    RecoverKeepsPrintable(w);
    var (w1, st1) := Recover(w);
    if !st1.Crashed? {
      ApplyKeepsPrintable(w1, primary, port);
      var (w2, a) := Apply(w1, primary, port);
      if a.TookOver? {
        RestoreKeepsPrintable(w2.Advance(), a.cfg);
      }
    }
  }
}
