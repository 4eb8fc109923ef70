/** What a takeover leaves behind when a step fails: all of it, or nothing. */
module TakeoverFaults {
  import opened SysProxy
  import opened Takeover

  /** Step `n` of this tape fails, in any way, and no other. */
  predicate OnlyFault(tape: seq<Outcome>, n: nat) {
    n < |tape| && tape[n].Fail? && forall i | 0 <= i < |tape| && i != n :: tape[i].Ok?
  }

  predicate AllOk(tape: seq<Outcome>) {
    forall i | 0 <= i < |tape| :: tape[i].Ok?
  }

  lemma StepBeforeFault(w: World, n: nat)
    requires OnlyFault(w.tape, n)
    ensures if n == 0 then w.Next().Fail? && AllOk(w.Advance().tape)
            else w.Next().Ok? && OnlyFault(w.Advance().tape, n - 1)
  {
  }

  // ---- a failed takeover is undone ---------------------------------------------------------------

  /** The service is as captured, as far as that can be restored; no other has changed; and there is no snapshot. */
  predicate Undone(before: map<string, Proxies>, cfg: Config, w: World) {
    && w.file.Absent?
    && w.services.Keys == before.Keys
    && (forall s <- before :: s != cfg.service ==> w.services[s] == before[s])
    && cfg.service in before && Faithful(cfg.proxies, w.services[cfg.service])
  }

  lemma UnhinderedRollback(w: World, cfg: Config)
    requires cfg.service in w.services && AllOk(w.tape)
    ensures var (w', st) := Rollback(w, cfg); st.Done? && Undone(w.services, cfg, w')
  {
    UnhinderedRunsThrough(w, RestoreCommands(cfg), cfg.service);
    RestoredIsFaithful(w, cfg);
  }

  lemma RestoredIsFaithful(w: World, cfg: Config)
    requires RestoreConfig(w, cfg).1.Done?
    ensures var w' := RestoreConfig(w, cfg).0;
            && w'.services.Keys == w.services.Keys
            && (forall s <- w.services :: s != cfg.service ==> w'.services[s] == w.services[s])
            && cfg.service in w.services && Faithful(cfg.proxies, w'.services[cfg.service])
  {
    RestoreIsAbsorbing(w, cfg);
    var now := RestoreConfig(w, cfg).0.services[cfg.service];
    assert now.web == now.Get(Web) && now.secure == now.Get(Secure);
    assert cfg.proxies.web == cfg.proxies.Get(Web) && cfg.proxies.secure == cfg.proxies.Get(Secure);
  }

  lemma FaultySetFails(w: World, service: string, port: int, n: nat)
    requires service in w.services && n < 2 && OnlyFault(w.tape, n)
    ensures var (w', st) := RunAll(w, TakeoverCommands(service, port)); st.Errored? && AllOk(w'.tape)
  {
    var cs := TakeoverCommands(service, port);
    assert cs == [cs[0]] + [cs[1]];
    RunAllAppend(w, [cs[0]], [cs[1]]);
    RunOne(w, cs[0]);
    StepBeforeFault(w, n);
    if n == 1 {
      var w1 := RunCommand(w, cs[0]).0;
      RunOne(w1, cs[1]);
      StepBeforeFault(w1, 0);
    }
  }

  /** Either set command failing, whatever it still did, with nothing else going wrong: Apply declines, both proxies
      are as captured, and the snapshot is gone. */
  lemma FailedTakeOverIsUndone(w: World, cfg: Config, port: int, n: nat)
    requires cfg.service in w.services && 1 <= n <= 2 && OnlyFault(w.tape, n)
    ensures var (w', a) := TakeOver(w, cfg, port); a.Declined? && Undone(w.services, cfg, w')
  {
    StepBeforeFault(w, n);
    var w1 := Persist(w, cfg).0;
    FaultySetFails(w1, cfg.service, port, n - 1);
    var cs := TakeoverCommands(cfg.service, port);
    RunAllIsLocal(w1, cs, cfg.service);
    UnhinderedRollback(RunAll(w1, cs).0, cfg);
  }

  lemma FaultyCapture(w: World, service: string, n: nat)
    requires service in w.services && n < 4 && OnlyFault(w.tape, n)
    ensures Capture(w, Service(service)).1 == NotRead(Declined)
  {
    StepBeforeFault(w, n);
    var w1 := w.Advance();
    assert Reads(w, 1) == if n == 0 then (w1, Errored) else (w1, Done);
    if n > 0 {
      StepBeforeFault(w1, n - 1);
      var w2 := w1.Advance();
      assert Reads(w1, 1) == if n == 1 then (w2, Errored) else (w2, Done);
      if n > 1 {
        StepBeforeFault(w2, n - 2);
        if n > 2 {
          StepBeforeFault(w2.Advance(), 0);
        }
        assert Reads(w2, 2) == if n == 2 then (w2.Advance(), Errored) else Reads(w2.Advance(), 1);
      }
    }
  }

  lemma FaultAfterCapture(w: World, service: string, n: nat)
    requires service in w.services && n >= 4 && OnlyFault(w.tape, n)
    ensures var (w', c) := Capture(w, Service(service));
            && c == Read(Config(service, w.services[service])) && OnlyFault(w'.tape, n - 4)
            && w'.services == w.services && w'.file == w.file
  {
    UndisturbedCapture(w, service, 4);
  }

  /** One of Apply's seven steps failing: it declines; every service is as it was, as far as that can be restored; and
      the snapshot is gone, or no step has touched it, or it says what is so. */
  lemma FailedApplyIsUndone(w: World, service: string, port: int, n: nat)
    requires service in w.services && n < 7 && OnlyFault(w.tape, n)
    ensures var (w', a) := Apply(w, Service(service), port);
            && a.Declined?
            && AllBack(w', w.services)
            && (n < 4 ==> w'.services == w.services && w'.file == w.file)
            && (n == 4 ==> w'.services == w.services && (w'.file == w.file || Disposable(w')))
            && (n > 4 ==> w'.file.Absent?)
  {
    CaptureKeeps(w, Service(service));
    if n < 4 {
      FaultyCapture(w, service, n);
    } else {
      FaultAfterCapture(w, service, n);
      var (w4, c) := Capture(w, Service(service));
      StepBeforeFault(w4, n - 4);
      if n > 4 {
        FailedTakeOverIsUndone(w4, c.cfg, port, n - 4);
      }
    }
  }

  /** A process on a machine with no readable snapshot, in which one step fails before it serves: when it is over every
      service is as it was, as far as that can be restored, and no snapshot is still needed. */
  lemma OneFaultIsHarmless(w: World, service: string, port: int, n: nat)
    requires !w.file.Saved? && service in w.services && n < 8 && OnlyFault(w.tape, n)
    ensures var w' := Session(w, Service(service), port);
            AllBack(w', w.services) && Disposable(w') && (n > 5 ==> w'.file.Absent?)
  {
    StepBeforeFault(w, n);
    NothingToRecover(w);
    var w1 := w.Advance();
    if n > 0 {
      FailedApplyIsUndone(w1, service, port, n - 1);
    } else {
      UndisturbedProceed(w1, service, port);
    }
  }

  lemma UndisturbedProceed(w: World, service: string, port: int)
    requires service in w.services && AllOk(w.tape)
    ensures var w' := Proceed(w, Service(service), port); w'.file.Absent? && AllBack(w', w.services)
  {
    UndisturbedApply(w, service, port);
    var (w1, a) := Apply(w, Service(service), port);
    assert a == TookOver(Config(service, w.services[service])) && AllOk(w1.tape);
    UndisturbedRestore(w1.Advance(), a.cfg, port);
  }

  // ---- a takeover that succeeds --------------------------------------------------------------------

  /** However the steps before it end, an Apply that reports success has pointed both proxies of the primary service at
      127.0.0.1 and the port, changed nothing else, and left in the snapshot what was there; with no service to take
      over it touches nothing. */
  lemma TakeoverIsWhole(w: World, primary: Primary, port: int)
    ensures var (w', a) := Apply(w, primary, port);
            && (a.TookOver? ==>
                  && primary.Service? && primary.name in w.services && primary.name in w'.services
                  && a.cfg == Config(primary.name, w.services[primary.name]) && w'.file == Saved(a.cfg)
                  && (forall k: Kind :: w'.services[primary.name].Get(k) == Setting(true, "127.0.0.1", port))
                  && w'.services == w.services[primary.name := w'.services[primary.name]])
            && (!(primary.Service? && primary.name in w.services) ==>
                  !a.TookOver? && w'.services == w.services && w'.file == w.file && (AllOk(w.tape) ==> a.Declined?))
  {
    CaptureKeeps(w, primary);
    var (w1, c) := Capture(w, primary);
    if c.Read? {
      var (w2, st2) := Persist(w1, c.cfg);
      if st2.Done? {
        CompletedSets(w2, c.cfg.service, port);
      }
    } else if AllOk(w.tape) {
      OkReads(w, 1);
      var w1 := Reads(w, 1).0;
      OkReads(w1, 1);
      OkReads(Reads(w1, 1).0, 1);
    }
  }

  lemma OkReads(w: World, n: nat)
    requires AllOk(w.tape)
    ensures Reads(w, n).1.Done? && AllOk(Reads(w, n).0.tape)
    decreases n
  {
  }

  lemma CompletedSets(w: World, service: string, port: int)
    requires service in w.services
    ensures var (w', st) := RunAll(w, TakeoverCommands(service, port));
            st.Done? ==>
              && w'.services.Keys == w.services.Keys && w'.file == w.file
              && (forall k: Kind :: w'.services[service].Get(k) == Setting(true, "127.0.0.1", port))
              && (forall s <- w.services :: s != service ==> w'.services[s] == w.services[s])
  {
    var cs := TakeoverCommands(service, port);
    RunAllIsLocal(w, cs, service);
    assert cs == [cs[0]] + [cs[1]];
    RunAllAppend(w, [cs[0]], [cs[1]]);
    RunOne(w, cs[0]);
    RunOne(RunCommand(w, cs[0]).0, cs[1]);
  }
}
