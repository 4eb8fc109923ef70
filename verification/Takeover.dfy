/** Crash safety of the system-proxy takeover: what every run of sessions keeps, what a successful
    restore gives back, and exactly when the two places that discard an error lose the user's
    settings. */
module Takeover {
  import opened Wrappers
  import opened SysProxy

  // ---- commands touch one service ------------------------------------------------------------

  ghost predicate AllTarget(cs: seq<Command>, service: string) {
    forall i | 0 <= i < |cs| :: cs[i].service == service
  }

  lemma {:induction false} RunAllIsLocal(w: World, cs: seq<Command>, service: string)
    requires AllTarget(cs, service)
    ensures var w' := RunAll(w, cs).0;
            && w'.services.Keys == w.services.Keys
            && w'.file == w.file
            && (forall s <- w.services :: s != service ==> w'.services[s] == w.services[s])
    decreases |cs|
  {
    if cs != [] {
      var (w1, st) := RunCommand(w, cs[0]);
      assert cs[0].service == service;
      if st.Done? {
        RunAllIsLocal(w1, cs[1..], service);
      }
    }
  }

  lemma {:induction false} RunAllAppend(w: World, a: seq<Command>, b: seq<Command>)
    ensures RunAll(w, a + b) == var (w', st) := RunAll(w, a); if st.Done? then RunAll(w', b) else (w', st)
    decreases |a|
  {
    if a == [] {
      assert a + b == b;
    } else {
      assert (a + b)[1..] == a[1..] + b;
      var (w1, st) := RunCommand(w, a[0]);
      if st.Done? {
        RunAllAppend(w1, a[1..], b);
      }
    }
  }

  lemma RunOne(w: World, c: Command)
    ensures RunAll(w, [c]) == RunCommand(w, c)
  {
    var (w', st) := RunCommand(w, c);
    assert RunAll(w', []) == (w', Done);
  }

  lemma ReadsKeep(w: World, n: nat)
    ensures var w' := Reads(w, n).0; w'.services == w.services && w'.file == w.file
    decreases n
  {
  }

  lemma CaptureKeeps(w: World, primary: Primary)
    ensures var (w', c) := Capture(w, primary);
            && w'.services == w.services && w'.file == w.file
            && (c.Read? ==> primary.Service? && primary.name in w.services &&
                            c.cfg == Config(primary.name, w.services[primary.name]))
  {
    var w1 := Reads(w, 1).0;
    var w2 := Reads(w1, 1).0;
    ReadsKeep(w, 1);
    ReadsKeep(w1, 1);
    ReadsKeep(w2, 1);
    ReadsKeep(w2, 2);
  }

  // ---- restoring is absorbing -----------------------------------------------------------------

  lemma SettingRestored(w: World, service: string, k: Kind, s: Setting)
    ensures var (w', st) := RunAll(w, SettingCommands(service, k, s));
            && w'.file == w.file && w'.services.Keys == w.services.Keys
            && (st.Done? ==> service in w.services)
            && (service in w.services ==>
                  var was := w.services[service];
                  var now := w'.services[service];
                  && now == was.Put(k, now.Get(k))
                  && (st.Done? ==>
                        now.Get(k) == if s.host != "" then s else was.Get(k).(enabled := s.enabled)))
  {
    var cs := SettingCommands(service, k, s);
    RunAllIsLocal(w, cs, service);
    var last := SetState(service, k, s.enabled);
    if s.host != "" {
      assert cs == [SetProxy(service, k, s.host, s.port)] + [last];
      RunAllAppend(w, [cs[0]], [last]);
      RunOne(w, cs[0]);
      RunOne(RunCommand(w, cs[0]).0, last);
    } else {
      assert cs == [last];
      RunOne(w, last);
    }
  }

  /** Whatever was done to the service before, a restore that reports success leaves exactly the
      captured host, port and switch where a host was captured, and the captured switch (with the
      host and port found there) where none was.  No other service changes. */
  lemma RestoreIsAbsorbing(w: World, cfg: Config)
    ensures var (w', st) := RestoreConfig(w, cfg);
            && w'.services.Keys == w.services.Keys
            && w'.file == w.file
            && (forall s <- w.services :: s != cfg.service ==> w'.services[s] == w.services[s])
            && (st.Done? ==> cfg.service in w.services)
            && (st.Done? ==> forall k: Kind ::
                  var s := cfg.proxies.Get(k);
                  w'.services[cfg.service].Get(k)
                    == if s.host != "" then s else w.services[cfg.service].Get(k).(enabled := s.enabled))
  {
    var a := SettingCommands(cfg.service, Secure, cfg.proxies.secure);
    var b := SettingCommands(cfg.service, Web, cfg.proxies.web);
    RunAllIsLocal(w, a + b, cfg.service);
    RunAllAppend(w, a, b);
    SettingRestored(w, cfg.service, Secure, cfg.proxies.secure);
    var (w1, st1) := RunAll(w, a);
    if st1.Done? {
      SettingRestored(w1, cfg.service, Web, cfg.proxies.web);
    }
  }

  /** With nothing going wrong a restore does report success. */
  lemma {:induction false} UnhinderedRunsThrough(w: World, cs: seq<Command>, service: string)
    requires AllTarget(cs, service) && service in w.services
    requires forall i | 0 <= i < |w.tape| :: w.tape[i].Ok?
    ensures var (w', st) := RunAll(w, cs); st.Done? && forall i | 0 <= i < |w'.tape| :: w'.tape[i].Ok?
    decreases |cs|
  {
    if cs != [] {
      var (w1, st) := RunCommand(w, cs[0]);
      assert cs[0].service == service;
      UnhinderedRunsThrough(w1, cs[1..], service);
    }
  }

  lemma FaithfulIsTransitive(a: Proxies, b: Proxies, c: Proxies)
    requires Faithful(a, b) && Faithful(b, c)
    ensures Faithful(a, c)
  {
  }

  /** Being faithful means sending traffic where it used to go, for exactly those settings in
      which an enabled proxy has a host. */
  lemma FaithfulMeansEffective(was: Setting)
    ensures (forall now: Setting :: FaithfulSetting(was, now) ==> Effective(now) == Effective(was))
            <==> (was.enabled ==> was.host != "")
  {
    if was.enabled && was.host == "" {
      var now := Setting(true, LOOPBACK, 8888);
      assert FaithfulSetting(was, now) && Effective(now) != Effective(was);
    }
  }

  // ---- one session ----------------------------------------------------------------------------

  ghost predicate AllBack(w: World, user: map<string, Proxies>) {
    w.services.Keys == user.Keys && forall s <- user :: Faithful(user[s], w.services[s])
  }

  lemma DisposableMeansAllBack(w: World, user: map<string, Proxies>)
    requires Promise(w, user) && Disposable(w)
    ensures AllBack(w, user)
  {
    forall s <- user ensures Faithful(user[s], w.services[s]) {
      if Names(w.file, s) {
        FaithfulIsTransitive(user[s], w.file.cfg.proxies, w.services[s]);
      }
    }
  }

  lemma RestoreAndClearKeepsPromise(w: World, user: map<string, Proxies>, cfg: Config)
    requires Promise(w, user) && w.file == Saved(cfg)
    ensures var (w', st) := RestoreAndClear(w, cfg);
            Promise(w', user) && (st.Done? ==> w'.file.Absent? && AllBack(w', user))
  {
    RestoreIsAbsorbing(w, cfg);
    var (w1, st1) := RestoreConfig(w, cfg);
    if st1.Done? {
      var now := w1.services[cfg.service];
      assert now.web == now.Get(Web) && now.secure == now.Get(Secure);
      assert cfg.proxies.web == cfg.proxies.Get(Web) && cfg.proxies.secure == cfg.proxies.Get(Secure);
      FaithfulIsTransitive(user[cfg.service], cfg.proxies, now);
    }
  }

  /** Recover never makes things worse, and when it reports success every service is as the user
      left it and no snapshot remains. */
  lemma RecoverKeepsPromise(w: World, user: map<string, Proxies>)
    requires Promise(w, user)
    ensures var (w', st) := Recover(w);
            Promise(w', user) && (st.Done? ==> w'.file.Absent? && AllBack(w', user))
  {
    var (w1, l) := LoadSnapshot(w);
    if l.Found? {
      RestoreAndClearKeepsPromise(w1, user, l.cfg);
    }
  }

  /** Recover run on a promise with nothing going wrong gives everything back; a torn snapshot
      was never needed. */
  lemma RecoverHeals(w: World, user: map<string, Proxies>)
    requires Promise(w, user)
    requires forall i | 0 <= i < |w.tape| :: w.tape[i].Ok?
    ensures AllBack(Recover(w).0, user)
    ensures w.file.Torn? <==> !Recover(w).1.Done?
  {
    RecoverKeepsPromise(w, user);
    if w.file.Saved? {
      UnhinderedRecoverSucceeds(w);
    }
  }

  lemma UnhinderedRecoverSucceeds(w: World)
    requires w.file.Saved? && w.file.cfg.service in w.services
    requires forall i | 0 <= i < |w.tape| :: w.tape[i].Ok?
    ensures Recover(w).1.Done?
  {
    var w1 := LoadSnapshot(w).0;
    UnhinderedRunsThrough(w1, RestoreCommands(w.file.cfg), w.file.cfg.service);
  }

  lemma RollbackKeepsPromise(w: World, user: map<string, Proxies>, cfg: Config)
    requires Promise(w, user) && w.file == Saved(cfg) && UndoHolds(w, cfg)
    ensures Promise(Rollback(w, cfg).0, user)
  {
    RestoreAndClearKeepsPromise(w, user, cfg);
    var (w1, st1) := RestoreConfig(w, cfg);
    if st1.Errored? && w1.Next().Effect().Fully? {
      RestoreIsAbsorbing(w, cfg);
      FaithfulIsTransitive(user[cfg.service], cfg.proxies, w1.services[cfg.service]);
    }
  }

  lemma SettingKeepsPromise(w: World, user: map<string, Proxies>, cfg: Config, cs: seq<Command>)
    requires Promise(w, user) && w.file == Saved(cfg) && AllTarget(cs, cfg.service)
    ensures var w' := RunAll(w, cs).0; Promise(w', user) && w'.file == Saved(cfg)
  {
    RunAllIsLocal(w, cs, cfg.service);
  }

  lemma TakeOverKeepsPromise(w: World, user: map<string, Proxies>, service: string, port: int)
    requires AllBack(w, user) && service in w.services
    requires Promise(w, user)
    requires var cfg := Config(service, w.services[service]);
             var (w1, st1) := Persist(w, cfg);
             var (w2, st2) := RunAll(w1, TakeoverCommands(service, port));
             st1.Done? && st2.Errored? ==> UndoHolds(w2, cfg)
    ensures var cfg := Config(service, w.services[service]);
            var (w', a) := TakeOver(w, cfg, port);
            Promise(w', user) && (a.TookOver? ==> w'.file == Saved(cfg) && a.cfg == cfg)
  {
    var cfg := Config(service, w.services[service]);
    var (w1, st1) := Persist(w, cfg);
    if st1.Done? {
      var cs := TakeoverCommands(service, port);
      SettingKeepsPromise(w1, user, cfg, cs);
      var (w2, st2) := RunAll(w1, cs);
      if st2.Errored? {
        RollbackKeepsPromise(w2, user, cfg);
      }
    }
  }

  lemma ApplyKeepsPromise(w: World, user: map<string, Proxies>, primary: Primary, port: int)
    requires Promise(w, user) && RollbackHolds(w, primary, port) && (Overwrites(w, primary) ==> Disposable(w))
    ensures var (w', a) := Apply(w, primary, port);
            Promise(w', user) && (a.TookOver? ==> w'.file == Saved(a.cfg))
  {
    CaptureKeeps(w, primary);
    var (w1, c) := Capture(w, primary);
    if c.Read? && !w1.Next().Effect().Nothing? {
      DisposableMeansAllBack(w1, user);
      TakeOverKeepsPromise(w1, user, c.cfg.service, port);
    }
  }

  lemma LeavingKeepsPromise(w: World, user: map<string, Proxies>, cfg: Config)
    requires Promise(w, user) && w.file == Saved(cfg)
    ensures Promise(w.Advance(), user) && Promise(RestoreAndClear(w.Advance(), cfg).0, user)
  {
    RestoreAndClearKeepsPromise(w.Advance(), user, cfg);
  }

  lemma ProceedKeepsPromise(w: World, user: map<string, Proxies>, primary: Primary, port: int)
    requires Promise(w, user) && RollbackHolds(w, primary, port) && (Overwrites(w, primary) ==> Disposable(w))
    ensures Promise(Proceed(w, primary, port), user)
  {
    ApplyKeepsPromise(w, user, primary, port);
    var (w1, a) := Apply(w, primary, port);
    if a.TookOver? {
      LeavingKeepsPromise(w1, user, a.cfg);
    }
  }

  /** The whole life of one process, ending anywhere. */
  lemma SessionKeepsPromise(w: World, user: map<string, Proxies>, primary: Primary, port: int)
    requires Promise(w, user) && Benign(w, primary, port)
    ensures Promise(Session(w, primary, port), user)
  {
    RecoverKeepsPromise(w, user);
    var (w1, st1) := Recover(w);
    if !st1.Crashed? {
      ProceedKeepsPromise(w1, user, primary, port);
    }
  }

  // ---- any number of runs ---------------------------------------------------------------------

  /** Between runs the user may set, add and remove any service that no snapshot still speaks for. */
  datatype Event =
    | Start(primary: Primary, port: int, tape: seq<Outcome>)
    | UserSets(service: string, proxies: Proxies)
    | UserRemoves(service: string)

  ghost predicate Permitted(w: World, e: Event) {
    match e
    case Start(primary, port, tape) => Benign(w.With(tape), primary, port)
    case UserSets(service, _) => !Names(w.file, service)
    case UserRemoves(service) => !Names(w.file, service)
  }

  function Happen(w: World, e: Event): World {
    match e
    case Start(primary, port, tape) => Session(w.With(tape), primary, port)
    case UserSets(service, proxies) => w.(services := w.services[service := proxies])
    case UserRemoves(service) => w.(services := w.services - {service})
  }

  function Wants(user: map<string, Proxies>, e: Event): map<string, Proxies> {
    match e
    case Start(_, _, _) => user
    case UserSets(service, proxies) => user[service := proxies]
    case UserRemoves(service) => user - {service}
  }

  ghost predicate PermittedRun(w: World, events: seq<Event>)
    decreases |events|
  {
    events != [] ==> Permitted(w, events[0]) && PermittedRun(Happen(w, events[0]), events[1..])
  }

  function History(w: World, events: seq<Event>): World
    decreases |events|
  {
    if events == [] then w else History(Happen(w, events[0]), events[1..])
  }

  function Wish(user: map<string, Proxies>, events: seq<Event>): map<string, Proxies>
    decreases |events|
  {
    if events == [] then user else Wish(Wants(user, events[0]), events[1..])
  }

  /** Any number of sessions on any primary services, each ending anywhere, with the user
      changing services in between: the promise still stands. */
  lemma {:induction false} EveryRunKeepsPromise(w: World, user: map<string, Proxies>, events: seq<Event>)
    requires Promise(w, user) && PermittedRun(w, events)
    ensures Promise(History(w, events), Wish(user, events))
    decreases |events|
  {
    if events != [] {
      var e := events[0];
      if e.Start? {
        assert Promise(w.With(e.tape), user);
        SessionKeepsPromise(w.With(e.tape), user, e.primary, e.port);
      }
      EveryRunKeepsPromise(Happen(w, e), Wants(user, e), events[1..]);
    }
  }

  /** The main result: on a machine where no takeover is pending, after any permitted history an
      undisturbed Recover leaves every service as the user last wanted it, and every proxy that the
      user enabled with a host sends traffic to that host and port. */
  lemma RecoveryAfterAnyHistory(w: World, events: seq<Event>, tape: seq<Outcome>)
    requires !w.file.Saved? && PermittedRun(w, events)
    requires forall i | 0 <= i < |tape| :: tape[i].Ok?
    ensures var user := Wish(w.services, events);
            var w' := Recover(History(w, events).With(tape)).0;
            && AllBack(w', user)
            && forall s <- user, k: Kind ::
                 (user[s].Get(k).enabled ==> user[s].Get(k).host != "")
                 ==> Effective(w'.services[s].Get(k)) == Effective(user[s].Get(k))
  {
    var user := Wish(w.services, events);
    var after := History(w, events);
    EveryRunKeepsPromise(w, w.services, events);
    assert Promise(after.With(tape), user);
    RecoverHeals(after.With(tape), user);
    var w' := Recover(after.With(tape)).0;
    forall s <- user, k: Kind | user[s].Get(k).enabled ==> user[s].Get(k).host != ""
      ensures Effective(w'.services[s].Get(k)) == Effective(user[s].Get(k))
    {
      FaithfulMeansEffective(user[s].Get(k));
      assert FaithfulSetting(user[s].Get(k), w'.services[s].Get(k));
    }
  }

  // ---- how little the environment has to promise ------------------------------------------------

  predicate FaultFree(w: World) {
    forall i | 0 <= i < |w.tape| :: !w.tape[i].Fail?
  }

  lemma {:induction false} FaultFreeRun(w: World, cs: seq<Command>, service: string)
    requires AllTarget(cs, service) && service in w.services && FaultFree(w)
    ensures var (w', st) := RunAll(w, cs); !st.Errored? && FaultFree(w')
    decreases |cs|
  {
    if cs != [] {
      var (w1, st) := RunCommand(w, cs[0]);
      assert cs[0].service == service;
      if st.Done? {
        FaultFreeRun(w1, cs[1..], service);
      }
    }
  }

  lemma FaultFreeReads(w: World, n: nat)
    requires FaultFree(w)
    ensures FaultFree(Reads(w, n).0)
    decreases n
  {
  }

  lemma FaultFreeRecover(w: World)
    requires FaultFree(w) && (w.file.Saved? ==> w.file.cfg.service in w.services)
    ensures var (w', st) := Recover(w);
            FaultFree(w') && (st.Errored? ==> w'.file.Torn?)
  {
    if w.file.Saved? {
      var w1 := LoadSnapshot(w).0;
      FaultFreeRun(w1, RestoreCommands(w.file.cfg), w.file.cfg.service);
    }
  }

  lemma FaultFreeRollback(w: World, primary: Primary, port: int)
    requires FaultFree(w)
    ensures RollbackHolds(w, primary, port)
  {
    FaultFreeReads(w, 1);
    FaultFreeReads(Reads(w, 1).0, 1);
    FaultFreeReads(Reads(Reads(w, 1).0, 1).0, 2);
    var (w1, c) := Capture(w, primary);
    if c.Read? {
      CaptureKeeps(w, primary);
      FaultFreeRun(Persist(w1, c.cfg).0, TakeoverCommands(c.cfg.service, port), c.cfg.service);
    }
  }

  /** Crashes alone, at any point, never break the promise: a session in which no step reports an
      error is always permitted. */
  lemma CrashesAloneAreBenign(w: World, user: map<string, Proxies>, primary: Primary, port: int)
    requires Promise(w, user) && FaultFree(w)
    ensures Benign(w, primary, port) && Promise(Session(w, primary, port), user)
  {
    FaultFreeRecover(w);
    FaultFreeRollback(Recover(w).0, primary, port);
    SessionKeepsPromise(w, user, primary, port);
  }

  // ---- exactly when discarding an error costs the user's settings --------------------------------

  /** Writing the snapshot is where the error that main ignores can do harm.  Whatever happens to the write, it is
      safe for every user exactly when it does nothing or nothing would be lost with the old snapshot. */
  lemma PersistIsSafeExactlyWhenDisposable(w: World, service: string)
    requires service in w.services
    ensures (forall user: map<string, Proxies> ::
               Promise(w, user) ==> Promise(Persist(w, Config(service, w.services[service])).0, user))
            <==> w.Next().Effect().Nothing? || Disposable(w)
  {
    var cfg := Config(service, w.services[service]);
    if w.Next().Effect().Nothing? || Disposable(w) {
      forall user: map<string, Proxies> | Promise(w, user) ensures Promise(Persist(w, cfg).0, user) {
        if !w.Next().Effect().Nothing? {
          DisposableMeansAllBack(w, user);
        }
      }
    } else {
      var lost := w.file.cfg;
      var user := w.services[lost.service := lost.proxies];
      assert Promise(w, user);
      assert !Faithful(user[lost.service], w.services[lost.service]);
      assert !Promise(Persist(w, cfg).0, user);
    }
  }

  /** Removing the snapshot is where the error that the rollback ignores can do harm: one particular rollback is safe
      for every user exactly when it holds. */
  lemma RollbackIsSafeExactlyWhenUndoHolds(w: World, cfg: Config)
    requires w.file == Saved(cfg) && cfg.service in w.services
    ensures (forall user: map<string, Proxies> :: Promise(w, user) ==> Promise(Rollback(w, cfg).0, user))
            <==> UndoHolds(w, cfg)
  {
    if UndoHolds(w, cfg) {
      forall user: map<string, Proxies> | Promise(w, user) ensures Promise(Rollback(w, cfg).0, user) {
        RollbackKeepsPromise(w, user, cfg);
      }
    } else {
      var user := w.services[cfg.service := cfg.proxies];
      assert Promise(w, user);
      RestoreIsAbsorbing(w, cfg);
      assert !Promise(Rollback(w, cfg).0, user);
    }
  }

  /** main goes on to Apply after a Recover that failed.  That is safe, for every user and every
      way the steps can end, exactly when the service named by a remaining snapshot already is as
      the snapshot says. */
  lemma ApplyIsSafeExactlyWhenDisposable(w: World, primary: Primary, port: int)
    requires primary.Service? && primary.name in w.services
    requires w.file.Saved? ==> w.file.cfg.service in w.services
    ensures (forall user: map<string, Proxies>, tape: seq<Outcome> ::
               Promise(w, user) && RollbackHolds(w.With(tape), primary, port)
               ==> Promise(Apply(w.With(tape), primary, port).0, user))
            <==> Disposable(w)
  {
    if Disposable(w) {
      forall user: map<string, Proxies>, tape: seq<Outcome>
        | Promise(w, user) && RollbackHolds(w.With(tape), primary, port)
        ensures Promise(Apply(w.With(tape), primary, port).0, user)
      {
        assert Promise(w.With(tape), user);
        ApplyKeepsPromise(w.With(tape), user, primary, port);
      }
    } else {
      // The write of the new snapshot fails after truncating the old one.
      var cfg := w.file.cfg;
      var user := w.services[cfg.service := cfg.proxies];
      var tape := [Ok, Ok, Ok, Ok, Fail(Partly)];
      TornWriteLosesSnapshot(w, primary.name, port);
      assert Promise(w, user);
      assert !Faithful(user[cfg.service], w.services[cfg.service]);
      assert RollbackHolds(w.With(tape), primary, port);
      assert !Promise(Apply(w.With(tape), primary, port).0, user);
    }
  }

  lemma TornWriteLosesSnapshot(w: World, service: string, port: int)
    requires service in w.services
    ensures var w' := w.With([Ok, Ok, Ok, Ok, Fail(Partly)]);
            && Capture(w', Service(service)) == (w.With([Fail(Partly)]), Read(Config(service, w.services[service])))
            && Apply(w', Service(service), port) == (w.With([]).(file := Torn), Declined)
  {
    var w0 := w.With([Ok, Ok, Ok, Ok, Fail(Partly)]);
    UndisturbedCapture(w0, service, 4);
    assert Rest(w0.tape, 4) == [Fail(Partly)];
    assert w.With([Fail(Partly)]).Advance() == w.With([]);
  }

  /** Undoing changes nothing and cannot change anything on the way. */
  predicate Inert(w: World, cfg: Config)
    requires cfg.service in w.services
  {
    Faithful(cfg.proxies, w.services[cfg.service]) &&
    forall k: Kind :: cfg.proxies.Get(k).host == "" || cfg.proxies.Get(k).enabled
  }

  lemma {:induction false} InertRunKeepsFaithful(w: World, cs: seq<Command>, cfg: Config)
    requires cfg.service in w.services && Faithful(cfg.proxies, w.services[cfg.service])
    requires forall c <- cs ::
               && c.service == cfg.service
               && match c
                  case SetProxy(_, k, h, p) => h != "" && Setting(true, h, p) == cfg.proxies.Get(k)
                  case SetState(_, k, on) => on == cfg.proxies.Get(k).enabled
    ensures var w' := RunAll(w, cs).0;
            cfg.service in w'.services && Faithful(cfg.proxies, w'.services[cfg.service])
    decreases |cs|
  {
    if cs != [] {
      assert cs[0] in cs;
      var (w1, st) := RunCommand(w, cs[0]);
      if st.Done? {
        InertRunKeepsFaithful(w1, cs[1..], cfg);
      }
    }
  }

  lemma InertUndoHolds(w: World, cfg: Config)
    requires cfg.service in w.services && Inert(w, cfg)
    ensures UndoHolds(w, cfg)
  {
    assert cfg.proxies.web == cfg.proxies.Get(Web) && cfg.proxies.secure == cfg.proxies.Get(Secure);
    InertRunKeepsFaithful(w, RestoreCommands(cfg), cfg);
  }

  function Oks(n: nat): seq<Outcome> {
    if n == 0 then [] else [Ok] + Oks(n - 1)
  }

  /** A tape on which a rollback of a setting that is not inert goes wrong. */
  function Mishap(w: World, cfg: Config): seq<Outcome>
    requires cfg.service in w.services
  {
    var secure := cfg.proxies.secure;
    if !Faithful(cfg.proxies, w.services[cfg.service]) then [Fail(Nothing)]
    else if secure.host != "" && !secure.enabled then [Ok, Fail(Nothing)]
    else Oks(|SettingCommands(cfg.service, Secure, secure)|) + [Ok, Fail(Nothing)]
  }

  lemma {:induction false} OksRunThrough(w: World, cs: seq<Command>, service: string, then': seq<Outcome>)
    requires AllTarget(cs, service) && service in w.services && w.tape == Oks(|cs|) + then'
    ensures var (w', st) := RunAll(w, cs); st.Done? && w'.tape == then' && service in w'.services
    decreases |cs|
  {
    if cs != [] {
      var w1 := RunCommand(w, cs[0]).0;
      assert cs[0].service == service;
      assert w.tape[1..] == Oks(|cs| - 1) + then';
      OksRunThrough(w1, cs[1..], service, then');
    }
  }

  /** A command that stores a host, and thereby enables, goes well, and the next is refused. */
  lemma EnabledThenRefused(w: World, c: Command, rest: seq<Command>, service: string)
    requires c.SetProxy? && c.service == service && service in w.services
    requires rest != [] && AllTarget(rest, service)
    requires w.tape == [Ok, Fail(Nothing)]
    ensures var (w', st) := RunAll(w, [c] + rest);
            st.Errored? && service in w'.services && w'.services[service].Get(c.kind).enabled && w'.tape == []
  {
    var w1 := RunCommand(w, c).0;
    RunAllAppend(w, [c], rest);
    RunOne(w, c);
    RefusedChangesNothing(w1, rest, service);
  }

  /** The same after commands that go well. */
  lemma LeftEnabled(w: World, before: seq<Command>, c: Command, rest: seq<Command>, service: string)
    requires AllTarget(before, service) && c.SetProxy? && c.service == service && service in w.services
    requires rest != [] && AllTarget(rest, service)
    requires w.tape == Oks(|before|) + [Ok, Fail(Nothing)]
    ensures var (w', st) := RunAll(w, before + ([c] + rest));
            st.Errored? && service in w'.services && w'.services[service].Get(c.kind).enabled && w'.tape == []
  {
    RunAllAppend(w, before, [c] + rest);
    OksRunThrough(w, before, service, [Ok, Fail(Nothing)]);
    EnabledThenRefused(RunAll(w, before).0, c, rest, service);
  }

  lemma MishapLosesSettings(w: World, cfg: Config)
    requires cfg.service in w.services && w.file == Saved(cfg) && !Inert(w, cfg)
    ensures var w' := Rollback(w.With(Mishap(w, cfg)), cfg).0;
            w'.file.Absent? && cfg.service in w'.services && !Faithful(cfg.proxies, w'.services[cfg.service])
  {
    var w0 := w.With(Mishap(w, cfg));
    var service, secure, web := cfg.service, cfg.proxies.secure, cfg.proxies.web;
    var cs := RestoreCommands(cfg);
    RunAllIsLocal(w0, cs, service);
    if !Faithful(cfg.proxies, w.services[service]) {
      RefusedChangesNothing(w0, cs, service);
    } else if secure.host != "" && !secure.enabled {
      var c := SetProxy(service, Secure, secure.host, secure.port);
      assert cs == [] + ([c] + cs[1..]) && Oks(0) == [];
      LeftEnabled(w0, [], c, cs[1..], service);
    } else {
      assert cfg.proxies.Get(Secure) == secure && cfg.proxies.Get(Web) == web;
      var before := SettingCommands(service, Secure, secure);
      var c := SetProxy(service, Web, web.host, web.port);
      var last := SetState(service, Web, web.enabled);
      assert cs == before + ([c] + [last]);
      LeftEnabled(w0, before, c, [last], service);
    }
  }

  /** Apply drops the snapshot even when its rollback failed.  That is safe, for every user and every
      way the steps can end, exactly when there is nothing left to undo and neither captured proxy
      is switched off with a host stored (restoring such a proxy enables it for a moment). */
  lemma RollbackIsSafeExactlyWhenInert(w: World, cfg: Config)
    requires w.file == Saved(cfg) && cfg.service in w.services
    ensures (forall user: map<string, Proxies>, tape: seq<Outcome> ::
               Promise(w, user) ==> Promise(Rollback(w.With(tape), cfg).0, user))
            <==> Inert(w, cfg)
  {
    if Inert(w, cfg) {
      forall user: map<string, Proxies>, tape: seq<Outcome> | Promise(w, user)
        ensures Promise(Rollback(w.With(tape), cfg).0, user)
      {
        assert Inert(w.With(tape), cfg);
        InertUndoHolds(w.With(tape), cfg);
        RollbackKeepsPromise(w.With(tape), user, cfg);
      }
    } else {
      var user := w.services[cfg.service := cfg.proxies];
      assert Promise(w, user);
      MishapLosesSettings(w, cfg);
      assert !Promise(Rollback(w.With(Mishap(w, cfg)), cfg).0, user);
    }
  }

  // ---- what an undisturbed process leaves behind ---------------------------------------------------

  /** A tape after `n` steps. */
  function Rest(tape: seq<Outcome>, n: nat): seq<Outcome> {
    if |tape| <= n then [] else tape[n..]
  }

  /** The first `n` steps go well. */
  predicate GoesWell(tape: seq<Outcome>, n: nat) {
    forall i | 0 <= i < n && i < |tape| :: tape[i].Ok?
  }

  lemma NextGoesWell(w: World, n: nat)
    requires n > 0 && GoesWell(w.tape, n)
    ensures w.Next().Ok? && w.Advance() == w.With(Rest(w.tape, 1)) && GoesWell(Rest(w.tape, 1), n - 1)
  {
  }

  lemma RestOfRest(tape: seq<Outcome>, m: nat, n: nat)
    ensures Rest(Rest(tape, m), n) == Rest(tape, m + n)
  {
  }

  lemma {:induction false} UndisturbedReads(w: World, n: nat, m: nat)
    requires n <= m && GoesWell(w.tape, m)
    ensures Reads(w, n) == (w.With(Rest(w.tape, n)), Done) && GoesWell(Rest(w.tape, n), m - n)
    decreases n
  {
    if n > 0 {
      NextGoesWell(w, m);
      UndisturbedReads(w.Advance(), n - 1, m - 1);
      RestOfRest(w.tape, 1, n - 1);
    }
  }

  /** Both takeover commands going well. */
  lemma UndisturbedTakeover(w: World, service: string, port: int)
    requires service in w.services && GoesWell(w.tape, 2)
    ensures var ours := Setting(true, LOOPBACK, port);
            RunAll(w, TakeoverCommands(service, port))
              == (World(w.services[service := Proxies(ours, ours)], w.file, Rest(w.tape, 2)), Done)
  {
    var ours := Setting(true, LOOPBACK, port);
    var cs := TakeoverCommands(service, port);
    assert cs == [cs[0]] + [cs[1]];
    RunAllAppend(w, [cs[0]], [cs[1]]);
    RunOne(w, cs[0]);
    NextGoesWell(w, 2);
    var half := w.services[service := Proxies(w.services[service].web, ours)];
    var w1 := World(half, w.file, Rest(w.tape, 1));
    assert RunCommand(w, cs[0]) == (w1, Done);
    RunOne(w1, cs[1]);
    NextGoesWell(w1, 1);
    RestOfRest(w.tape, 1, 1);
    assert half[service := Proxies(ours, ours)] == w.services[service := Proxies(ours, ours)];
  }

  lemma UndisturbedCapture(w: World, service: string, n: nat)
    requires service in w.services && n >= 4 && GoesWell(w.tape, n)
    ensures Capture(w, Service(service))
            == (w.With(Rest(w.tape, 4)), Read(Config(service, w.services[service])))
    ensures GoesWell(Rest(w.tape, 4), n - 4)
  {
    UndisturbedReads(w, 1, n);
    UndisturbedReads(w.With(Rest(w.tape, 1)), 1, n - 1);
    RestOfRest(w.tape, 1, 1);
    UndisturbedReads(w.With(Rest(w.tape, 2)), 2, n - 2);
    RestOfRest(w.tape, 2, 2);
  }

  /** Apply with its seven steps going well. */
  lemma UndisturbedApply(w: World, service: string, port: int)
    requires service in w.services && GoesWell(w.tape, 7)
    ensures var cfg := Config(service, w.services[service]);
            var ours := Setting(true, LOOPBACK, port);
            Apply(w, Service(service), port)
              == (World(w.services[service := Proxies(ours, ours)], Saved(cfg), Rest(w.tape, 7)), TookOver(cfg))
  {
    var cfg := Config(service, w.services[service]);
    UndisturbedCapture(w, service, 7);
    var w4 := w.With(Rest(w.tape, 4));
    NextGoesWell(w4, 3);
    RestOfRest(w.tape, 4, 1);
    var w5 := World(w.services, Saved(cfg), Rest(w.tape, 5));
    assert Persist(w4, cfg) == (w5, Done);
    UndisturbedTakeover(w5, service, port);
    RestOfRest(w.tape, 5, 2);
  }

  /** Restoring a setting over proxysim's own: what comes back, and what stays behind. */
  function LeftBehind(was: Setting, port: int): Setting {
    if was.host != "" then was else Setting(was.enabled, LOOPBACK, port)
  }

  lemma UndisturbedRestore(w: World, cfg: Config, port: int)
    requires cfg.service in w.services && w.file == Saved(cfg)
    requires forall i | 0 <= i < |w.tape| :: w.tape[i].Ok?
    requires var ours := Setting(true, LOOPBACK, port); w.services[cfg.service] == Proxies(ours, ours)
    ensures var (w', st) := RestoreAndClear(w, cfg);
            && st.Done? && w'.file.Absent?
            && w'.services == w.services[cfg.service :=
                 Proxies(LeftBehind(cfg.proxies.web, port), LeftBehind(cfg.proxies.secure, port))]
  {
    UnhinderedRunsThrough(w, RestoreCommands(cfg), cfg.service);
    RestoreIsAbsorbing(w, cfg);
    var now := RestoreConfig(w, cfg).0.services[cfg.service];
    assert now.Get(Web) == LeftBehind(cfg.proxies.Get(Web), port);
    assert now.Get(Secure) == LeftBehind(cfg.proxies.Get(Secure), port);
  }

  lemma NothingToRecover(w: World)
    requires !w.file.Saved?
    ensures Recover(w).0 == w.Advance() && (w.Next().Ok? ==> !Recover(w).1.Crashed?)
  {
  }

  lemma SessionToItsEnd(w: World, service: string, port: int, w1: World, w2: World, cfg: Config)
    requires Recover(w).0 == w1 && !Recover(w).1.Crashed?
    requires Apply(w1, Service(service), port) == (w2, TookOver(cfg)) && !w2.Next().Crash?
    ensures Session(w, Service(service), port) == RestoreAndClear(w2.Advance(), cfg).0
  {
  }

  /** A process in which nothing goes wrong, on a machine with no readable snapshot. */
  lemma UndisturbedSession(w: World, service: string, port: int)
    requires !w.file.Saved? && service in w.services
    requires forall i | 0 <= i < |w.tape| :: w.tape[i].Ok?
    ensures var w' := Session(w, Service(service), port);
            var was := w.services[service];
            && w'.file.Absent?
            && w'.services ==
               w.services[service := Proxies(LeftBehind(was.web, port), LeftBehind(was.secure, port))]
  {
    var cfg := Config(service, w.services[service]);
    var ours := Setting(true, LOOPBACK, port);
    var taken := w.services[service := Proxies(ours, ours)];
    var w1 := w.Advance();
    var w2 := World(taken, Saved(cfg), Rest(w1.tape, 7));
    NothingToRecover(w);
    UndisturbedApply(w1, service, port);
    SessionToItsEnd(w, service, port, w1, w2, cfg);
    UndisturbedRestore(w2.Advance(), cfg, port);
    SetTwice(w.services, service, Proxies(ours, ours),
             Proxies(LeftBehind(cfg.proxies.web, port), LeftBehind(cfg.proxies.secure, port)));
  }

  lemma SetTwice(services: map<string, Proxies>, service: string, a: Proxies, b: Proxies)
    ensures services[service := a][service := b] == services[service := b]
  {
  }

  /** Restoring is verbatim, and after an undisturbed process the machine is as before, exactly when both
      proxies of the primary service had a host stored. */
  lemma RestoredVerbatimExactlyWhenHostsStored(w: World, service: string, port: int)
    requires !w.file.Saved? && service in w.services
    requires forall i | 0 <= i < |w.tape| :: w.tape[i].Ok?
    ensures Session(w, Service(service), port).services == w.services
            <==> forall k: Kind :: w.services[service].Get(k).host != ""
  {
    UndisturbedSession(w, service, port);
    var was := w.services[service];
    var after := Session(w, Service(service), port).services;
    assert was.web == was.Get(Web) && was.secure == was.Get(Secure);
    if was.web.host != "" && was.secure.host != "" {
      assert Proxies(was.web, was.secure) == was;
      assert after == w.services;
    } else {
      assert after[service] != was;
    }
  }

  /** Traffic goes where it went before, exactly when every enabled proxy had a host stored. */
  lemma EffectRestoredExactlyWhenEnabledHaveHosts(w: World, service: string, port: int)
    requires !w.file.Saved? && service in w.services
    requires forall i | 0 <= i < |w.tape| :: w.tape[i].Ok?
    ensures var after := Session(w, Service(service), port).services;
            service in after &&
            ((forall k: Kind :: Effective(after[service].Get(k)) == Effective(w.services[service].Get(k)))
             <==> forall k: Kind :: w.services[service].Get(k).enabled ==> w.services[service].Get(k).host != "")
  {
    UndisturbedSession(w, service, port);
    var after := Session(w, Service(service), port).services;
    forall k: Kind
      ensures Effective(after[service].Get(k)) == Effective(w.services[service].Get(k))
              <==> (w.services[service].Get(k).enabled ==> w.services[service].Get(k).host != "")
    {
      assert after[service].Get(k) == LeftBehind(w.services[service].Get(k), port);
    }
  }

  /** The setting of a machine that never had a proxy is not among those restored verbatim: proxysim's address
      stays stored, switched off. */
  lemma NeverSetIsNotRestored(w: World, service: string, port: int)
    requires !w.file.Saved? && service in w.services
    requires forall i | 0 <= i < |w.tape| :: w.tape[i].Ok?
    requires w.services[service] == Proxies(Setting(false, "", 0), Setting(false, "", 0))
    ensures var after := Session(w, Service(service), port).services;
            service in after && forall k: Kind :: after[service].Get(k) == Setting(false, LOOPBACK, port)
  {
    UndisturbedSession(w, service, port);
  }

  // ---- a user without administrator rights -----------------------------------------------------------

  lemma RefusedApply(w: World, service: string, port: int)
    requires service in w.services
    requires |w.tape| >= 7 && GoesWell(w.tape, 5) && w.tape[5] == w.tape[6] == Fail(Nothing)
    ensures RollbackHolds(w, Service(service), port)
    ensures var (w', a) := Apply(w, Service(service), port); a.Declined? || a.Died?
    ensures Apply(w, Service(service), port).0.services == w.services
  {
    var cfg := Config(service, w.services[service]);
    UndisturbedCapture(w, service, 5);
    var w4 := w.With(w.tape[4..]);
    var w5 := World(w.services, Saved(cfg), w.tape[5..]);
    assert w4.tape[1..] == w.tape[5..];
    assert Persist(w4, cfg) == (w5, Done);
    RefusedChangesNothing(w5, TakeoverCommands(service, port), service);
    var w6 := w5.With(w.tape[6..]);
    assert w5.tape[1..] == w.tape[6..];
    RefusedChangesNothing(w6, RestoreCommands(cfg), service);
  }

  /** Every command that would set something is refused without effect, the rollback's included: the process is
      permitted, keeps the promise and changes no service. */
  lemma WithoutRightsNothingIsLost(w: World, user: map<string, Proxies>, primary: Primary, port: int)
    requires Promise(w, user) && w.file.Absent? && primary.Service? && primary.name in w.services
    requires |w.tape| >= 8 && GoesWell(w.tape, 6) && w.tape[6] == w.tape[7] == Fail(Nothing)
    ensures Benign(w, primary, port)
    ensures var w' := Session(w, primary, port); Promise(w', user) && w'.services == w.services
  {
    var w1 := w.With(w.tape[1..]);
    assert Recover(w) == (w1, Done);
    RefusedApply(w1, primary.name, port);
    SessionKeepsPromise(w, user, primary, port);
  }

  lemma RouteFailsAtOnce(w: World, primary: Primary, port: int)
    requires w.Next() == Fail(Nothing)
    ensures Capture(w, primary) == (w.Advance(), NotRead(Declined))
    ensures Apply(w, primary, port) == (w.Advance(), Declined)
    ensures !Overwrites(w, primary) && RollbackHolds(w, primary, port)
  {
    assert Reads(w, 1) == (w.Advance(), Errored);
  }

  /** Recover and Apply share one deadline.  A Recover that runs out of it leaves an Apply whose first command fails at
      once: the process is permitted, whatever the snapshot says, and changes nothing that Recover has not. */
  lemma TimedOutRecoverIsHarmless(w: World, user: map<string, Proxies>, primary: Primary, port: int)
    requires Promise(w, user) && Recover(w).1.Errored? && Recover(w).0.Next() == Fail(Nothing)
    ensures Benign(w, primary, port)
    ensures Session(w, primary, port) == Recover(w).0.Advance() && Promise(Session(w, primary, port), user)
  {
    RouteFailsAtOnce(Recover(w).0, primary, port);
    RecoverKeepsPromise(w, user);
  }

  lemma RefusedChangesNothing(w: World, cs: seq<Command>, service: string)
    requires cs != [] && AllTarget(cs, service) && service in w.services
    requires w.tape != [] && w.tape[0] == Fail(Nothing)
    ensures RunAll(w, cs) == (w.With(w.tape[1..]), Errored)
  {
    assert cs[0].service == service;
    var p := w.services[service];
    assert p.Put(cs[0].kind, p.Get(cs[0].kind)) == p;
    assert w.services[service := p] == w.services;
  }

  /** A process that reads no snapshot (there is none, or it cannot be read), takes over undisturbed and is
      then killed. */
  lemma KilledSession(w: World, service: string, port: int)
    requires service in w.services && |w.tape| == 9
    requires if w.file.Absent? then w.tape[0].Ok? else w.tape[0] == Fail(Nothing)
    requires forall i | 1 <= i < 8 :: w.tape[i].Ok?
    requires w.tape[8] == Crash(Nothing)
    ensures var ours := Setting(true, LOOPBACK, port);
            Session(w, Service(service), port)
              == World(w.services[service := Proxies(ours, ours)], Saved(Config(service, w.services[service])), [])
  {
    var w1 := w.Advance();
    assert Recover(w).0 == w1 && !Recover(w).1.Crashed?;
    UndisturbedApply(w1, service, port);
    assert Rest(w1.tape, 7) == [Crash(Nothing)];
  }

  /** The first discarded error, as a history: a first process takes over and is killed, a second
      cannot read the snapshot and applies anyway.  Its new snapshot holds proxysim's own address, so
      the third process, in which nothing goes wrong, "restores" that and drops the snapshot. */
  lemma IgnoredRecoverErrorStrandsUser(service: string, before: Proxies, port: int)
    ensures var oks := [Ok, Ok, Ok, Ok, Ok, Ok, Ok];
            var w := World(map[service := before], Absent, []);
            var w1 := Happen(w, Start(Service(service), port, [Ok] + oks + [Crash(Nothing)]));
            var w2 := Happen(w1, Start(Service(service), port, [Fail(Nothing)] + oks + [Crash(Nothing)]));
            var (w3, st) := Recover(w2);
            && st.Done? && w3.file.Absent? && service in w3.services
            && forall k: Kind :: Effective(w3.services[service].Get(k)) == Some((LOOPBACK, port))
  {
    var oks := [Ok, Ok, Ok, Ok, Ok, Ok, Ok];
    var w := World(map[service := before], Absent, []);
    var ours := Setting(true, LOOPBACK, port);
    var tape1 := [Ok] + oks + [Crash(Nothing)];
    KilledSession(w.With(tape1), service, port);
    var w1 := Happen(w, Start(Service(service), port, tape1));
    assert w1.services == map[service := Proxies(ours, ours)];
    var tape2 := [Fail(Nothing)] + oks + [Crash(Nothing)];
    KilledSession(w1.With(tape2), service, port);
    var w2 := Happen(w1, Start(Service(service), port, tape2));
    var cfg := Config(service, Proxies(ours, ours));
    assert w2.file == Saved(cfg) && w2.tape == [];
    StrandedByOwnSnapshot(w2, cfg, ours);
  }

  lemma StrandedByOwnSnapshot(w: World, cfg: Config, ours: Setting)
    requires w.file == Saved(cfg) && w.tape == [] && cfg.service in w.services
    requires cfg.proxies == Proxies(ours, ours) && ours.host != "" && ours.enabled
    ensures var (w', st) := Recover(w);
            && st.Done? && w'.file.Absent? && cfg.service in w'.services
            && forall k: Kind :: Effective(w'.services[cfg.service].Get(k)) == Some((ours.host, ours.port))
  {
    UnhinderedRunsThrough(w, RestoreCommands(cfg), cfg.service);
    RestoreIsAbsorbing(w, cfg);
    var (w1, st1) := RestoreConfig(w, cfg);
    assert LoadSnapshot(w) == (w, Found(cfg));
    assert forall k: Kind :: cfg.proxies.Get(k) == ours;
    assert forall k: Kind :: w1.services[cfg.service].Get(k) == ours;
  }

  // ---- the restore closure ------------------------------------------------------------------------

  /** One call of the closure: the flag is tested and set under the mutex, so callers are ordered. */
  function CallRestore(w: World, restored: bool, cfg: Config): (World, bool, Status) {
    if restored then (w, true, Done)
    else var (w', st) := RestoreAndClear(w, cfg); (w', true, st)
  }

  function CallRestoreTimes(w: World, restored: bool, cfg: Config, n: nat): (World, bool)
    decreases n
  {
    if n == 0 then (w, restored)
    else var (w', r, _) := CallRestore(w, restored, cfg); CallRestoreTimes(w', r, cfg, n - 1)
  }

  /** Any number of callers have together the effect of one. */
  lemma {:induction false} RestoreRunsOnce(w: World, cfg: Config, n: nat)
    requires n > 0
    ensures CallRestoreTimes(w, false, cfg, n) == (RestoreAndClear(w, cfg).0, true)
  {
    LaterCallersDoNothing(RestoreAndClear(w, cfg).0, cfg, n - 1);
  }

  lemma {:induction false} LaterCallersDoNothing(w: World, cfg: Config, n: nat)
    ensures CallRestoreTimes(w, true, cfg, n) == (w, true)
  {
    if n > 0 {
      LaterCallersDoNothing(w, cfg, n - 1);
    }
  }
}
