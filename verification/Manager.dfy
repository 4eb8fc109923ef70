/** internal/sysproxy's Manager as an object: each method performs the external steps one by one
    and is proved to do what the functions of SysProxy say. */
module ManagerClass {
  import opened Wrappers
  import opened SysProxy
  import N = Networksetup
  import R = Reports
  import Takeover

  /** The outside world, as it stands and as it is going to answer. */
  class Machine {
    var services: map<string, Proxies>
    var file: File
    var tape: seq<Outcome>

    constructor (w: World)
      ensures State() == w
    {
      services, file, tape := w.services, w.file, w.tape;
    }

    ghost function State(): World
      reads this
    {
      World(services, file, tape)
    }

    method TakeOutcome() returns (o: Outcome)
      modifies this`tape
      ensures o == old(State()).Next() && State() == old(State()).Advance()
    {
      if |tape| == 0 {
        return Ok;
      }
      o := tape[0];
      tape := tape[1..];
    }

    /** The Runner. */
    method Run(c: Command) returns (st: Status)
      modifies this`tape, this`services
      ensures (State(), st) == RunCommand(old(State()), c)
    {
      var o := TakeOutcome();
      if c.service !in services {
        return if o.Crash? then Crashed else Errored;
      }
      var p := services[c.service];
      services := services[c.service := p.Put(c.kind, Affect(p.Get(c.kind), c, o.Effect()))];
      st := o.Status();
    }

    method ReadOnly() returns (st: Status)
      modifies this`tape
      ensures (State(), st) == Reads(old(State()), 1)
    {
      var o := TakeOutcome();
      st := o.Status();
    }

    /** `-get<kind>`: the report as text. */
    method GetProxy(service: string, kind: Kind) returns (st: Status, out: string)
      modifies this`tape
      ensures State() == Reads(old(State()), 1).0
      ensures var read := Reads(old(State()), 1).1;
              st == if service !in services && read.Done? then Errored else read
      ensures st.Done? ==> service in services && out == N.Report(services[service].Get(kind))
    {
      out := "";
      st := ReadOnly();
      if service !in services {
        st := if st.Done? then Errored else st;
      } else {
        out := N.Report(services[service].Get(kind));
      }
    }

    method WriteFile(cfg: Config) returns (st: Status)
      modifies this`tape, this`file
      ensures (State(), st) == SysProxy.Persist(old(State()), cfg)
    {
      var o := TakeOutcome();
      match o.Effect() {
        case Nothing =>
        case Partly => file := Torn;
        case Fully => file := Saved(cfg);
      }
      st := o.Status();
    }

    method RemoveFile() returns (st: Status)
      modifies this`tape, this`file
      ensures (State(), st) == SysProxy.ClearSnapshot(old(State()))
    {
      var o := TakeOutcome();
      if file.Absent? {
        return if o.Crash? then Crashed else Done;
      }
      if o.Effect().Fully? {
        file := Absent;
      }
      st := o.Status();
    }

    method ReadFile() returns (l: Loaded)
      modifies this`tape
      ensures (State(), l) == SysProxy.LoadSnapshot(old(State()))
    {
      var o := TakeOutcome();
      match o.Status() {
        case Crashed => l := Interrupted;
        case Errored => l := Unreadable;
        case Done =>
          match file {
            case Absent => l := NoSnapshot;
            case Torn => l := Unreadable;
            case Saved(cfg) => l := Found(cfg);
          }
      }
    }
  }

  lemma ApplyAfterCapture(w: World, primary: Primary, port: int, w': World, c: Captured)
    requires Capture(w, primary) == (w', c)
    ensures Apply(w, primary, port) ==
            match c case NotRead(applied) => (w', applied) case Read(cfg) => TakeOver(w', cfg, port)
    ensures c.NotRead? ==> !c.applied.TookOver?
  {
  }

  class Manager {
    const machine: Machine
    var service: string
    var restored: bool

    constructor (m: Machine)
      ensures machine == m && service == "" && !restored
    {
      machine := m;
      service := "";
      restored := false;
    }

    method RestoreSetting(service: string, kind: Kind, s: Setting) returns (st: Status)
      modifies machine
      ensures (machine.State(), st) == RunAll(old(machine.State()), SettingCommands(service, kind, s))
    {
      ghost var before := machine.State();
      ghost var cs := SettingCommands(service, kind, s);
      ghost var last := SetState(service, kind, s.enabled);
      if s.host != "" {
        ghost var first := SetProxy(service, kind, s.host, s.port);
        assert cs == [first] + [last];
        Takeover.RunAllAppend(before, [first], [last]);
        Takeover.RunOne(before, first);
        st := machine.Run(SetProxy(service, kind, s.host, s.port));
        if !st.Done? {
          return;
        }
      } else {
        assert cs == [last];
      }
      Takeover.RunOne(machine.State(), last);
      st := machine.Run(SetState(service, kind, s.enabled));
    }

    method RestoreConfig(cfg: Config) returns (st: Status)
      modifies machine
      ensures (machine.State(), st) == SysProxy.RestoreConfig(old(machine.State()), cfg)
    {
      Takeover.RunAllAppend(machine.State(), SettingCommands(cfg.service, Secure, cfg.proxies.secure),
                            SettingCommands(cfg.service, Web, cfg.proxies.web));
      st := RestoreSetting(cfg.service, Secure, cfg.proxies.secure);
      if st.Done? {
        st := RestoreSetting(cfg.service, Web, cfg.proxies.web);
      }
    }

    method PointAtProxysim(service: string, port: int) returns (st: Status)
      modifies machine
      ensures (machine.State(), st) == RunAll(old(machine.State()), TakeoverCommands(service, port))
    {
      ghost var cs := TakeoverCommands(service, port);
      assert cs == [cs[0]] + [cs[1]];
      Takeover.RunAllAppend(machine.State(), [cs[0]], [cs[1]]);
      Takeover.RunOne(machine.State(), cs[0]);
      st := machine.Run(SetProxy(service, Secure, LOOPBACK, port));
      if st.Done? {
        Takeover.RunOne(machine.State(), cs[1]);
        st := machine.Run(SetProxy(service, Web, LOOPBACK, port));
      }
    }

    method Recover() returns (st: Status)
      modifies machine
      ensures (machine.State(), st) == SysProxy.Recover(old(machine.State()))
    {
      var l := machine.ReadFile();
      match l {
        case NoSnapshot => st := Done;
        case Unreadable => st := Errored;
        case Interrupted => st := Crashed;
        case Found(cfg) =>
          st := RestoreConfig(cfg);
          if st.Done? {
            st := machine.RemoveFile();
          }
      }
    }

    method GetSetting(service: string, kind: Kind) returns (st: Status, s: Setting)
      requires R.PrintableServices(machine.services)
      modifies machine`tape
      ensures machine.State() == Reads(old(machine.State()), 1).0
      ensures var read := Reads(old(machine.State()), 1).1;
              st == if service !in machine.services && read.Done? then Errored else read
      ensures st.Done? ==> service in machine.services && s == machine.services[service].Get(kind)
    {
      var out: string;
      st, out := machine.GetProxy(service, kind);
      s := N.ParseProxySetting(out);
      if st.Done? {
        assert R.PrintableProxies(machine.services[service]);
        N.PrintableIsReadBack(machine.services[service].Get(kind));
      }
    }

    /** primaryService: what it makes of the answers of `route` and `-listnetworkserviceorder`. */
    method PrimaryService(route: string, order: string) returns (st: Status, service: Option<string>)
      modifies machine`tape
      ensures var (w1, st1) := Reads(old(machine.State()), 1);
              (machine.State(), st) ==
              if !st1.Done? || N.PrimaryOf(route, order).NoRoute? then (w1, st1) else Reads(w1, 1)
      ensures st.Done? ==> service == match N.PrimaryOf(route, order) case Service(name) => Some(name) case _ => None
    {
      service := None;
      st := machine.ReadOnly();
      if !st.Done? {
        return;
      }
      var iface := N.ParseDefaultInterface(route);
      if iface.None? {
        return;
      }
      st := machine.ReadOnly();
      if !st.Done? {
        return;
      }
      service := N.ServiceForInterface(order, iface.value);
    }

    method Snapshot(route: string, order: string) returns (c: Captured)
      requires R.PrintableServices(machine.services)
      modifies machine`tape
      ensures (machine.State(), c) == Capture(old(machine.State()), N.PrimaryOf(route, order))
    {
      var st, service := PrimaryService(route, order);
      if !st.Done? || service.None? {
        return NotRead(Declines(st));
      }
      ghost var w2 := machine.State();
      assert Reads(w2, 2) ==
             if w2.Next().Status().Done? then Reads(w2.Advance(), 1) else (w2.Advance(), w2.Next().Status());
      assert Reads(w2, 1) == (w2.Advance(), w2.Next().Status());
      var web: Setting, secure: Setting;
      st, web := GetSetting(service.value, Web);
      if !st.Done? {
        return NotRead(Declines(st));
      }
      st, secure := GetSetting(service.value, Secure);
      if !st.Done? {
        return NotRead(Declines(st));
      }
      assert Proxies(web, secure) == machine.services[service.value];
      c := Read(Config(service.value, Proxies(web, secure)));
    }

    /** Apply from the point where the snapshot has been taken. */
    method TakeOver(cfg: Config, port: int) returns (a: Applied)
      modifies machine, this`service
      ensures (machine.State(), a) == SysProxy.TakeOver(old(machine.State()), cfg, port)
      ensures service == if a.TookOver? then cfg.service else old(service)
    {
      var st := machine.WriteFile(cfg);
      if !st.Done? {
        return Declines(st);
      }
      st := PointAtProxysim(cfg.service, port);
      match st {
        case Done =>
          service := cfg.service;
          a := TookOver(cfg);
        case Crashed =>
          a := Died;
        case Errored =>
          st := RollBack(cfg);
          a := Declines(st);
      }
    }

    method RollBack(cfg: Config) returns (st: Status)
      modifies machine
      ensures (machine.State(), st) == Rollback(old(machine.State()), cfg)
    {
      st := RestoreConfig(cfg);
      if !st.Crashed? {
        st := machine.RemoveFile();
      }
    }

    method Apply(route: string, order: string, port: int) returns (a: Applied)
      requires R.PrintableServices(machine.services)
      modifies machine, this`service
      ensures (machine.State(), a) == SysProxy.Apply(old(machine.State()), N.PrimaryOf(route, order), port)
      ensures service == if a.TookOver? then a.cfg.service else old(service)
    {
      ghost var before := machine.State();
      var c := Snapshot(route, order);
      ApplyAfterCapture(before, N.PrimaryOf(route, order), port, machine.State(), c);
      if c.NotRead? {
        return c.applied;
      }
      a := TakeOver(c.cfg, port);
    }

    /** The closure that makeRestore returns. */
    method Restore(cfg: Config) returns (st: Status)
      modifies machine, this`restored
      ensures (machine.State(), restored, st) == Takeover.CallRestore(old(machine.State()), old(restored), cfg)
    {
      if restored {
        return Done;
      }
      restored := true;
      st := RestoreConfig(cfg);
      if st.Done? {
        st := machine.RemoveFile();
      }
    }
  }

  /** setupSystemProxy and the deferred restore of main's run, for one process: what it reads, it reads as text. */
  method RunProcess(machine: Machine, route: string, order: string, port: int)
    requires R.PrintableWorld(machine.State()) && N.MIN_INT <= port <= N.MAX_INT
    modifies machine
    ensures machine.State() == Session(old(machine.State()), N.PrimaryOf(route, order), port)
    ensures R.PrintableWorld(machine.State())
  {
    R.SessionKeepsPrintable(machine.State(), N.PrimaryOf(route, order), port);
    R.RecoverKeepsPrintable(machine.State());
    var mgr := new Manager(machine);
    var st := mgr.Recover();
    if st.Crashed? {
      return;
    }
    var a := mgr.Apply(route, order, port);
    if !a.TookOver? {
      return;
    }
    var o := machine.TakeOutcome();
    if o.Crash? {
      return;
    }
    st := mgr.Restore(a.cfg);
  }
}
