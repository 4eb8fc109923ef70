/** The takeover protocol of internal/sysproxy, as functions on the durable state.

    Everything outside the process that survives it is a `World`: the proxy settings of
    every network service, the snapshot file, and a tape that says how each external step
    (a command, a file operation) is going to end.  An exhausted tape answers `Ok`.  Any step
    may crash the process, so "after any tape" means "at any point of the code". */
module SysProxy {
  import opened Wrappers

  datatype Kind = Web | Secure

  datatype Setting = Setting(enabled: bool, host: string, port: int)

  /** Both proxies of one network service. */
  datatype Proxies = Proxies(web: Setting, secure: Setting) {
    function Get(k: Kind): Setting {
      if k.Web? then web else secure
    }

    function Put(k: Kind, s: Setting): Proxies {
      if k.Web? then this.(web := s) else this.(secure := s)
    }
  }

  datatype Config = Config(service: string, proxies: Proxies)

  datatype Command =
    | SetProxy(service: string, kind: Kind, host: string, port: int)
    | SetState(service: string, kind: Kind, on: bool)

  /** How much of a step happened. */
  datatype Effect = Nothing | Partly | Fully

  datatype Outcome = Ok | Fail(effect: Effect) | Crash(effect: Effect) {
    function Status(): Status {
      match this
      case Ok => Done
      case Fail(_) => Errored
      case Crash(_) => Crashed
    }

    function Effect(): Effect {
      if Ok? then Fully else effect
    }
  }

  /** How a piece of code ended: normally, with an error result, or with the process gone. */
  datatype Status = Done | Errored | Crashed

  datatype File = Absent | Torn | Saved(cfg: Config)

  datatype World = World(services: map<string, Proxies>, file: File, tape: seq<Outcome>) {
    function Next(): Outcome {
      if tape == [] then Ok else tape[0]
    }

    function Advance(): World {
      if tape == [] then this else this.(tape := tape[1..])
    }

    function With(t: seq<Outcome>): World {
      this.(tape := t)
    }
  }

  const LOOPBACK := "127.0.0.1"

  // ---- commands ---------------------------------------------------------------------------

  /** `-set<kind>` stores host and port and enables; `-set<kind>state` sets the flag alone. */
  function Affect(s: Setting, c: Command, e: Effect): Setting {
    match (c, e)
    case (_, Nothing) => s
    case (SetProxy(_, _, host, port), Fully) => Setting(true, host, port)
    case (SetProxy(_, _, host, port), Partly) => s.(host := host, port := port)
    case (SetState(_, _, on), Fully) => s.(enabled := on)
    case (SetState(_, _, _), Partly) => s
  }

  /** One networksetup invocation.  A service that does not exist is an error. */
  function RunCommand(w: World, c: Command): (World, Status) {
    var o := w.Next();
    var w' := w.Advance();
    if c.service !in w.services then
      (w', if o.Crash? then Crashed else Errored)
    else
      var p := w.services[c.service];
      (w'.(services := w.services[c.service := p.Put(c.kind, Affect(p.Get(c.kind), c, o.Effect()))]), o.Status())
  }

  /** Runs commands until one of them does not succeed. */
  function RunAll(w: World, cs: seq<Command>): (World, Status)
    decreases |cs|
  {
    if cs == [] then (w, Done)
    else
      var (w', st) := RunCommand(w, cs[0]);
      if st.Done? then RunAll(w', cs[1..]) else (w', st)
  }

  function TakeoverCommands(service: string, port: int): seq<Command> {
    [SetProxy(service, Secure, LOOPBACK, port), SetProxy(service, Web, LOOPBACK, port)]
  }

  function SettingCommands(service: string, kind: Kind, s: Setting): seq<Command> {
    (if s.host != "" then [SetProxy(service, kind, s.host, s.port)] else []) + [SetState(service, kind, s.enabled)]
  }

  function RestoreCommands(cfg: Config): seq<Command> {
    SettingCommands(cfg.service, Secure, cfg.proxies.secure) + SettingCommands(cfg.service, Web, cfg.proxies.web)
  }

  // ---- the snapshot file ------------------------------------------------------------------

  /** os.WriteFile truncates before it writes, so a failed or interrupted write may tear the file. */
  function Persist(w: World, cfg: Config): (World, Status) {
    var o := w.Next();
    var file := match o.Effect() case Nothing => w.file case Partly => Torn case Fully => Saved(cfg);
    (w.Advance().(file := file), o.Status())
  }

  /** os.Remove; a missing file is not an error. */
  function ClearSnapshot(w: World): (World, Status) {
    var o := w.Next();
    if w.file.Absent? then (w.Advance(), if o.Crash? then Crashed else Done)
    else (w.Advance().(file := if o.Effect().Fully? then Absent else w.file), o.Status())
  }

  datatype Loaded = NoSnapshot | Found(cfg: Config) | Unreadable | Interrupted

  /** A torn file does not parse: a proper prefix of the JSON object lacks its closing brace. */
  function LoadSnapshot(w: World): (World, Loaded) {
    (w.Advance(),
     match w.Next().Status()
     case Crashed => Interrupted
     case Errored => Unreadable
     case Done =>
       match w.file
       case Absent => NoSnapshot
       case Torn => Unreadable
       case Saved(cfg) => Found(cfg))
  }

  /** `n` commands that only read: `route`, `-listnetworkserviceorder`, the two `-get…`. */
  function Reads(w: World, n: nat): (World, Status)
    decreases n
  {
    if n == 0 then (w, Done)
    else if w.Next().Status().Done? then Reads(w.Advance(), n - 1)
    else (w.Advance(), w.Next().Status())
  }

  // ---- Manager and main -------------------------------------------------------------------

  function RestoreConfig(w: World, cfg: Config): (World, Status) {
    RunAll(w, RestoreCommands(cfg))
  }

  function RestoreAndClear(w: World, cfg: Config): (World, Status) {
    var (w', st) := RestoreConfig(w, cfg);
    if st.Done? then ClearSnapshot(w') else (w', st)
  }

  function Recover(w: World): (World, Status) {
    var (w', l) := LoadSnapshot(w);
    match l
    case NoSnapshot => (w', Done)
    case Unreadable => (w', Errored)
    case Interrupted => (w', Crashed)
    case Found(cfg) => RestoreAndClear(w', cfg)
  }

  /** The failure branch of Apply: undo, and drop the snapshot even if the undo failed. */
  function Rollback(w: World, cfg: Config): (World, Status) {
    var (w', st) := RestoreConfig(w, cfg);
    if st.Crashed? then (w', Crashed) else ClearSnapshot(w')
  }

  datatype Applied = TookOver(cfg: Config) | Declined | Died

  function Declines(st: Status): Applied {
    if st.Crashed? then Died else Declined
  }

  datatype Captured = Read(cfg: Config) | NotRead(applied: Applied)

  /** What `route` and the service order have to say. */
  datatype Primary = NoRoute | NoService | Service(name: string)

  /** primaryService and snapshot: two commands find the service, two more read its settings.  Reading the first of
      them is refused for a service that does not exist. */
  function Capture(w: World, primary: Primary): (World, Captured) {
    var (w1, st1) := Reads(w, 1);
    if !st1.Done? then (w1, NotRead(Declines(st1)))
    else if primary.NoRoute? then (w1, NotRead(Declined))
    else
      var (w2, st2) := Reads(w1, 1);
      if !st2.Done? then (w2, NotRead(Declines(st2)))
      else if primary.NoService? then (w2, NotRead(Declined))
      else if primary.name !in w2.services then
        var (w3, st3) := Reads(w2, 1);
        (w3, NotRead(Declines(st3)))
      else
        var (w3, st3) := Reads(w2, 2);
        if !st3.Done? then (w3, NotRead(Declines(st3)))
        else (w3, Read(Config(primary.name, w3.services[primary.name])))
  }

  function Apply(w: World, primary: Primary, port: int): (World, Applied) {
    var (w', c) := Capture(w, primary);
    match c
    case NotRead(a) => (w', a)
    case Read(cfg) => TakeOver(w', cfg, port)
  }

  /** Apply from the point where the snapshot has been taken. */
  function TakeOver(w: World, cfg: Config, port: int): (World, Applied) {
    var (w1, st1) := Persist(w, cfg);
    if !st1.Done? then (w1, Declines(st1))
    else
      var (w2, st2) := RunAll(w1, TakeoverCommands(cfg.service, port));
      match st2
      case Done => (w2, TookOver(cfg))
      case Crashed => (w2, Died)
      case Errored => var (w3, st3) := Rollback(w2, cfg); (w3, Declines(st3))
  }

  /** A process from Apply on: it serves, and restores on the way out.  The outcome at the serving step says whether
      it is killed. */
  function Proceed(w: World, primary: Primary, port: int): World {
    var (w1, a) := Apply(w, primary, port);
    if !a.TookOver? then w1
    else if w1.Next().Crash? then w1.Advance()
    else RestoreAndClear(w1.Advance(), a.cfg).0
  }

  /** One process with -system-proxy: main goes on to Apply whether or not Recover failed. */
  function Session(w: World, primary: Primary, port: int): World {
    var (w1, st1) := Recover(w);
    if st1.Crashed? then w1 else Proceed(w1, primary, port)
  }

  // ---- what the user is promised ----------------------------------------------------------

  /** `now` is what a user who had `was` wants back: all three fields when a host was stored,
      and otherwise the same switch position. */
  predicate FaithfulSetting(was: Setting, now: Setting) {
    if was.host != "" then now == was else now.enabled == was.enabled
  }

  predicate Faithful(was: Proxies, now: Proxies) {
    FaithfulSetting(was.web, now.web) && FaithfulSetting(was.secure, now.secure)
  }

  /** Where traffic goes: nowhere special, or to an address. */
  function Effective(s: Setting): Option<(string, int)> {
    if s.enabled then Some((s.host, s.port)) else None
  }

  /** The promise: the same services as the user left, a snapshot that tells the truth about the
      service it names, and every other service as the user left it. */
  ghost predicate Promise(w: World, user: map<string, Proxies>) {
    && w.services.Keys == user.Keys
    && (w.file.Saved? ==> w.file.cfg.service in user && Faithful(user[w.file.cfg.service], w.file.cfg.proxies))
    && forall s <- user :: Faithful(user[s], w.services[s]) || Names(w.file, s)
  }

  predicate Names(f: File, s: string) {
    f.Saved? && f.cfg.service == s
  }

  /** Nothing would be lost by overwriting the snapshot. */
  predicate Disposable(w: World) {
    w.file.Saved? && w.file.cfg.service in w.services ==> Faithful(w.file.cfg.proxies, w.services[w.file.cfg.service])
  }

  /** This Apply gets as far as to write its snapshot, and the write does something to the file. */
  predicate Overwrites(w: World, primary: Primary) {
    var (w', c) := Capture(w, primary);
    c.Read? && !w'.Next().Effect().Nothing?
  }

  /** Undoing a takeover reports no error, or leaves the settings as captured (a command that is refused outright
      changes nothing), or the snapshot is not removed after all. */
  predicate UndoHolds(w: World, cfg: Config) {
    var (w', st) := RestoreConfig(w, cfg);
    st.Errored? && w'.Next().Effect().Fully? ==>
      cfg.service in w'.services && Faithful(cfg.proxies, w'.services[cfg.service])
  }

  /** Apply's rollback, if it comes to one, holds. */
  predicate RollbackHolds(w: World, primary: Primary, port: int) {
    var (w1, c) := Capture(w, primary);
    c.Read? ==>
      var (w2, st2) := Persist(w1, c.cfg);
      st2.Done? ==>
        var (w3, st3) := RunAll(w2, TakeoverCommands(c.cfg.service, port));
        st3.Errored? ==> UndoHolds(w3, c.cfg)
  }

  /** What one session needs of its environment. */
  predicate Benign(w: World, primary: Primary, port: int) {
    var (w1, st1) := Recover(w);
    !st1.Crashed? ==>
      (st1.Errored? && Overwrites(w1, primary) ==> Disposable(w1)) && RollbackHolds(w1, primary, port)
  }
}
