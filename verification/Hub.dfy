/** internal/ui/hub.go as a state machine: emitters, browsers connecting and leaving, and the
    handlers that read their queues, interleaved step by step. */
module HubMachine {
  import opened Wrappers

  const CLIENT_BUFFER := 256

  datatype Flow = Flow(id: nat, meta: string, body: string)

  /** What handleEvents writes: a flow (named by its position in the emission log) or the number
      of flows shed so far. */
  datatype Frame = Data(k: nat) | Shed(n: nat)

  /** One finished non-blocking send: which emission, and whether the channel took it. */
  datatype Attempt = Attempt(k: nat, taken: bool)

  /** A browser.  `queue`, `held` (received from the channel and not yet written), `dropped` and
      `reported` (handleEvents's lastDropped) are the source's; the rest is history. */
  datatype Client = Client(
    queue: seq<nat>, held: Option<nat>, dropped: nat, reported: nat,
    connected: bool, since: nat, until: nat,
    attempts: seq<Attempt>, frames: seq<Frame>)

  /** An Emit between its locked section and its last send. */
  datatype Emitter = Emitter(k: nat, targets: seq<nat>)

  datatype Hub = Hub(
    capacity: nat, ring: seq<Flow>, clients: map<nat, Client>, emitters: map<nat, Emitter>, log: seq<Flow>)

  datatype Label =
    | Begin(e: nat, f: Flow, targets: seq<nat>)
    | Send(e: nat)
    | Finish(e: nat)
    | Connect(c: nat)
    | Disconnect(c: nat)
    | Receive(c: nat)
    | Write(c: nat)

  function New(history: int): Hub {
    Hub(if history < 1 then 1 else history, [], map[], map[], [])
  }

  // ---- the source's pieces -----------------------------------------------------------------

  /** The locked append of Emit, with eviction from the front. */
  function Push(ring: seq<Flow>, capacity: nat, f: Flow): seq<Flow> {
    var r := ring + [f];
    if |r| > capacity then r[|r| - capacity..] else r
  }

  /** The select with a default branch. */
  function Offer(c: Client, k: nat): Client {
    if |c.queue| < CLIENT_BUFFER then c.(queue := c.queue + [k], attempts := c.attempts + [Attempt(k, true)])
    else c.(dropped := c.dropped + 1, attempts := c.attempts + [Attempt(k, false)])
  }

  /** The receive of the handleEvents loop. */
  function TakeOne(c: Client): Client
    requires c.queue != []
  {
    c.(queue := c.queue[1..], held := Some(c.queue[0]))
  }

  /** The notice that goes out if more were shed since the last one. */
  function Noticed(dropped: nat, reported: nat): seq<Frame> {
    if dropped != reported then [Shed(dropped)] else []
  }

  /** The rest of the loop's turn: more may have been shed since the receive. */
  function WriteOne(c: Client): Client
    requires c.held.Some?
  {
    c.(held := None, reported := c.dropped,
       frames := c.frames + Noticed(c.dropped, c.reported) + [Data(c.held.value)])
  }

  function InHand(c: Client): seq<nat> {
    if c.held.Some? then [c.held.value] else []
  }

  // ---- steps --------------------------------------------------------------------------------

  predicate NoDuplicates<T(==)>(s: seq<T>) {
    forall i, j | 0 <= i < j < |s| :: s[i] != s[j]
  }

  predicate Enabled(h: Hub, l: Label) {
    match l
    case Begin(e, _, targets) =>
      e !in h.emitters && NoDuplicates(targets) &&
      (forall c <- targets :: c in h.clients && h.clients[c].connected) &&
      (forall c <- h.clients :: h.clients[c].connected ==> c in targets)
    case Send(e) => e in h.emitters && h.emitters[e].targets != [] && h.emitters[e].targets[0] in h.clients
    case Finish(e) => e in h.emitters && h.emitters[e].targets == []
    case Connect(c) => c !in h.clients
    case Disconnect(c) => c in h.clients && h.clients[c].connected
    case Receive(c) => c in h.clients && h.clients[c].connected && h.clients[c].held.None? && h.clients[c].queue != []
    case Write(c) => c in h.clients && h.clients[c].connected && h.clients[c].held.Some?
  }

  function Step(h: Hub, l: Label): Hub
    requires Enabled(h, l)
  {
    match l
    case Begin(e, f, targets) =>
      h.(ring := Push(h.ring, h.capacity, f), log := h.log + [f],
         emitters := h.emitters[e := Emitter(|h.log|, targets)])
    case Send(e) =>
      var m := h.emitters[e];
      var c := m.targets[0];
      h.(clients := h.clients[c := Offer(h.clients[c], m.k)],
         emitters := h.emitters[e := m.(targets := m.targets[1..])])
    case Finish(e) => h.(emitters := h.emitters - {e})
    case Connect(c) => h.(clients := h.clients[c := Client([], None, 0, 0, true, |h.log|, 0, [], [])])
    case Disconnect(c) => h.(clients := h.clients[c := h.clients[c].(connected := false, until := |h.log|)])
    case Receive(c) => h.(clients := h.clients[c := TakeOne(h.clients[c])])
    case Write(c) => h.(clients := h.clients[c := WriteOne(h.clients[c])])
  }

  ghost predicate IsRun(h: Hub, run: seq<Label>)
    decreases |run|
  {
    run != [] ==> Enabled(h, run[0]) && IsRun(Step(h, run[0]), run[1..])
  }

  function After(h: Hub, run: seq<Label>): Hub
    requires IsRun(h, run)
    decreases |run|
  {
    if run == [] then h else After(Step(h, run[0]), run[1..])
  }

  // ---- views of the history -------------------------------------------------------------------

  function Taken(attempts: seq<Attempt>): seq<nat> {
    if attempts == [] then []
    else
      var last := attempts[|attempts| - 1];
      Taken(attempts[..|attempts| - 1]) + (if last.taken then [last.k] else [])
  }

  function Refused(attempts: seq<Attempt>): nat {
    if attempts == [] then 0
    else Refused(attempts[..|attempts| - 1]) + (if attempts[|attempts| - 1].taken then 0 else 1)
  }

  function Received(frames: seq<Frame>): seq<nat> {
    if frames == [] then []
    else
      var last := frames[|frames| - 1];
      Received(frames[..|frames| - 1]) + (if last.Data? then [last.k] else [])
  }

  /** The numbers the tab has been told. */
  function Notices(frames: seq<Frame>): seq<nat> {
    if frames == [] then []
    else
      var last := frames[|frames| - 1];
      Notices(frames[..|frames| - 1]) + (if last.Shed? then [last.n] else [])
  }

  predicate Increasing(s: seq<nat>) {
    forall i, j | 0 <= i < j < |s| :: s[i] < s[j]
  }

  function Positions(attempts: seq<Attempt>): (r: seq<nat>)
    ensures |r| == |attempts| && forall i | 0 <= i < |r| :: r[i] == attempts[i].k
  {
    if attempts == [] then []
    else Positions(attempts[..|attempts| - 1]) + [attempts[|attempts| - 1].k]
  }

  /** What a browser has been given or will find in its queue. */
  function Seen(c: Client): seq<nat> {
    Received(c.frames) + InHand(c) + c.queue
  }

  // ---- what every run keeps ---------------------------------------------------------------------

  /** The channel is a bounded FIFO, and the tab is told the truth about what was shed. */
  ghost predicate ClientOk(c: Client) {
    && |c.queue| <= CLIENT_BUFFER
    && Taken(c.attempts) == Seen(c)
    && Refused(c.attempts) == c.dropped
    && c.reported <= c.dropped
    && Honest(Notices(c.frames), c.reported)
  }

  /** The notices grow, and the last of them is the number reported. */
  ghost predicate Honest(notices: seq<nat>, reported: nat) {
    Increasing(notices) && (if notices == [] then reported == 0 else reported == notices[|notices| - 1])
  }

  lemma HonestSnoc(notices: seq<nat>, reported: nat, dropped: nat)
    requires Honest(notices, reported) && reported < dropped
    ensures Honest(notices + [dropped], dropped)
  {
    forall i | 0 <= i < |notices| ensures notices[i] < dropped {
      assert i < |notices| - 1 ==> notices[i] < notices[|notices| - 1];
    }
  }

  /** The log positions emitted while the client was connected. */
  predicate Owed(h: Hub, c: Client, k: nat) {
    c.since <= k < (if c.connected then |h.log| else c.until)
  }

  predicate Pending(h: Hub, c: nat, k: nat) {
    exists e <- h.emitters :: h.emitters[e].k == k && c in h.emitters[e].targets
  }

  ghost predicate SendsOk(h: Hub, c: nat)
    requires c in h.clients
  {
    var done := Positions(h.clients[c].attempts);
    && NoDuplicates(done)
    && h.clients[c].since <= |h.log| && h.clients[c].until <= |h.log|
    && (forall k: nat :: Owed(h, h.clients[c], k) <==> (k in done || Pending(h, c, k)))
    && (forall k: nat :: !(k in done && Pending(h, c, k)))
  }

  ghost predicate EmittersOk(h: Hub) {
    && (forall e <- h.emitters :: h.emitters[e].k < |h.log| && NoDuplicates(h.emitters[e].targets))
    && (forall e <- h.emitters, c | c in h.emitters[e].targets :: c in h.clients)
    && (forall e <- h.emitters, e' <- h.emitters :: h.emitters[e].k == h.emitters[e'].k ==> e == e')
  }

  function LastOf(log: seq<Flow>, n: nat): seq<Flow> {
    if |log| <= n then log else log[|log| - n..]
  }

  ghost predicate Inv(h: Hub) {
    && h.capacity > 0
    && h.ring == LastOf(h.log, h.capacity)
    && EmittersOk(h)
    && forall c <- h.clients :: ClientOk(h.clients[c]) && SendsOk(h, c)
  }

  lemma AttemptsSnoc(attempts: seq<Attempt>, a: Attempt)
    ensures Taken(attempts + [a]) == Taken(attempts) + (if a.taken then [a.k] else [])
    ensures Refused(attempts + [a]) == Refused(attempts) + (if a.taken then 0 else 1)
    ensures Positions(attempts + [a]) == Positions(attempts) + [a.k]
  {
    assert (attempts + [a])[..|attempts|] == attempts;
  }

  lemma FramesSnoc(frames: seq<Frame>, f: Frame)
    ensures Received(frames + [f]) == Received(frames) + (if f.Data? then [f.k] else [])
    ensures Notices(frames + [f]) == Notices(frames) + (if f.Shed? then [f.n] else [])
  {
    assert (frames + [f])[..|frames|] == frames;
  }

  lemma OfferKeepsClient(c: Client, k: nat)
    requires ClientOk(c)
    ensures ClientOk(Offer(c, k)) && Positions(Offer(c, k).attempts) == Positions(c.attempts) + [k]
  {
    var taken := |c.queue| < CLIENT_BUFFER;
    AttemptsSnoc(c.attempts, Attempt(k, taken));
    if taken {
      assert Received(c.frames) + InHand(c) + (c.queue + [k]) == Received(c.frames) + InHand(c) + c.queue + [k];
    }
  }

  lemma TakeKeepsClient(c: Client)
    requires ClientOk(c) && c.held.None? && c.queue != []
    ensures ClientOk(TakeOne(c))
  {
    assert [c.queue[0]] + c.queue[1..] == c.queue;
    assert Received(c.frames) + InHand(c) + c.queue == Received(c.frames) + InHand(TakeOne(c)) + c.queue[1..];
  }

  lemma FramesAfterWrite(frames: seq<Frame>, dropped: nat, reported: nat, k: nat)
    ensures var now := frames + Noticed(dropped, reported) + [Data(k)];
            && Received(now) == Received(frames) + [k]
            && Notices(now) == Notices(frames) + (if dropped != reported then [dropped] else [])
  {
    if dropped != reported {
      FramesSnoc(frames, Shed(dropped));
    } else {
      assert frames + [] == frames;
    }
    FramesSnoc(frames + Noticed(dropped, reported), Data(k));
  }

  lemma WriteKeepsClient(c: Client)
    requires ClientOk(c) && c.held.Some?
    ensures ClientOk(WriteOne(c))
    ensures Received(WriteOne(c).frames) == Received(c.frames) + [c.held.value]
  {
    FramesAfterWrite(c.frames, c.dropped, c.reported, c.held.value);
    assert Seen(WriteOne(c)) == Seen(c);
    if c.dropped != c.reported {
      HonestSnoc(Notices(c.frames), c.reported, c.dropped);
    } else {
      assert Notices(c.frames) + [] == Notices(c.frames);
    }
  }

  lemma PushIsLast(log: seq<Flow>, capacity: nat, f: Flow)
    requires capacity > 0
    ensures Push(LastOf(log, capacity), capacity, f) == LastOf(log + [f], capacity)
  {
  }

  lemma PendingAfterBegin(h: Hub, e: nat, f: Flow, targets: seq<nat>, c: nat, k: nat)
    requires Enabled(h, Begin(e, f, targets))
    ensures Pending(Step(h, Begin(e, f, targets)), c, k) <==> Pending(h, c, k) || (k == |h.log| && c in targets)
  {
    var h' := Step(h, Begin(e, f, targets));
    assert h'.emitters[e].k == |h.log| && h'.emitters[e].targets == targets;
    if Pending(h, c, k) {
      var x :| x in h.emitters && h.emitters[x].k == k && c in h.emitters[x].targets;
      assert h'.emitters[x] == h.emitters[x];
    }
    if Pending(h', c, k) {
      var x :| x in h'.emitters && h'.emitters[x].k == k && c in h'.emitters[x].targets;
      assert x != e ==> h'.emitters[x] == h.emitters[x];
    }
  }

  lemma PendingAfterFinish(h: Hub, e: nat, c: nat, k: nat)
    requires Enabled(h, Finish(e))
    ensures Pending(Step(h, Finish(e)), c, k) <==> Pending(h, c, k)
  {
    var h' := Step(h, Finish(e));
    if Pending(h, c, k) {
      var x :| x in h.emitters && h.emitters[x].k == k && c in h.emitters[x].targets;
      assert x in h'.emitters && h'.emitters[x] == h.emitters[x];
    }
    if Pending(h', c, k) {
      var x :| x in h'.emitters && h'.emitters[x].k == k && c in h'.emitters[x].targets;
      assert h'.emitters[x] == h.emitters[x];
    }
  }

  lemma BeginKeepsInv(h: Hub, e: nat, f: Flow, targets: seq<nat>)
    requires Inv(h) && Enabled(h, Begin(e, f, targets))
    ensures Inv(Step(h, Begin(e, f, targets)))
  {
    var h' := Step(h, Begin(e, f, targets));
    var n := |h.log|;
    PushIsLast(h.log, h.capacity, f);
    forall c <- h.clients ensures SendsOk(h', c) {
      assert SendsOk(h, c);
      var cl := h.clients[c];
      forall k: nat ensures Pending(h', c, k) <==> Pending(h, c, k) || (k == n && cl.connected) {
        PendingAfterBegin(h, e, f, targets, c, k);
      }
      forall k: nat ensures Owed(h', cl, k) <==> Owed(h, cl, k) || (k == n && cl.connected) {
      }
      assert !Owed(h, cl, n);
    }
  }

  lemma SendKeepsInv(h: Hub, e: nat)
    requires Inv(h) && Enabled(h, Send(e))
    ensures Inv(Step(h, Send(e)))
  {
    var h' := Step(h, Send(e));
    forall c <- h'.clients ensures ClientOk(h'.clients[c]) && SendsOk(h', c) {
      SendKeepsClient(h, e, c);
    }
    SendKeepsEmitters(h, e);
  }

  lemma SendKeepsClient(h: Hub, e: nat, c: nat)
    requires EmittersOk(h) && Enabled(h, Send(e)) && c in h.clients && ClientOk(h.clients[c]) && SendsOk(h, c)
    ensures ClientOk(Step(h, Send(e)).clients[c]) && SendsOk(Step(h, Send(e)), c)
  {
    var h' := Step(h, Send(e));
    if c == h.emitters[e].targets[0] {
      OfferKeepsClient(h.clients[c], h.emitters[e].k);
      SendServesTarget(h, e);
    } else {
      forall k: nat ensures Pending(h', c, k) <==> Pending(h, c, k) {
        PendingAfterSend(h, e, c, k);
      }
      SendsFrame(h, h', c);
    }
  }

  lemma SendKeepsEmitters(h: Hub, e: nat)
    requires EmittersOk(h) && Enabled(h, Send(e))
    ensures EmittersOk(Step(h, Send(e)))
  {
    var h' := Step(h, Send(e));
    var m := h.emitters[e];
    assert forall c <- m.targets[1..] :: c in m.targets;
    forall x <- h'.emitters ensures h'.emitters[x].k == h.emitters[x].k {
    }
  }

  lemma NoDuplicatesSnoc(s: seq<nat>, k: nat)
    requires NoDuplicates(s) && k !in s
    ensures NoDuplicates(s + [k])
  {
  }

  /** What was pending for this client has been sent. */
  lemma SendsServed(h: Hub, h': Hub, c: nat, k0: nat)
    requires c in h.clients && c in h'.clients && SendsOk(h, c) && Pending(h, c, k0) && h.log == h'.log
    requires Positions(h'.clients[c].attempts) == Positions(h.clients[c].attempts) + [k0]
    requires h'.clients[c].since == h.clients[c].since && h'.clients[c].until == h.clients[c].until
    requires h'.clients[c].connected == h.clients[c].connected
    requires forall k: nat :: Pending(h', c, k) <==> Pending(h, c, k) && k != k0
    ensures SendsOk(h', c)
  {
    NoDuplicatesSnoc(Positions(h.clients[c].attempts), k0);
    forall k: nat ensures Owed(h', h'.clients[c], k) <==> Owed(h, h.clients[c], k) {
    }
  }

  lemma SendServesTarget(h: Hub, e: nat)
    requires EmittersOk(h) && Enabled(h, Send(e)) && SendsOk(h, h.emitters[e].targets[0])
    ensures var c := h.emitters[e].targets[0]; SendsOk(Step(h, Send(e)), c)
  {
    var h' := Step(h, Send(e));
    var m := h.emitters[e];
    var c := m.targets[0];
    AttemptsSnoc(h.clients[c].attempts, Attempt(m.k, |h.clients[c].queue| < CLIENT_BUFFER));
    assert Pending(h, c, m.k);
    forall k: nat ensures Pending(h', c, k) <==> Pending(h, c, k) && k != m.k {
      PendingAfterSend(h, e, c, k);
    }
    SendsServed(h, h', c, m.k);
  }

  /** Nothing about sends changed for this client. */
  lemma SendsFrame(h: Hub, h': Hub, c: nat)
    requires c in h.clients && c in h'.clients && SendsOk(h, c)
    requires h'.clients[c].attempts == h.clients[c].attempts
    requires h'.clients[c].since == h.clients[c].since && h'.clients[c].until <= |h'.log|
    requires h.log == h'.log
    requires forall k: nat :: Owed(h', h'.clients[c], k) <==> Owed(h, h.clients[c], k)
    requires forall k: nat :: Pending(h', c, k) <==> Pending(h, c, k)
    ensures SendsOk(h', c)
  {
  }

  lemma PendingAfterSend(h: Hub, e: nat, c: nat, k: nat)
    requires EmittersOk(h) && Enabled(h, Send(e))
    ensures Pending(Step(h, Send(e)), c, k) <==>
            Pending(h, c, k) && !(c == h.emitters[e].targets[0] && k == h.emitters[e].k)
  {
    var h' := Step(h, Send(e));
    var m := h.emitters[e];
    if Pending(h', c, k) {
      var x :| x in h'.emitters && h'.emitters[x].k == k && c in h'.emitters[x].targets;
      if x == e {
        var i :| 0 <= i < |m.targets[1..]| && m.targets[1..][i] == c;
        assert m.targets[i + 1] == c && m.targets[0] != m.targets[i + 1];
      } else {
        assert h'.emitters[x] == h.emitters[x];
        assert h.emitters[x].k == h.emitters[e].k ==> x == e;
      }
    }
    if Pending(h, c, k) && !(c == m.targets[0] && k == m.k) {
      var x :| x in h.emitters && h.emitters[x].k == k && c in h.emitters[x].targets;
      if x == e {
        assert c in m.targets[1..];
      }
      assert x in h'.emitters && c in h'.emitters[x].targets && h'.emitters[x].k == k;
    }
  }

  lemma FinishKeepsInv(h: Hub, e: nat)
    requires Inv(h) && Enabled(h, Finish(e))
    ensures Inv(Step(h, Finish(e)))
  {
    var h' := Step(h, Finish(e));
    forall c <- h'.clients ensures SendsOk(h', c) {
      assert SendsOk(h, c);
      forall k: nat ensures Pending(h', c, k) <==> Pending(h, c, k) {
        PendingAfterFinish(h, e, c, k);
      }
    }
  }

  lemma SamePending(h: Hub, h': Hub, c: nat)
    requires h.emitters == h'.emitters
    ensures forall k: nat :: Pending(h', c, k) <==> Pending(h, c, k)
  {
  }

  lemma ConnectKeepsInv(h: Hub, c: nat)
    requires Inv(h) && Enabled(h, Connect(c))
    ensures Inv(Step(h, Connect(c)))
  {
    var h' := Step(h, Connect(c));
    assert ClientOk(h'.clients[c]);
    forall x <- h'.clients ensures ClientOk(h'.clients[x]) && SendsOk(h', x) {
      SamePending(h, h', x);
      if x == c {
        forall k: nat ensures !Pending(h', c, k) {
          assert forall e <- h.emitters :: c !in h.emitters[e].targets;
        }
      } else {
        SendsFrame(h, h', x);
      }
    }
  }

  lemma ClientChangeKeepsSends(h: Hub, c: nat, cl: Client, x: nat)
    requires c in h.clients && x in h.clients && SendsOk(h, x)
    requires SameSends(h, h.clients[c], cl)
    ensures SendsOk(h.(clients := h.clients[c := cl]), x)
  {
    var h' := h.(clients := h.clients[c := cl]);
    SamePending(h, h', x);
    forall k: nat ensures Owed(h', h'.clients[x], k) <==> Owed(h, h.clients[x], k) {
      assert Owed(h', h'.clients[x], k) <==> Owed(h, h'.clients[x], k);
    }
    SendsFrame(h, h', x);
  }

  /** A step that changes one browser and sends nothing. */
  lemma ClientChangeKeepsInv(h: Hub, c: nat, cl: Client)
    requires Inv(h) && c in h.clients && ClientOk(cl)
    requires SameSends(h, h.clients[c], cl)
    ensures Inv(h.(clients := h.clients[c := cl]))
  {
    var h' := h.(clients := h.clients[c := cl]);
    forall x <- h'.clients ensures SendsOk(h', x) {
      ClientChangeKeepsSends(h, c, cl, x);
    }
    forall x <- h'.clients ensures ClientOk(h'.clients[x]) {
      assert x != c ==> ClientOk(h.clients[x]);
    }
    assert EmittersOk(h');
  }

  /** Nothing changes in what was sent to the browser and what it was owed. */
  ghost predicate SameSends(h: Hub, old': Client, cl: Client) {
    && cl.attempts == old'.attempts && cl.since == old'.since && cl.until <= |h.log|
    && forall k: nat :: Owed(h, cl, k) <==> Owed(h, old', k)
  }

  lemma DisconnectKeepsInv(h: Hub, c: nat)
    requires Inv(h) && Enabled(h, Disconnect(c))
    ensures Inv(Step(h, Disconnect(c)))
  {
    var cl := h.clients[c].(connected := false, until := |h.log|);
    assert ClientOk(cl) by {
      assert ClientOk(h.clients[c]);
      assert Seen(cl) == Seen(h.clients[c]);
    }
    ClientChangeKeepsInv(h, c, cl);
  }

  lemma ReceiveKeepsInv(h: Hub, c: nat)
    requires Inv(h) && Enabled(h, Receive(c))
    ensures Inv(Step(h, Receive(c)))
  {
    TakeKeepsClient(h.clients[c]);
    assert SendsOk(h, c);
    ClientChangeKeepsInv(h, c, TakeOne(h.clients[c]));
  }

  lemma WriteKeepsInv(h: Hub, c: nat)
    requires Inv(h) && Enabled(h, Write(c))
    ensures Inv(Step(h, Write(c)))
  {
    WriteKeepsClient(h.clients[c]);
    assert SendsOk(h, c);
    ClientChangeKeepsInv(h, c, WriteOne(h.clients[c]));
  }

  lemma StepKeepsInv(h: Hub, l: Label)
    requires Inv(h) && Enabled(h, l)
    ensures Inv(Step(h, l))
  {
    match l
    case Begin(e, f, targets) => BeginKeepsInv(h, e, f, targets);
    case Send(e) => SendKeepsInv(h, e);
    case Finish(e) => FinishKeepsInv(h, e);
    case Connect(c) => ConnectKeepsInv(h, c);
    case Disconnect(c) => DisconnectKeepsInv(h, c);
    case Receive(c) => ReceiveKeepsInv(h, c);
    case Write(c) => WriteKeepsInv(h, c);
  }

  lemma {:induction false} RunKeepsInv(h: Hub, run: seq<Label>)
    requires Inv(h) && IsRun(h, run)
    ensures Inv(After(h, run))
    decreases |run|
  {
    if run != [] {
      StepKeepsInv(h, run[0]);
      RunKeepsInv(Step(h, run[0]), run[1..]);
    }
  }

  // ---- what that means -----------------------------------------------------------------------------

  lemma {:induction false} AttemptsAreAccounted(attempts: seq<Attempt>)
    ensures |attempts| == |Taken(attempts)| + Refused(attempts)
  {
    if attempts != [] {
      AttemptsAreAccounted(attempts[..|attempts| - 1]);
    }
  }

  lemma {:induction false} TakenAreAttempted(attempts: seq<Attempt>)
    ensures forall k <- Taken(attempts) :: k in Positions(attempts)
  {
    if attempts != [] {
      var front, last := attempts[..|attempts| - 1], attempts[|attempts| - 1];
      TakenAreAttempted(front);
      AttemptsSnoc(front, last);
      assert front + [last] == attempts;
    }
  }

  lemma {:induction false} TakenInheritsDistinctness(attempts: seq<Attempt>)
    requires NoDuplicates(Positions(attempts))
    ensures NoDuplicates(Taken(attempts))
  {
    if attempts != [] {
      var front, last := attempts[..|attempts| - 1], attempts[|attempts| - 1];
      AttemptsSnoc(front, last);
      assert front + [last] == attempts;
      var p := Positions(front);
      assert forall i | 0 <= i < |p| :: Positions(attempts)[i] == p[i];
      assert last.k !in p;
      TakenInheritsDistinctness(front);
      TakenAreAttempted(front);
    }
  }

  /** Per-client accounting under every interleaving: finished sends = received (written or still held) + queued +
      dropped; what was received and then queued is what the channel took, in that order and nothing twice; and
      once no Emit is under way, every flow emitted while the browser was connected has been sent to it exactly
      once. */
  lemma ClientAccounting(history: int, run: seq<Label>, c: nat)
    requires IsRun(New(history), run) && c in After(New(history), run).clients
    ensures var h := After(New(history), run);
            var cl := h.clients[c];
            var seen := Seen(cl);
            && |cl.attempts| == |Received(cl.frames)| + |InHand(cl)| + |cl.queue| + cl.dropped
            && |cl.queue| <= 256
            && seen == Taken(cl.attempts) && NoDuplicates(seen)
            && NoDuplicates(Positions(cl.attempts))
            && (h.emitters == map[] ==> forall k: nat :: k in Positions(cl.attempts) <==> Owed(h, cl, k))
  {
    RunKeepsInv(New(history), run);
    var h := After(New(history), run);
    assert SendsOk(h, c);
    AttemptsAreAccounted(h.clients[c].attempts);
    TakenInheritsDistinctness(h.clients[c].attempts);
  }

  /** After any run the tab has been told, before it is given a flow, exactly the number of flows shed up to then, in
      notices that only grow. */
  lemma NoticesAreHonest(history: int, run: seq<Label>, c: nat)
    requires IsRun(New(history), run) && Enabled(After(New(history), run), Write(c))
    ensures var before := After(New(history), run).clients[c];
            var now := WriteOne(before).frames;
            && now[|now| - 1] == Data(before.held.value)
            && Increasing(Notices(now))
            && (if Notices(now) == [] then before.dropped == 0 else Notices(now)[|Notices(now)| - 1] == before.dropped)
  {
    RunKeepsInv(New(history), run);
    WriteKeepsClient(After(New(history), run).clients[c]);
  }

  /** A flow is shed for a client exactly when its send finds 256 flows waiting. */
  lemma ShedOnlyWhenFull(h: Hub, l: Label, c: nat)
    requires Inv(h) && Enabled(h, l) && c in h.clients
    ensures Step(h, l).clients[c].dropped ==
            h.clients[c].dropped +
            (if l.Send? && h.emitters[l.e].targets[0] == c && |h.clients[c].queue| == 256 then 1 else 0)
  {
  }

  /** The steps that take an Emit to its end, whatever its targets do. */
  function Finishing(e: nat, targets: seq<nat>): seq<Label> {
    if targets == [] then [Finish(e)] else [Send(e)] + Finishing(e, targets[1..])
  }

  /** All targets of an Emit under way are clients. */
  predicate TargetsKnown(h: Hub, e: nat) {
    e in h.emitters && forall c <- h.emitters[e].targets :: c in h.clients
  }

  /** The Emit ends; the history and what the tabs have received stay as they are. */
  ghost predicate EndsOnly(h: Hub, h': Hub, e: nat) {
    && h'.emitters == h.emitters - {e}
    && h'.ring == h.ring && h'.log == h.log
    && forall c <- h.clients :: c in h'.clients && h'.clients[c].frames == h.clients[c].frames
  }

  lemma {:induction false} RemainingStepsCanBeTaken(h: Hub, e: nat)
    requires TargetsKnown(h, e)
    ensures IsRun(h, Finishing(e, h.emitters[e].targets))
    ensures EndsOnly(h, After(h, Finishing(e, h.emitters[e].targets)), e)
    decreases |h.emitters[e].targets|
  {
    var targets := h.emitters[e].targets;
    if targets == [] {
      assert Finishing(e, targets)[1..] == [];
    } else {
      assert targets[0] in targets && forall c <- targets[1..] :: c in targets;
      var h1 := Step(h, Send(e));
      assert h1.emitters[e].targets == targets[1..];
      RemainingStepsCanBeTaken(h1, e);
      assert Finishing(e, targets)[1..] == Finishing(e, targets[1..]);
      assert h1.emitters - {e} == h.emitters - {e};
    }
  }

  /** Emit never blocks: from any point of any run its remaining steps can be taken straight away,
      one per target, with no help from any reader. */
  lemma EmitNeverBlocks(history: int, run: seq<Label>, e: nat)
    requires IsRun(New(history), run) && e in After(New(history), run).emitters
    ensures var h := After(New(history), run);
            var rest := Finishing(e, h.emitters[e].targets);
            |rest| == |h.emitters[e].targets| + 1 && IsRun(h, rest) && EndsOnly(h, After(h, rest), e)
  {
    RunKeepsInv(New(history), run);
    var h := After(New(history), run);
    assert TargetsKnown(h, e);
    RemainingStepsCanBeTaken(h, e);
    FinishingLength(e, h.emitters[e].targets);
  }

  lemma {:induction false} FinishingLength(e: nat, targets: seq<nat>)
    ensures |Finishing(e, targets)| == |targets| + 1
  {
    if targets != [] {
      FinishingLength(e, targets[1..]);
    }
  }

  // ---- emission order ----------------------------------------------------------------------------------

  ghost predicate NothingOwed(h: Hub, c: nat) {
    forall k: nat :: !Pending(h, c, k)
  }

  /** No Emit under way still owes anything to a connected browser. */
  ghost predicate AllServed(h: Hub) {
    forall c <- h.clients :: h.clients[c].connected ==> NothingOwed(h, c)
  }

  /** What the browser got is in order, and at most one more flow is on its way to it, a later one. */
  ghost predicate ClientInOrder(h: Hub, c: nat)
    requires c in h.clients
  {
    var taken := Taken(h.clients[c].attempts);
    && Increasing(taken)
    && (forall k: nat | Pending(h, c, k) :: forall x <- taken :: x < k)
    && (forall k: nat, k': nat | Pending(h, c, k) && Pending(h, c, k') :: k == k')
  }

  lemma TakenArePast(h: Hub, c: nat)
    requires c in h.clients && SendsOk(h, c)
    ensures forall x <- Taken(h.clients[c].attempts) :: x < |h.log|
  {
    TakenAreAttempted(h.clients[c].attempts);
    forall x <- Taken(h.clients[c].attempts) ensures x < |h.log| {
      assert Owed(h, h.clients[c], x);
    }
  }

  lemma BeginKeepsOrder(h: Hub, e: nat, f: Flow, targets: seq<nat>, c: nat)
    requires Enabled(h, Begin(e, f, targets)) && c in h.clients && SendsOk(h, c)
    requires ClientInOrder(h, c) && (h.clients[c].connected ==> NothingOwed(h, c))
    ensures ClientInOrder(Step(h, Begin(e, f, targets)), c)
  {
    TakenArePast(h, c);
    forall k: nat
      ensures Pending(Step(h, Begin(e, f, targets)), c, k) <==> Pending(h, c, k) || (k == |h.log| && c in targets)
    {
      PendingAfterBegin(h, e, f, targets, c, k);
    }
  }

  lemma SnocIncreasing(s: seq<nat>, k: nat)
    requires Increasing(s) && forall x <- s :: x < k
    ensures Increasing(s + [k])
  {
    forall i, j | 0 <= i < j < |s + [k]| ensures (s + [k])[i] < (s + [k])[j] {
      assert s[i] in s;
    }
  }

  lemma SendKeepsOrder(h: Hub, e: nat, c: nat)
    requires EmittersOk(h) && Enabled(h, Send(e)) && c in h.clients && ClientInOrder(h, c)
    ensures ClientInOrder(Step(h, Send(e)), c)
  {
    var m := h.emitters[e];
    var h' := Step(h, Send(e));
    forall k: nat ensures Pending(h', c, k) <==> Pending(h, c, k) && !(c == m.targets[0] && k == m.k) {
      PendingAfterSend(h, e, c, k);
    }
    if c == m.targets[0] {
      ServedInOrder(h, e);
      assert Pending(h, c, m.k);
      assert forall k: nat :: !Pending(h', c, k);
    } else {
      assert h'.clients[c] == h.clients[c];
    }
  }

  lemma ServedInOrder(h: Hub, e: nat)
    requires Enabled(h, Send(e)) && ClientInOrder(h, h.emitters[e].targets[0])
    ensures var c := h.emitters[e].targets[0]; Increasing(Taken(Step(h, Send(e)).clients[c].attempts))
  {
    var k, c := h.emitters[e].k, h.emitters[e].targets[0];
    assert Pending(h, c, k);
    AttemptsSnoc(h.clients[c].attempts, Attempt(k, |h.clients[c].queue| < CLIENT_BUFFER));
    SnocIncreasing(Taken(h.clients[c].attempts), k);
  }

  lemma OtherStepKeepsOrder(h: Hub, l: Label, c: nat)
    requires Enabled(h, l) && !l.Begin? && !l.Send? && c in h.clients && ClientInOrder(h, c)
    ensures ClientInOrder(Step(h, l), c)
  {
    forall k: nat ensures Pending(Step(h, l), c, k) <==> Pending(h, c, k) {
      if l.Finish? {
        PendingAfterFinish(h, l.e, c, k);
      }
    }
  }

  lemma StepKeepsOrder(h: Hub, l: Label, c: nat)
    requires EmittersOk(h) && Enabled(h, l) && c in h.clients && SendsOk(h, c) && ClientInOrder(h, c)
    requires l.Begin? && h.clients[c].connected ==> NothingOwed(h, c)
    ensures c in Step(h, l).clients && ClientInOrder(Step(h, l), c)
  {
    match l
    case Begin(e, f, targets) => BeginKeepsOrder(h, e, f, targets, c);
    case Send(e) => SendKeepsOrder(h, e, c);
    case _ => OtherStepKeepsOrder(h, l, c);
  }

  lemma NewClientInOrder(h: Hub, c: nat)
    requires EmittersOk(h) && Enabled(h, Connect(c))
    ensures ClientInOrder(Step(h, Connect(c)), c)
  {
    forall k: nat ensures !Pending(Step(h, Connect(c)), c, k) {
      assert forall e <- h.emitters :: c !in h.emitters[e].targets;
    }
  }

  /** Every Emit begins only when all connected browsers have been served by those before it. */
  ghost predicate EachServedFirst(h: Hub, run: seq<Label>)
    requires IsRun(h, run)
    decreases |run|
  {
    run != [] ==> (run[0].Begin? ==> AllServed(h)) && EachServedFirst(Step(h, run[0]), run[1..])
  }

  lemma {:induction false} RunKeepsOrder(h: Hub, run: seq<Label>, c: nat)
    requires Inv(h) && IsRun(h, run) && EachServedFirst(h, run)
    requires c in h.clients ==> ClientInOrder(h, c)
    ensures c in After(h, run).clients ==> ClientInOrder(After(h, run), c)
    decreases |run|
  {
    if run != [] {
      StepKeepsInv(h, run[0]);
      if c in h.clients {
        StepKeepsOrder(h, run[0], c);
      } else if run[0] == Connect(c) {
        NewClientInOrder(h, c);
      }
      RunKeepsOrder(Step(h, run[0]), run[1..], c);
    }
  }

  /** If every Emit begins only when the connected browsers have been served by those before it (one Emit at a time,
      for instance), every browser gets what it gets in emission order. */
  lemma DeliveryInEmissionOrder(history: int, run: seq<Label>, c: nat)
    requires IsRun(New(history), run) && EachServedFirst(New(history), run)
    requires c in After(New(history), run).clients
    ensures Increasing(Seen(After(New(history), run).clients[c]))
  {
    RunKeepsInv(New(history), run);
    RunKeepsOrder(New(history), run, c);
    SeenIsTaken(After(New(history), run).clients[c]);
  }

  ghost predicate OneAtATime(h: Hub, run: seq<Label>)
    requires IsRun(h, run)
    decreases |run|
  {
    run != [] ==> (run[0].Begin? ==> h.emitters == map[]) && OneAtATime(Step(h, run[0]), run[1..])
  }

  /** With one Emit at a time that is so. */
  lemma {:induction false} OneAtATimeServes(h: Hub, run: seq<Label>)
    requires IsRun(h, run) && OneAtATime(h, run)
    ensures EachServedFirst(h, run)
    decreases |run|
  {
    if run != [] {
      assert h.emitters == map[] ==> AllServed(h);
      OneAtATimeServes(Step(h, run[0]), run[1..]);
    }
  }

  // ---- exactly when order survives one more Emit ---------------------------------------------------------

  predicate NoBegin(run: seq<Label>) {
    forall i | 0 <= i < |run| :: !run[i].Begin?
  }

  /** Every browser that was connected in `before` has got what it got in order. */
  ghost predicate InOrderFor(before: Hub, h: Hub) {
    forall c <- before.clients :: before.clients[c].connected ==> c in h.clients && Increasing(Seen(h.clients[c]))
  }

  /** However the steps after this one are interleaved, up to the next Emit. */
  ghost predicate OrderIsKept(before: Hub, h: Hub) {
    forall run | IsRun(h, run) && NoBegin(run) :: InOrderFor(before, After(h, run))
  }

  lemma {:induction false} RunAppend(h: Hub, a: seq<Label>, b: seq<Label>)
    requires IsRun(h, a) && IsRun(After(h, a), b)
    ensures IsRun(h, a + b) && After(h, a + b) == After(After(h, a), b)
    decreases |a|
  {
    if a == [] {
      assert a + b == b;
    } else {
      assert (a + b)[1..] == a[1..] + b;
      RunAppend(Step(h, a[0]), a[1..], b);
    }
  }

  lemma RunCons(h: Hub, l: Label, run: seq<Label>)
    requires Enabled(h, l) && IsRun(Step(h, l), run)
    ensures IsRun(h, [l] + run) && After(h, [l] + run) == After(Step(h, l), run)
  {
    assert ([l] + run)[1..] == run;
  }

  /** A connected browser can read until its queue is empty. */
  lemma {:induction false} CanDrain(h: Hub, c: nat) returns (run: seq<Label>, h': Hub)
    requires c in h.clients && h.clients[c].connected
    ensures IsRun(h, run) && NoBegin(run) && After(h, run) == h'
    ensures h'.emitters == h.emitters && h'.clients.Keys == h.clients.Keys
    ensures h'.clients[c].queue == [] && h'.clients[c].attempts == h.clients[c].attempts
    decreases |h.clients[c].queue|, h.clients[c].held.Some?
  {
    var cl := h.clients[c];
    run, h' := [], h;
    if cl.held.Some? || cl.queue != [] {
      var l := if cl.held.Some? then Write(c) else Receive(c);
      run, h' := CanDrain(Step(h, l), c);
      RunCons(h, l, run);
      run := [l] + run;
    }
  }

  ghost predicate OthersUnmoved(h: Hub, h': Hub, e: nat) {
    forall x <- h.emitters :: x != e ==> x in h'.emitters && h'.emitters[x] == h.emitters[x]
  }

  /** An Emit can go on until it has served this target. */
  lemma {:induction false} CanServe(h: Hub, e: nat, c: nat, i: nat) returns (run: seq<Label>, h': Hub)
    requires e in h.emitters && i < |h.emitters[e].targets| && h.emitters[e].targets[i] == c
    requires NoDuplicates(h.emitters[e].targets) && forall x <- h.emitters[e].targets :: x in h.clients
    requires |h.clients[c].queue| < CLIENT_BUFFER
    ensures IsRun(h, run) && NoBegin(run) && After(h, run) == h'
    ensures h'.clients.Keys == h.clients.Keys && OthersUnmoved(h, h', e)
    ensures h'.clients[c].queue == h.clients[c].queue + [h.emitters[e].k]
    ensures h'.clients[c].attempts == h.clients[c].attempts + [Attempt(h.emitters[e].k, true)]
    decreases i
  {
    var targets := h.emitters[e].targets;
    assert targets[0] in targets;
    var h1 := Step(h, Send(e));
    run, h' := [], h1;
    if i > 0 {
      assert targets[0] != c;
      assert h1.clients[c] == h.clients[c] && h1.emitters[e] == h.emitters[e].(targets := targets[1..]);
      assert targets[1..][i - 1] == c && forall x <- targets[1..] :: x in targets;
      run, h' := CanServe(h1, e, c, i - 1);
    }
    RunCons(h, Send(e), run);
    run := [Send(e)] + run;
  }

  /** Room for two, and the newer Emit goes first. */
  lemma CanSendBoth(h: Hub, e: nat, older: nat, c: nat) returns (run: seq<Label>, h': Hub)
    requires EmittersOk(h) && c in h.clients && h.clients[c].queue == []
    requires e in h.emitters && older in h.emitters && e != older
    requires c in h.emitters[e].targets && c in h.emitters[older].targets
    ensures IsRun(h, run) && NoBegin(run) && After(h, run) == h' && c in h'.clients
    ensures h'.clients[c].attempts ==
            h.clients[c].attempts + [Attempt(h.emitters[e].k, true)] + [Attempt(h.emitters[older].k, true)]
  {
    var i :| 0 <= i < |h.emitters[e].targets| && h.emitters[e].targets[i] == c;
    var first, h1 := CanServe(h, e, c, i);
    assert h1.emitters[older] == h.emitters[older];
    var j :| 0 <= j < |h1.emitters[older].targets| && h1.emitters[older].targets[j] == c;
    var second, h2 := CanServe(h1, older, c, j);
    RunAppend(h, first, second);
    run, h' := first + second, h2;
  }

  lemma OvertakenIsOutOfOrder(attempts: seq<Attempt>, k: nat, older: nat)
    requires older < k
    ensures !Increasing(Taken(attempts + [Attempt(k, true)] + [Attempt(older, true)]))
  {
    AttemptsSnoc(attempts, Attempt(k, true));
    AttemptsSnoc(attempts + [Attempt(k, true)], Attempt(older, true));
    var t, n := Taken(attempts + [Attempt(k, true)] + [Attempt(older, true)]), |Taken(attempts)|;
    assert t[n] == k && t[n + 1] == older;
  }

  /** A run after which this browser has got flows out of order. */
  ghost predicate LosesOrder(h: Hub, run: seq<Label>, c: nat) {
    IsRun(h, run) && c in After(h, run).clients && !Increasing(Seen(After(h, run).clients[c]))
  }

  lemma CanOvertake(h: Hub, e: nat, older: nat, c: nat) returns (run: seq<Label>)
    requires Inv(h) && c in h.clients && h.clients[c].connected
    requires e in h.emitters && older in h.emitters && h.emitters[older].k < h.emitters[e].k
    requires c in h.emitters[e].targets && c in h.emitters[older].targets
    ensures NoBegin(run) && LosesOrder(h, run, c)
  {
    var first, h1 := CanDrain(h, c);
    RunKeepsInv(h, first);
    var second, h2 := CanSendBoth(h1, e, older, c);
    RunKeepsInv(h1, second);
    RunAppend(h, first, second);
    OvertakenIsOutOfOrder(h.clients[c].attempts, h.emitters[e].k, h.emitters[older].k);
    SeenIsTaken(h2.clients[c]);
    run := first + second;
  }

  lemma SeenIsTaken(c: Client)
    requires ClientOk(c)
    ensures Seen(c) == Taken(c.attempts)
  {
  }

  ghost predicate Settled(h: Hub, c: nat) {
    Inv(h) && c in h.clients && ClientInOrder(h, c)
  }

  lemma StepKeepsSettled(h: Hub, l: Label, c: nat)
    requires Settled(h, c) && Enabled(h, l) && !l.Begin?
    ensures Settled(Step(h, l), c)
  {
    StepKeepsInv(h, l);
    StepKeepsOrder(h, l, c);
  }

  lemma {:induction false} OrderIsKeptForClient(h: Hub, run: seq<Label>, c: nat)
    requires Settled(h, c) && IsRun(h, run) && NoBegin(run)
    ensures Settled(After(h, run), c)
    decreases |run|
  {
    if run != [] {
      assert NoBegin(run[1..]) && !run[0].Begin?;
      StepKeepsSettled(h, run[0], c);
      OrderIsKeptForClient(Step(h, run[0]), run[1..], c);
    }
  }

  lemma ServedMeansKept(h: Hub, e: nat, f: Flow, targets: seq<nat>)
    requires Inv(h) && Enabled(h, Begin(e, f, targets)) && InOrderFor(h, h) && AllServed(h)
    ensures OrderIsKept(h, Step(h, Begin(e, f, targets)))
  {
    var h1 := Step(h, Begin(e, f, targets));
    StepKeepsInv(h, Begin(e, f, targets));
    forall run, c | IsRun(h1, run) && NoBegin(run) && c in h.clients && h.clients[c].connected
      ensures c in After(h1, run).clients && Increasing(Seen(After(h1, run).clients[c]))
    {
      SeenIsTaken(h.clients[c]);
      BeginKeepsOrder(h, e, f, targets, c);
      OrderIsKeptForClient(h1, run, c);
      SeenIsTaken(After(h1, run).clients[c]);
    }
  }

  lemma OwedMeansLost(h: Hub, e: nat, f: Flow, targets: seq<nat>, c: nat, k: nat)
    requires Inv(h) && Enabled(h, Begin(e, f, targets))
    requires c in h.clients && h.clients[c].connected && Pending(h, c, k)
    ensures !OrderIsKept(h, Step(h, Begin(e, f, targets)))
  {
    var h1 := Step(h, Begin(e, f, targets));
    StepKeepsInv(h, Begin(e, f, targets));
    var x :| x in h.emitters && h.emitters[x].k == k && c in h.emitters[x].targets;
    var run := CanOvertake(h1, e, x, c);
    assert !InOrderFor(h, After(h1, run));
  }

  /** The exact condition, at any Emit of any run: whatever is interleaved until the next one, every connected browser
      gets its flows in emission order, if and only if it has done so far and no Emit under way still owes a
      connected browser a flow. */
  lemma OrderIsKeptExactlyWhenServed(history: int, run: seq<Label>, e: nat, f: Flow, targets: seq<nat>)
    requires IsRun(New(history), run) && Enabled(After(New(history), run), Begin(e, f, targets))
    ensures var h := After(New(history), run);
            OrderIsKept(h, Step(h, Begin(e, f, targets))) <==> InOrderFor(h, h) && AllServed(h)
  {
    RunKeepsInv(New(history), run);
    var h := After(New(history), run);
    var h1 := Step(h, Begin(e, f, targets));
    if !InOrderFor(h, h) {
      assert IsRun(h1, []) && NoBegin([]) && After(h1, []) == h1;
      assert !InOrderFor(h, h1);
    } else if AllServed(h) {
      ServedMeansKept(h, e, f, targets);
    } else {
      var c :| c in h.clients && h.clients[c].connected && !NothingOwed(h, c);
      var k: nat :| Pending(h, c, k);
      OwedMeansLost(h, e, f, targets, c, k);
    }
  }

  lemma TwoUnderWay(h: Hub, e: nat, e': nat, f: Flow, f': Flow, targets: seq<nat>, c: nat)
    requires Inv(h) && Enabled(h, Begin(e, f, targets)) && e' !in h.emitters && e' != e
    requires c in h.clients && h.clients[c].connected
    ensures Enabled(Step(h, Begin(e, f, targets)), Begin(e', f', targets))
    ensures exists more :: LosesOrder(Step(Step(h, Begin(e, f, targets)), Begin(e', f', targets)), more, c)
  {
    var h1 := Step(h, Begin(e, f, targets));
    BeginKeepsInv(h, e, f, targets);
    BeginKeepsInv(h1, e', f', targets);
    var h2 := Step(h1, Begin(e', f', targets));
    assert h2.emitters[e] == Emitter(|h.log|, targets) && h2.emitters[e'] == Emitter(|h.log| + 1, targets);
    var more := CanOvertake(h2, e', e, c);
    assert LosesOrder(h2, more, c);
  }

  /** Two Emits at once can always reorder: at any point of any run, for any connected browser, they can be begun and
      interleaved so that it gets the later flow first. */
  lemma ConcurrentEmitsMayReorder(
    history: int, run: seq<Label>, e: nat, e': nat, f: Flow, f': Flow, targets: seq<nat>, c: nat)
    requires IsRun(New(history), run) && Enabled(After(New(history), run), Begin(e, f, targets))
    requires e' !in After(New(history), run).emitters && e' != e
    requires c in After(New(history), run).clients && After(New(history), run).clients[c].connected
    ensures exists more ::
              LosesOrder(After(New(history), run), [Begin(e, f, targets)] + ([Begin(e', f', targets)] + more), c)
  {
    RunKeepsInv(New(history), run);
    var h := After(New(history), run);
    var l1, l2 := Begin(e, f, targets), Begin(e', f', targets);
    TwoUnderWay(h, e, e', f, f', targets, c);
    var more :| LosesOrder(Step(Step(h, l1), l2), more, c);
    RunCons(Step(h, l1), l2, more);
    RunCons(h, l1, [l2] + more);
    assert LosesOrder(h, [l1] + ([l2] + more), c);
  }

  // ---- history --------------------------------------------------------------------------------------

  /** handleFlows. */
  function NewestFirst(ring: seq<Flow>): (r: seq<Flow>)
    ensures |r| == |ring| && forall i | 0 <= i < |r| :: r[i] == ring[|ring| - 1 - i]
  {
    if ring == [] then [] else NewestFirst(ring[1..]) + [ring[0]]
  }

  /** lookup. */
  function Lookup(ring: seq<Flow>, id: nat): Option<Flow> {
    if ring == [] then None
    else if ring[0].id == id then Some(ring[0])
    else Lookup(ring[1..], id)
  }

  lemma {:induction false} LookupFinds(ring: seq<Flow>, id: nat)
    ensures match Lookup(ring, id)
            case None => forall f <- ring :: f.id != id
            case Some(f) => f in ring && f.id == id
  {
    if ring != [] && ring[0].id != id {
      LookupFinds(ring[1..], id);
    }
  }

  predicate DistinctIds(log: seq<Flow>) {
    forall i, j | 0 <= i < j < |log| :: log[i].id != log[j].id
  }

  function Min(a: nat, b: nat): nat {
    if a < b then a else b
  }

  lemma TailAt(log: seq<Flow>, n: nat, j: nat)
    requires j < Min(|log|, n)
    ensures |LastOf(log, n)| == Min(|log|, n) && LastOf(log, n)[j] == log[|log| - Min(|log|, n) + j]
  {
  }

  lemma LookupInTail(log: seq<Flow>, n: nat, i: nat)
    requires DistinctIds(log) && i < |log|
    ensures Lookup(LastOf(log, n), log[i].id) == if |log| - Min(|log|, n) <= i then Some(log[i]) else None
  {
    var ring := LastOf(log, n);
    var skipped := |log| - Min(|log|, n);
    LookupFinds(ring, log[i].id);
    if skipped <= i {
      TailAt(log, n, i - skipped);
      assert ring[i - skipped] in ring;
    }
    match Lookup(ring, log[i].id)
    case None =>
    case Some(f) =>
      var j :| 0 <= j < |ring| && ring[j] == f;
      TailAt(log, n, j);
      assert log[skipped + j].id == log[i].id;
  }

  lemma NewestFirstOfTail(log: seq<Flow>, n: nat)
    ensures |NewestFirst(LastOf(log, n))| == Min(|log|, n)
    ensures forall i | 0 <= i < Min(|log|, n) :: NewestFirst(LastOf(log, n))[i] == log[|log| - 1 - i]
  {
    var m := Min(|log|, n);
    forall i | 0 <= i < m ensures NewestFirst(LastOf(log, n))[i] == log[|log| - 1 - i] {
      TailAt(log, n, m - 1 - i);
    }
  }

  /** The list served is the last flows of the log, newest first, as many as fit; and with distinct ids lookup finds
      exactly those. */
  ghost predicate ServesTail(ring: seq<Flow>, log: seq<Flow>, capacity: nat) {
    var n := Min(|log|, capacity);
    && |NewestFirst(ring)| == n
    && (forall i | 0 <= i < n :: NewestFirst(ring)[i] == log[|log| - 1 - i])
    && (DistinctIds(log) ==>
          forall i | 0 <= i < |log| ::
            Lookup(ring, log[i].id) == if |log| - n <= i then Some(log[i]) else None)
  }

  lemma TailIsServed(log: seq<Flow>, n: nat)
    ensures ServesTail(LastOf(log, n), log, n)
  {
    NewestFirstOfTail(log, n);
    if DistinctIds(log) {
      forall i | 0 <= i < |log|
        ensures Lookup(LastOf(log, n), log[i].id) == if |log| - Min(|log|, n) <= i then Some(log[i]) else None
      {
        LookupInTail(log, n, i);
      }
    }
  }

  lemma {:induction false} RunKeepsCapacity(h: Hub, run: seq<Label>)
    requires IsRun(h, run)
    ensures After(h, run).capacity == h.capacity
    decreases |run|
  {
    if run != [] {
      RunKeepsCapacity(Step(h, run[0]), run[1..]);
    }
  }

  /** After any run the server's list is the last flows emitted, newest first, as many as the history asked for, which
      is at least one; and with distinct ids the detail page finds a flow exactly when it is one of them. */
  lemma HistoryIsTail(history: int, run: seq<Label>)
    requires IsRun(New(history), run)
    ensures var h := After(New(history), run); ServesTail(h.ring, h.log, if history < 1 then 1 else history)
  {
    var h := After(New(history), run);
    RunKeepsInv(New(history), run);
    RunKeepsCapacity(New(history), run);
    assert h.ring == LastOf(h.log, h.capacity);
    TailIsServed(h.log, h.capacity);
  }
}
