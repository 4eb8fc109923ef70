/** internal/ui/hub.go's Hub as an object: the methods that HubMachine interleaves, here run
    without interruption. */
module HubClass {
  import opened Wrappers
  import M = HubMachine

  function Meta(f: M.Flow): M.Flow {
    f.(body := "")
  }

  /** The state of a browser. */
  datatype Box = Box(queue: seq<M.Flow>, dropped: nat, reported: nat)

  /** A connected browser: its buffered channel, and the two counters. */
  class Client {
    var queue: seq<M.Flow>
    var dropped: nat
    var reported: nat

    ghost function State(): Box
      reads this
    {
      Box(queue, dropped, reported)
    }

    constructor ()
      ensures queue == [] && dropped == 0 && reported == 0
    {
      queue, dropped, reported := [], 0, 0;
    }

    /** Non-blocking sends, one after the other. */
    method OfferAll(flows: seq<M.Flow>)
      modifies this`queue, this`dropped
      ensures State() == Offered(old(State()), flows)
    {
      var i := 0;
      while i < |flows|
        invariant 0 <= i <= |flows|
        invariant State() == Offered(old(State()), flows[..i])
      {
        assert flows[..i + 1][..i] == flows[..i];
        if |queue| < M.CLIENT_BUFFER {
          queue := queue + [flows[i]];
        } else {
          dropped := dropped + 1;
        }
        i := i + 1;
      }
      assert flows[..i] == flows;
    }
  }

  datatype Frame = Data(f: M.Flow) | Shed(n: nat)

  ghost function Total(cs: set<Client>): nat
    reads cs
  {
    if cs == {} then 0
    else var c :| c in cs; c.dropped + Total(cs - {c})
  }

  lemma {:induction false} TotalSplits(cs: set<Client>, c: Client)
    requires c in cs
    ensures Total(cs) == c.dropped + Total(cs - {c})
    decreases |cs|
  {
    var d :| d in cs && Total(cs) == d.dropped + Total(cs - {d});
    if c != d {
      TotalSplits(cs - {d}, c);
      TotalSplits(cs - {c}, d);
      assert cs - {d} - {c} == cs - {c} - {d};
    }
  }

  class Hub {
    var ring: seq<M.Flow>
    const capacity: nat
    var clients: set<Client>

    ghost predicate Valid()
      reads this
    {
      capacity > 0 && |ring| <= capacity
    }

    constructor (history: int)
      ensures Valid() && ring == [] && clients == {}
      ensures capacity == if history < 1 then 1 else history
      ensures capacity == M.New(history).capacity
    {
      ring, clients := [], {};
      capacity := if history < 1 then 1 else history;
    }

    /** A flow that cannot be marshalled is dropped before it touches anything. */
    method Emit(f: M.Flow, marshals: bool)
      requires Valid()
      modifies this`ring, clients
      ensures Valid()
      ensures ring == if marshals then M.Push(old(ring), capacity, f) else old(ring)
      ensures forall c <- clients ::
                var fits := |old(c.queue)| < M.CLIENT_BUFFER;
                && c.queue == old(c.queue) + (if marshals && fits then [M.Flow(f.id, f.meta, "")] else [])
                && c.dropped == old(c.dropped) + (if marshals && !fits then 1 else 0)
                && c.reported == old(c.reported)
    {
      if !marshals {
        return;
      }
      ring := ring + [f];
      if |ring| > capacity {
        ring := ring[|ring| - capacity..];
      }
      var targets := Targets(clients);
      assert forall j | 0 <= j < |targets| :: targets[j] in targets;
      SendAll(targets, Meta(f));
    }

    method Targets(cs: set<Client>) returns (targets: seq<Client>)
      ensures forall c :: c in targets <==> c in cs
      ensures M.NoDuplicates(targets)
    {
      targets := [];
      var rest := cs;
      while rest != {}
        invariant rest <= cs
        invariant forall c :: c in targets <==> c in cs - rest
        invariant M.NoDuplicates(targets)
        decreases rest
      {
        var c :| c in rest;
        assert c !in targets;
        assert forall j | 0 <= j < |targets| :: targets[j] in targets;
        targets := targets + [c];
        rest := rest - {c};
      }
    }

    /** One non-blocking send per target. */
    method SendAll(targets: seq<Client>, data: M.Flow)
      requires M.NoDuplicates(targets)
      modifies targets
      ensures forall c <- targets ::
                var fits := |old(c.queue)| < M.CLIENT_BUFFER;
                && c.queue == old(c.queue) + (if fits then [data] else [])
                && c.dropped == old(c.dropped) + (if fits then 0 else 1)
                && c.reported == old(c.reported)
    {
      var i := 0;
      while i < |targets|
        invariant 0 <= i <= |targets|
        invariant forall j | 0 <= j < i ::
                    var fits := |old(targets[j].queue)| < M.CLIENT_BUFFER;
                    && targets[j].queue == old(targets[j].queue) + (if fits then [data] else [])
                    && targets[j].dropped == old(targets[j].dropped) + (if fits then 0 else 1)
        invariant forall j | i <= j < |targets| ::
                    targets[j].queue == old(targets[j].queue) && targets[j].dropped == old(targets[j].dropped)
        invariant forall c <- targets :: c.reported == old(c.reported)
      {
        var c := targets[i];
        if |c.queue| < M.CLIENT_BUFFER {
          c.queue := c.queue + [data];
        } else {
          c.dropped := c.dropped + 1;
        }
        i := i + 1;
      }
    }

    method AddClient(c: Client)
      modifies this`clients
      ensures clients == old(clients) + {c}
    {
      clients := clients + {c};
    }

    method RemoveClient(c: Client)
      modifies this`clients
      ensures clients == old(clients) - {c}
    {
      clients := clients - {c};
    }

    method Dropped() returns (total: nat)
      ensures total == Total(clients)
    {
      total := 0;
      var rest := clients;
      while rest != {}
        invariant rest <= clients
        invariant total + Total(rest) == Total(clients)
        decreases rest
      {
        var c :| c in rest;
        TotalSplits(rest, c);
        total := total + c.dropped;
        rest := rest - {c};
      }
    }

    /** handleFlows: metadata only, newest first. */
    method Flows() returns (metas: seq<M.Flow>)
      ensures |metas| == |ring|
      ensures forall i | 0 <= i < |metas| :: metas[i] == Meta(M.NewestFirst(ring)[i])
      ensures forall i | 0 <= i < |metas| ::
                var f := ring[|ring| - 1 - i]; metas[i].id == f.id && metas[i].meta == f.meta && metas[i].body == ""
    {
      metas := [];
      var i := |ring|;
      while i > 0
        invariant 0 <= i <= |ring| && |metas| == |ring| - i
        invariant forall j | 0 <= j < |metas| :: metas[j] == Meta(M.NewestFirst(ring)[j])
      {
        i := i - 1;
        metas := metas + [Meta(ring[i])];
      }
    }

    method LookUp(id: nat) returns (found: Option<M.Flow>)
      ensures found == M.Lookup(ring, id)
    {
      var i := 0;
      while i < |ring|
        invariant 0 <= i <= |ring|
        invariant M.Lookup(ring[i..], id) == M.Lookup(ring, id)
      {
        if ring[i].id == id {
          return Some(ring[i]);
        }
        i := i + 1;
      }
      return None;
    }
  }

  // ---- the event stream --------------------------------------------------------------------------------

  /** What can happen during one turn of the handleEvents loop: flows that others offer between the receive and the
      write, and whether the flow can be written. */
  datatype Turn = Turn(offered: seq<M.Flow>, writes: bool)

  function OfferedOne(b: Box, f: M.Flow): Box {
    if |b.queue| < M.CLIENT_BUFFER then b.(queue := b.queue + [f]) else b.(dropped := b.dropped + 1)
  }

  function Offered(b: Box, flows: seq<M.Flow>): Box {
    if flows == [] then b else OfferedOne(Offered(b, flows[..|flows| - 1]), flows[|flows| - 1])
  }

  /** One turn, up to writing the flow. */
  function Turned(b: Box, t: Turn): (Box, seq<Frame>)
    requires b.queue != []
  {
    var b1 := Offered(b.(queue := b.queue[1..]), t.offered);
    (b1.(reported := b1.dropped), if b1.dropped != b1.reported then [Shed(b1.dropped)] else [])
  }

  /** The loop over these turns: it ends when a write fails, and rests when the queue is empty. */
  function Streamed(b: Box, turns: seq<Turn>): (Box, seq<Frame>)
    decreases |turns|
  {
    if turns == [] || b.queue == [] then (b, [])
    else
      var (b1, notice) := Turned(b, turns[0]);
      if !turns[0].writes then (b1, notice)
      else var (b2, frames) := Streamed(b1, turns[1..]); (b2, notice + [Data(b.queue[0])] + frames)
  }

  method Stream(c: Client, turns: seq<Turn>) returns (frames: seq<Frame>)
    modifies c
    ensures (c.State(), frames) == Streamed(old(c.State()), turns)
  {
    frames := [];
    var i := 0;
    StreamStarts(c.State(), turns);
    while i < |turns| && c.queue != []
      invariant 0 <= i <= |turns|
      invariant StreamsOn(old(c.State()), turns, c.State(), i, frames)
    {
      var data := c.queue[0];
      ghost var before := c.State();
      c.queue := c.queue[1..];
      c.OfferAll(turns[i].offered);
      var notice := [];
      if c.dropped != c.reported {
        c.reported := c.dropped;
        notice := [Shed(c.dropped)];
      }
      assert (c.State(), notice) == Turned(before, turns[i]);
      StreamStep(old(c.State()), turns, before, i, frames);
      frames := frames + notice;
      if !turns[i].writes {
        return;
      }
      frames := frames + [Data(data)];
      i := i + 1;
    }
    assert frames + [] == frames;
  }

  /** After `i` turns the loop has written `frames` and goes on from `b`. */
  ghost predicate StreamsOn(b0: Box, turns: seq<Turn>, b: Box, i: nat, frames: seq<Frame>)
    requires i <= |turns|
  {
    var (end, more) := Streamed(b, turns[i..]);
    Streamed(b0, turns) == (end, frames + more)
  }

  lemma StreamStarts(b: Box, turns: seq<Turn>)
    ensures StreamsOn(b, turns, b, 0, [])
  {
    assert turns[0..] == turns;
    assert [] + Streamed(b, turns).1 == Streamed(b, turns).1;
  }

  lemma StreamStep(b0: Box, turns: seq<Turn>, b: Box, i: nat, frames: seq<Frame>)
    requires i < |turns| && b.queue != [] && StreamsOn(b0, turns, b, i, frames)
    ensures var (b1, notice) := Turned(b, turns[i]);
            if turns[i].writes then StreamsOn(b0, turns, b1, i + 1, frames + notice + [Data(b.queue[0])])
            else Streamed(b0, turns) == (b1, frames + notice)
  {
    assert turns[i..][0] == turns[i] && turns[i..][1..] == turns[i + 1..];
    var (b1, notice) := Turned(b, turns[i]);
    var more := Streamed(b1, turns[i + 1..]).1;
    assert frames + (notice + [Data(b.queue[0])] + more) == frames + notice + [Data(b.queue[0])] + more;
  }

  // ---- what the stream delivers ---------------------------------------------------------------------------

  function DataOf(frames: seq<Frame>): seq<M.Flow> {
    if frames == [] then []
    else (if frames[0].Data? then [frames[0].f] else []) + DataOf(frames[1..])
  }

  function NoticesOf(frames: seq<Frame>): seq<nat> {
    if frames == [] then []
    else (if frames[0].Shed? then [frames[0].n] else []) + NoticesOf(frames[1..])
  }

  /** Of the flows offered in these turns, those that the channel took. */
  function TakenOf(b: Box, flows: seq<M.Flow>): seq<M.Flow> {
    if flows == [] then []
    else
      var front := flows[..|flows| - 1];
      TakenOf(b, front) + (if |Offered(b, front).queue| < M.CLIENT_BUFFER then [flows[|flows| - 1]] else [])
  }

  function TakenIn(b: Box, turns: seq<Turn>): seq<M.Flow>
    decreases |turns|
  {
    if turns == [] || b.queue == [] then []
    else
      TakenOf(b.(queue := b.queue[1..]), turns[0].offered) +
      if turns[0].writes then TakenIn(Turned(b, turns[0]).0, turns[1..]) else []
  }

  /** The flow whose write failed, if one did. */
  function LostIn(b: Box, turns: seq<Turn>): seq<M.Flow>
    decreases |turns|
  {
    if turns == [] || b.queue == [] then []
    else if turns[0].writes then LostIn(Turned(b, turns[0]).0, turns[1..])
    else [b.queue[0]]
  }

  lemma {:induction false} OfferedKeeps(b: Box, flows: seq<M.Flow>)
    ensures var b' := Offered(b, flows);
            && b'.queue == b.queue + TakenOf(b, flows)
            && b'.dropped + |TakenOf(b, flows)| == b.dropped + |flows| && b'.dropped >= b.dropped
            && b'.reported == b.reported
  {
    if flows != [] {
      OfferedKeeps(b, flows[..|flows| - 1]);
    }
  }

  lemma FramesOfTurn(notice: seq<Frame>, f: M.Flow, frames: seq<Frame>)
    requires |notice| <= 1 && forall i | 0 <= i < |notice| :: notice[i].Shed?
    ensures DataOf(notice + [Data(f)] + frames) == [f] + DataOf(frames)
    ensures NoticesOf(notice + [Data(f)] + frames) == (if notice == [] then [] else [notice[0].n]) + NoticesOf(frames)
  {
    var rest := [Data(f)] + frames;
    assert rest[1..] == frames;
    if notice == [] {
      assert notice + [Data(f)] + frames == rest;
    } else {
      assert (notice + [Data(f)] + frames)[1..] == rest;
    }
  }

  lemma NoticeAlone(notice: seq<Frame>)
    requires |notice| <= 1 && forall i | 0 <= i < |notice| :: notice[i].Shed?
    ensures DataOf(notice) == [] && NoticesOf(notice) == if notice == [] then [] else [notice[0].n]
  {
  }

  lemma Regroup(q: M.Flow, rest: seq<M.Flow>, taken: seq<M.Flow>, later: seq<M.Flow>,
                written: seq<M.Flow>, lost: seq<M.Flow>, queued: seq<M.Flow>)
    requires rest + taken + later == written + lost + queued
    ensures [q] + rest + (taken + later) == [q] + written + lost + queued
  {
    assert [q] + rest + (taken + later) == [q] + (rest + taken + later);
    assert [q] + written + lost + queued == [q] + (written + lost + queued);
  }

  /** What was queued and then taken is, in that order, what was written, what was lost, and what is queued still. */
  ghost predicate Conserves(b: Box, turns: seq<Turn>) {
    var (b', frames) := Streamed(b, turns);
    b.queue + TakenIn(b, turns) == DataOf(frames) + LostIn(b, turns) + b'.queue
  }

  lemma TurnQueues(b: Box, t: Turn)
    requires b.queue != []
    ensures Turned(b, t).0.queue == b.queue[1..] + TakenOf(b.(queue := b.queue[1..]), t.offered)
  {
    OfferedKeeps(b.(queue := b.queue[1..]), t.offered);
  }

  lemma WrittenTurnConserves(b: Box, turns: seq<Turn>)
    requires turns != [] && b.queue != [] && turns[0].writes && Conserves(Turned(b, turns[0]).0, turns[1..])
    ensures Conserves(b, turns)
  {
    var q, rest := b.queue[0], b.queue[1..];
    var (b1, notice) := Turned(b, turns[0]);
    var taken, later := TakenOf(b.(queue := rest), turns[0].offered), TakenIn(b1, turns[1..]);
    var (b2, frames) := Streamed(b1, turns[1..]);
    TurnQueues(b, turns[0]);
    FramesOfTurn(notice, q, frames);
    assert b.queue == [q] + rest;
    assert TakenIn(b, turns) == taken + later && LostIn(b, turns) == LostIn(b1, turns[1..]);
    assert Streamed(b, turns) == (b2, notice + [Data(q)] + frames);
    Regroup(q, rest, taken, later, DataOf(frames), LostIn(b1, turns[1..]), b2.queue);
  }

  lemma FailedTurnConserves(b: Box, turns: seq<Turn>)
    requires turns != [] && b.queue != [] && !turns[0].writes
    ensures Conserves(b, turns)
  {
    var q, rest := b.queue[0], b.queue[1..];
    var (b1, notice) := Turned(b, turns[0]);
    var taken := TakenOf(b.(queue := rest), turns[0].offered);
    TurnQueues(b, turns[0]);
    NoticeAlone(notice);
    assert taken + [] == taken;
    assert TakenIn(b, turns) == taken && LostIn(b, turns) == [q] && Streamed(b, turns) == (b1, notice);
    assert b.queue == [q] + rest;
    assert [] + [q] + b1.queue == [q] + rest + taken;
  }

  /** Whatever is offered meanwhile and wherever a write fails, at most the one flow whose write failed is lost. */
  lemma {:induction false} StreamLosesAtMostOne(b: Box, turns: seq<Turn>)
    ensures Conserves(b, turns)
    ensures |LostIn(b, turns)| <= 1 && ((forall i | 0 <= i < |turns| :: turns[i].writes) ==> LostIn(b, turns) == [])
    decreases |turns|
  {
    if turns != [] && b.queue != [] {
      if turns[0].writes {
        StreamLosesAtMostOne(Turned(b, turns[0]).0, turns[1..]);
        assert forall i | 0 <= i < |turns[1..]| :: turns[1..][i] == turns[i + 1];
        WrittenTurnConserves(b, turns);
      } else {
        FailedTurnConserves(b, turns);
      }
    }
  }

  /** Told of nothing but more, ending at this number. */
  ghost predicate Told(before: nat, notices: seq<nat>, now: nat) {
    var told := [before] + notices;
    M.Increasing(told) && told[|told| - 1] == now
  }

  lemma ToldMore(before: nat, now: nat, later: seq<nat>, end: nat)
    requires before <= now && Told(now, later, end)
    ensures Told(before, (if before == now then [] else [now]) + later, end)
  {
    if before == now {
      assert [] + later == later;
    } else {
      var told, tail := [before] + ([now] + later), [now] + later;
      forall i, j | 0 <= i < j < |told| ensures told[i] < told[j] {
        assert told[j] == tail[j - 1];
        assert i > 0 ==> told[i] == tail[i - 1];
        assert j > 1 ==> tail[0] < tail[j - 1];
      }
    }
  }

  /** The notices grow from what was reported before to what is reported now, which after a turn is the number of flows
      shed. */
  ghost predicate Tells(b: Box, turns: seq<Turn>) {
    var (b', frames) := Streamed(b, turns);
    && Told(b.reported, NoticesOf(frames), b'.reported) && b'.reported <= b'.dropped
    && (turns != [] && b.queue != [] ==> b'.reported == b'.dropped)
  }

  lemma TurnTells(b: Box, turns: seq<Turn>)
    requires b.reported <= b.dropped && turns != [] && b.queue != []
    requires turns[0].writes ==> Tells(Turned(b, turns[0]).0, turns[1..])
    ensures Tells(b, turns)
  {
    OfferedKeeps(b.(queue := b.queue[1..]), turns[0].offered);
    var (b1, notice) := Turned(b, turns[0]);
    if turns[0].writes {
      var (b2, frames) := Streamed(b1, turns[1..]);
      FramesOfTurn(notice, b.queue[0], frames);
      ToldMore(b.reported, b1.reported, NoticesOf(frames), b2.reported);
    } else {
      NoticeAlone(notice);
      ToldMore(b.reported, b1.reported, [], b1.reported);
      assert NoticesOf(notice) + [] == NoticesOf(notice);
    }
  }

  lemma {:induction false} StreamIsHonest(b: Box, turns: seq<Turn>)
    requires b.reported <= b.dropped
    ensures Tells(b, turns)
    decreases |turns|
  {
    if turns != [] && b.queue != [] {
      if turns[0].writes {
        StreamIsHonest(Turned(b, turns[0]).0, turns[1..]);
      }
      TurnTells(b, turns);
    }
  }
}
