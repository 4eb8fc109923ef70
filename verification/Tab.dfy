/** The browser's list of flows (internal/ui/app/app.js) and the server history it starts from. */
module Tab {
  import M = HubMachine

  /** `order` is the list on screen, newest first. */
  datatype View = View(flows: map<nat, M.Flow>, order: seq<nat>)

  const EMPTY := View(map[], [])

  function Add(v: View, f: M.Flow): View {
    View(v.flows[f.id := f], if f.id in v.flows then v.order else [f.id] + v.order)
  }

  /** loadHistory walks the server's list from its end. */
  function Load(v: View, list: seq<M.Flow>): View {
    if list == [] then v else Add(Load(v, list[1..]), list[0])
  }

  datatype Action = Arrives(f: M.Flow) | History(list: seq<M.Flow>) | Clear

  function Act(v: View, a: Action): View {
    match a
    case Arrives(f) => Add(v, f)
    case History(list) => Load(v, list)
    case Clear => EMPTY
  }

  function ActAll(v: View, actions: seq<Action>): View
    decreases |actions|
  {
    if actions == [] then v else ActAll(Act(v, actions[0]), actions[1..])
  }

  /** The list shows each known flow once. */
  ghost predicate Consistent(v: View) {
    && M.NoDuplicates(v.order)
    && (forall id: nat :: id in v.order <==> id in v.flows)
    && (forall id <- v.flows :: v.flows[id].id == id)
  }

  lemma AddKeepsConsistent(v: View, f: M.Flow)
    requires Consistent(v)
    ensures Consistent(Add(v, f))
  {
    if f.id !in v.flows {
      assert f.id !in v.order;
    }
  }

  lemma {:induction false} LoadKeepsConsistent(v: View, list: seq<M.Flow>)
    requires Consistent(v)
    ensures Consistent(Load(v, list))
  {
    if list != [] {
      LoadKeepsConsistent(v, list[1..]);
      AddKeepsConsistent(Load(v, list[1..]), list[0]);
    }
  }

  lemma {:induction false} ActionsKeepConsistent(v: View, actions: seq<Action>)
    requires Consistent(v)
    ensures Consistent(ActAll(v, actions))
    decreases |actions|
  {
    if actions != [] {
      match actions[0] {
        case Arrives(f) => AddKeepsConsistent(v, f);
        case History(list) => LoadKeepsConsistent(v, list);
        case Clear =>
      }
      ActionsKeepConsistent(Act(v, actions[0]), actions[1..]);
    }
  }

  function Ids(list: seq<M.Flow>): (r: seq<nat>)
    ensures |r| == |list| && forall i | 0 <= i < |r| :: r[i] == list[i].id
  {
    if list == [] then [] else [list[0].id] + Ids(list[1..])
  }

  lemma TailHasDistinctIds(list: seq<M.Flow>)
    requires list != [] && M.DistinctIds(list)
    ensures M.DistinctIds(list[1..]) && list[0].id !in Ids(list[1..])
  {
    var rest := list[1..];
    assert forall i | 0 <= i < |rest| :: rest[i] == list[i + 1];
    assert forall i | 0 <= i < |rest| :: Ids(rest)[i] == list[i + 1].id;
  }

  lemma {:induction false} LoadShowsList(list: seq<M.Flow>)
    requires M.DistinctIds(list)
    ensures Load(EMPTY, list).order == Ids(list)
    ensures forall id: nat :: id in Load(EMPTY, list).flows <==> id in Ids(list)
    ensures forall f <- list :: f.id in Load(EMPTY, list).flows && Load(EMPTY, list).flows[f.id] == f
  {
    if list != [] {
      var rest := list[1..];
      TailHasDistinctIds(list);
      LoadShowsList(rest);
      assert Ids(list) == [list[0].id] + Ids(rest);
      forall f <- list ensures f.id in Load(EMPTY, list).flows && Load(EMPTY, list).flows[f.id] == f {
        if f in rest {
          var i :| 0 <= i < |rest| && rest[i] == f;
          assert Ids(rest)[i] == f.id;
        }
      }
    }
  }

  /** A tab opened after any run of the server, if ids are distinct, lists exactly the last flows emitted, newest
      first; and whatever then arrives, is reloaded or is cleared, it never lists a flow twice or one it does not
      know. */
  lemma OpenedTabShowsTail(history: int, run: seq<M.Label>, later: seq<Action>)
    requires M.IsRun(M.New(history), run)
    requires M.DistinctIds(M.After(M.New(history), run).log)
    ensures var h := M.After(M.New(history), run);
            var v := Load(EMPTY, M.NewestFirst(h.ring));
            && |v.order| == M.Min(|h.log|, if history < 1 then 1 else history)
            && (forall i | 0 <= i < |v.order| :: v.order[i] == h.log[|h.log| - 1 - i].id)
            && Consistent(ActAll(v, later))
  {
    M.HistoryIsTail(history, run);
    var h := M.After(M.New(history), run);
    var list := M.NewestFirst(h.ring);
    TailIsDistinct(h.log, list);
    LoadShowsList(list);
    LoadKeepsConsistent(EMPTY, list);
    ActionsKeepConsistent(Load(EMPTY, list), later);
  }

  lemma TailIsDistinct(log: seq<M.Flow>, list: seq<M.Flow>)
    requires M.DistinctIds(log) && |list| <= |log|
    requires forall i | 0 <= i < |list| :: list[i] == log[|log| - 1 - i]
    ensures M.DistinctIds(list)
  {
    forall i, j | 0 <= i < j < |list| ensures list[i].id != list[j].id {
      assert log[|log| - 1 - j].id != log[|log| - 1 - i].id;
    }
  }

  // ---- what a tab shows over time -----------------------------------------------------------------

  /** What an action brings, oldest first. */
  function Brought(a: Action): seq<M.Flow> {
    match a
    case Arrives(f) => [f]
    case History(list) => Reversed(list)
    case Clear => []
  }

  function Reversed(list: seq<M.Flow>): seq<M.Flow> {
    if list == [] then [] else Reversed(list[1..]) + [list[0]]
  }

  /** Everything brought since the list was last cleared. */
  function SinceClear(actions: seq<Action>): seq<M.Flow> {
    if actions == [] then []
    else
      var last := actions[|actions| - 1];
      if last.Clear? then [] else SinceClear(actions[..|actions| - 1]) + Brought(last)
  }

  /** Flow `i` is the last version of its id. */
  predicate IsLatest(fs: seq<M.Flow>, i: nat)
    requires i < |fs|
  {
    forall j | i < j < |fs| :: fs[j].id != fs[i].id
  }

  /** Flow `i` is the first with its id. */
  predicate IsFirst(fs: seq<M.Flow>, i: nat)
    requires i < |fs|
  {
    forall j | 0 <= j < i :: fs[j].id != fs[i].id
  }

  predicate Listed(order: seq<nat>, newer: nat, older: nat) {
    exists p, q :: 0 <= p < q < |order| && order[p] == newer && order[q] == older
  }

  /** The list has the ids of these flows, each once, the one that came first lowest; each shows its latest version. */
  ghost predicate Shows(v: View, fs: seq<M.Flow>) {
    && Consistent(v)
    && (forall id <- v.flows :: exists i :: 0 <= i < |fs| && fs[i].id == id)
    && (forall i | 0 <= i < |fs| :: fs[i].id in v.flows && (IsLatest(fs, i) ==> v.flows[fs[i].id] == fs[i]))
    && (forall i, j | 0 <= i < j < |fs| && IsFirst(fs, i) && IsFirst(fs, j) :: Listed(v.order, fs[j].id, fs[i].id))
  }

  lemma ListedStays(order: seq<nat>, id: nat, newer: nat, older: nat)
    requires Listed(order, newer, older)
    ensures Listed([id] + order, newer, older)
  {
    var p, q :| 0 <= p < q < |order| && order[p] == newer && order[q] == older;
    assert ([id] + order)[p + 1] == newer && ([id] + order)[q + 1] == older;
  }

  lemma FirstStays(fs: seq<M.Flow>, f: M.Flow, i: nat)
    requires i < |fs|
    ensures IsFirst(fs + [f], i) <==> IsFirst(fs, i)
    ensures IsLatest(fs + [f], i) <==> IsLatest(fs, i) && f.id != fs[i].id
  {
    var fs' := fs + [f];
    assert fs'[|fs|] == f;
    assert forall j | 0 <= j < |fs| :: fs'[j] == fs[j];
  }

  lemma TopIsListed(order: seq<nat>, id: nat, older: nat)
    requires older in order
    ensures Listed([id] + order, id, older)
  {
    var q :| 0 <= q < |order| && order[q] == older;
    assert ([id] + order)[0] == id && ([id] + order)[q + 1] == older;
  }

  lemma AddShows(v: View, fs: seq<M.Flow>, f: M.Flow)
    requires Shows(v, fs)
    ensures Shows(Add(v, f), fs + [f])
  {
    var v', fs' := Add(v, f), fs + [f];
    AddKeepsConsistent(v, f);
    forall i | 0 <= i < |fs'| ensures fs'[i].id in v'.flows && (IsLatest(fs', i) ==> v'.flows[fs'[i].id] == fs'[i]) {
      if i < |fs| {
        FirstStays(fs, f, i);
      }
    }
    forall id <- v'.flows ensures exists i :: 0 <= i < |fs'| && fs'[i].id == id {
      if id == f.id {
        assert fs'[|fs|].id == id;
      } else {
        var i :| 0 <= i < |fs| && fs[i].id == id;
        assert fs'[i].id == id;
      }
    }
    forall i, j | 0 <= i < j < |fs'| && IsFirst(fs', i) && IsFirst(fs', j)
      ensures Listed(v'.order, fs'[j].id, fs'[i].id)
    {
      FirstStays(fs, f, i);
      if j < |fs| {
        FirstStays(fs, f, j);
        if f.id !in v.flows {
          ListedStays(v.order, f.id, fs[j].id, fs[i].id);
        }
      } else {
        assert forall k | 0 <= k < |fs| :: fs'[k] == fs[k];
        assert f.id !in v.flows;
        TopIsListed(v.order, f.id, fs[i].id);
      }
    }
  }

  lemma {:induction false} LoadShows(v: View, fs: seq<M.Flow>, list: seq<M.Flow>)
    requires Shows(v, fs)
    ensures Shows(Load(v, list), fs + Reversed(list))
  {
    if list == [] {
      assert fs + Reversed(list) == fs;
    } else {
      LoadShows(v, fs, list[1..]);
      AddShows(Load(v, list[1..]), fs + Reversed(list[1..]), list[0]);
      assert fs + Reversed(list) == fs + Reversed(list[1..]) + [list[0]];
    }
  }

  lemma {:induction false} ActAllSnoc(v: View, actions: seq<Action>, a: Action)
    ensures ActAll(v, actions + [a]) == Act(ActAll(v, actions), a)
    decreases |actions|
  {
    if actions == [] {
      assert ([] + [a])[1..] == [];
    } else {
      assert (actions + [a])[1..] == actions[1..] + [a];
      ActAllSnoc(Act(v, actions[0]), actions[1..], a);
    }
  }

  /** Whatever arrives, is reloaded and is cleared, in any order: the list shows exactly the flows brought since it was
      last cleared, each once, in the order in which they first came, newest on top, and each in its latest version. */
  lemma {:induction false} TabShowsWhatCame(actions: seq<Action>)
    ensures Shows(ActAll(EMPTY, actions), SinceClear(actions))
    decreases |actions|
  {
    if actions != [] {
      var front, last := actions[..|actions| - 1], actions[|actions| - 1];
      TabShowsWhatCame(front);
      ActAllSnoc(EMPTY, front, last);
      assert front + [last] == actions;
      match last
      case Arrives(f) => AddShows(ActAll(EMPTY, front), SinceClear(front), f);
      case History(list) => LoadShows(ActAll(EMPTY, front), SinceClear(front), list);
      case Clear =>
    }
  }

  // ---- the page's state ---------------------------------------------------------------------------

  class Page {
    var flows: map<nat, M.Flow>
    var order: seq<nat>

    ghost function State(): View
      reads this
    {
      View(flows, order)
    }

    constructor ()
      ensures State() == EMPTY
    {
      flows, order := map[], [];
    }

    method AddFlow(f: M.Flow)
      modifies this
      ensures State() == Add(old(State()), f)
    {
      if f.id !in flows {
        order := [f.id] + order;
      }
      flows := flows[f.id := f];
    }

    method LoadHistory(list: seq<M.Flow>)
      modifies this
      ensures State() == Load(old(State()), list)
    {
      var i := |list|;
      assert list[i..] == [];
      while i > 0
        invariant 0 <= i <= |list|
        invariant State() == Load(old(State()), list[i..])
      {
        i := i - 1;
        assert list[i..][0] == list[i] && list[i..][1..] == list[i + 1..];
        AddFlow(list[i]);
      }
      assert list[0..] == list;
    }

    method ClearAll()
      modifies this
      ensures State() == EMPTY
    {
      flows := map[];
      order := [];
    }
  }
}
