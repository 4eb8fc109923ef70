/** internal/ca/leaf.go: the double-checked certificate cache under any number of interleaved
    callers. */
module LeafCache {
  import opened Wrappers
  import opened HostPort

  /** An issued leaf: the host it names and a serial of its own. */
  datatype Cert = Cert(host: string, serial: nat)

  /** Where a call of Leaf stands between its three atomic parts. */
  datatype Caller =
    | Looking(key: string)
    | Minting(key: string)
    | Storing(key: string, minted: Cert)
    | Returned(key: string, cert: Cert)
    | Failed(key: string)

  datatype Answer = Answer(key: string, cert: Cert)

  datatype State = State(
    cache: map<string, Cert>, callers: map<nat, Caller>, serials: nat, answers: seq<Answer>)

  datatype Label =
    | Call(i: nat, host: string)
    | Read(i: nat)
    | Mint(i: nat, ok: bool)
    | Store(i: nat)

  const START := State(map[], map[], 0, [])

  // ---- the atomic parts -----------------------------------------------------------------------

  /** The read under the shared lock. */
  function ReadCache(cache: map<string, Cert>, key: string): Option<Cert> {
    if key in cache then Some(cache[key]) else None
  }

  /** The re-check and store under the exclusive lock. */
  function StoreOnce(cache: map<string, Cert>, key: string, minted: Cert): (map<string, Cert>, Cert) {
    if key in cache then (cache, cache[key]) else (cache[key := minted], minted)
  }

  predicate Enabled(s: State, l: Label) {
    match l
    case Call(i, _) => i !in s.callers
    case Read(i) => i in s.callers && s.callers[i].Looking?
    case Mint(i, _) => i in s.callers && s.callers[i].Minting?
    case Store(i) => i in s.callers && s.callers[i].Storing?
  }

  function Step(s: State, l: Label): State
    requires Enabled(s, l)
  {
    match l
    case Call(i, host) => s.(callers := s.callers[i := Looking(HostOnly(host))])
    case Read(i) =>
      var key := s.callers[i].key;
      (match ReadCache(s.cache, key)
       case Some(c) => s.(callers := s.callers[i := Returned(key, c)], answers := s.answers + [Answer(key, c)])
       case None => s.(callers := s.callers[i := Minting(key)]))
    case Mint(i, ok) =>
      var key := s.callers[i].key;
      if ok then s.(callers := s.callers[i := Storing(key, Cert(key, s.serials))], serials := s.serials + 1)
      else s.(callers := s.callers[i := Failed(key)])
    case Store(i) =>
      var key := s.callers[i].key;
      var (cache, c) := StoreOnce(s.cache, key, s.callers[i].minted);
      s.(cache := cache, callers := s.callers[i := Returned(key, c)], answers := s.answers + [Answer(key, c)])
  }

  ghost predicate IsRun(s: State, run: seq<Label>)
    decreases |run|
  {
    run != [] ==> Enabled(s, run[0]) && IsRun(Step(s, run[0]), run[1..])
  }

  function After(s: State, run: seq<Label>): State
    requires IsRun(s, run)
    decreases |run|
  {
    if run == [] then s else After(Step(s, run[0]), run[1..])
  }

  // ---- the sequential memo table ----------------------------------------------------------------

  /** One lookup at a time: a key seen before gives the value given before, a new key gets whatever is
      minted for it.  None if the answers are not those of such a table. */
  function Replay(answers: seq<Answer>): Option<map<string, Cert>> {
    if answers == [] then Some(map[])
    else
      var last := answers[|answers| - 1];
      match Replay(answers[..|answers| - 1])
      case None => None
      case Some(table) =>
        if last.key in table then (if table[last.key] == last.cert then Some(table) else None)
        else if last.cert.host == last.key then Some(table[last.key := last.cert])
        else None
  }

  // ---- what every run keeps -----------------------------------------------------------------------

  ghost predicate Inv(s: State) {
    && Replay(s.answers) == Some(s.cache)
    && (forall k <- s.cache :: s.cache[k].host == k && s.cache[k].serial < s.serials)
    && (forall i <- s.callers :: match s.callers[i]
          case Storing(key, minted) => minted.host == key && minted.serial < s.serials
          case Returned(key, c) => key in s.cache && s.cache[key] == c
          case _ => true)
  }

  lemma ReplaySnoc(answers: seq<Answer>, a: Answer)
    ensures Replay(answers + [a]) ==
            match Replay(answers)
            case None => None
            case Some(table) =>
              if a.key in table then (if table[a.key] == a.cert then Some(table) else None)
              else if a.cert.host == a.key then Some(table[a.key := a.cert])
              else None
  {
    assert (answers + [a])[..|answers|] == answers;
  }

  /** Entries are never replaced or removed. */
  predicate Extends(later: map<string, Cert>, earlier: map<string, Cert>) {
    forall k <- earlier :: k in later && later[k] == earlier[k]
  }

  lemma CallKeepsInv(s: State, i: nat, host: string)
    requires Inv(s) && Enabled(s, Call(i, host))
    ensures Inv(Step(s, Call(i, host)))
  {
  }

  lemma ReadKeepsInv(s: State, i: nat)
    requires Inv(s) && Enabled(s, Read(i))
    ensures Inv(Step(s, Read(i)))
  {
    var key := s.callers[i].key;
    var s' := Step(s, Read(i));
    if key in s.cache {
      var c := s.cache[key];
      assert s' == s.(callers := s.callers[i := Returned(key, c)], answers := s.answers + [Answer(key, c)]);
      ReplaySnoc(s.answers, Answer(key, c));
    } else {
      assert s' == s.(callers := s.callers[i := Minting(key)]);
    }
    assert forall k <- s'.callers :: k != i ==> k in s.callers && s'.callers[k] == s.callers[k];
  }

  lemma MintKeepsInv(s: State, i: nat, ok: bool)
    requires Inv(s) && Enabled(s, Mint(i, ok))
    ensures Inv(Step(s, Mint(i, ok)))
  {
  }

  lemma StoreKeepsInv(s: State, i: nat)
    requires Inv(s) && Enabled(s, Store(i))
    ensures Inv(Step(s, Store(i)))
  {
    var key := s.callers[i].key;
    ReplaySnoc(s.answers, Answer(key, StoreOnce(s.cache, key, s.callers[i].minted).1));
  }

  lemma StepKeepsInv(s: State, l: Label)
    requires Inv(s) && Enabled(s, l)
    ensures Inv(Step(s, l)) && Extends(Step(s, l).cache, s.cache)
  {
    match l
    case Call(i, host) => CallKeepsInv(s, i, host);
    case Read(i) => ReadKeepsInv(s, i);
    case Mint(i, ok) => MintKeepsInv(s, i, ok);
    case Store(i) => StoreKeepsInv(s, i);
  }

  lemma {:induction false} RunKeepsInv(s: State, run: seq<Label>)
    requires Inv(s) && IsRun(s, run)
    ensures Inv(After(s, run)) && Extends(After(s, run).cache, s.cache)
    decreases |run|
  {
    if run != [] {
      StepKeepsInv(s, run[0]);
      RunKeepsInv(Step(s, run[0]), run[1..]);
    }
  }

  /** Linearizability: in every run the answers, in the order in which the calls took effect, are those
      of a sequential memo table, and the cache is that table. */
  lemma AnswersAreSequential(run: seq<Label>)
    requires IsRun(START, run)
    ensures var s := After(START, run); Replay(s.answers) == Some(s.cache)
  {
    RunKeepsInv(START, run);
  }

  /** All calls that ever succeed for one key return one certificate, and it names that key: a call that
      returned after `early` and one that returned after `early + late` agree. */
  lemma OneCertificatePerHost(early: seq<Label>, late: seq<Label>, i: nat, j: nat)
    requires IsRun(START, early) && IsRun(After(START, early), late)
    requires i in After(START, early).callers && After(START, early).callers[i].Returned?
    requires var s := After(After(START, early), late); j in s.callers && s.callers[j].Returned?
    requires After(START, early).callers[i].key == After(After(START, early), late).callers[j].key
    ensures var a := After(START, early).callers[i];
            var b := After(After(START, early), late).callers[j];
            a.cert == b.cert && a.cert.host == a.key
  {
    RunKeepsInv(START, early);
    RunKeepsInv(After(START, early), late);
  }

  /** The key of a call is the host it was made for, stripped of its port. */
  ghost predicate Asked(run: seq<Label>, i: nat, host: string) {
    exists n :: 0 <= n < |run| && run[n] == Call(i, host)
  }

  lemma {:induction false} KeyIsStrippedHost(s: State, run: seq<Label>, i: nat, host: string)
    requires IsRun(s, run) && Asked(run, i, host) && i !in s.callers
    ensures i in After(s, run).callers && After(s, run).callers[i].key == HostOnly(host)
    decreases |run|
  {
    var n :| 0 <= n < |run| && run[n] == Call(i, host);
    if n == 0 {
      KeyIsKept(Step(s, run[0]), run[1..], i);
    } else {
      assert run[1..][n - 1] == Call(i, host);
      assert Asked(run[1..], i, host);
      if i in Step(s, run[0]).callers {
        assert run[0].Call? && run[0].i == i;
        KeyIsKept(Step(s, run[0]), run[1..], i);
        CallsHappenOnce(Step(s, run[0]), run[1..], i, host);
      } else {
        KeyIsStrippedHost(Step(s, run[0]), run[1..], i, host);
      }
    }
  }

  lemma {:induction false} KeyIsKept(s: State, run: seq<Label>, i: nat)
    requires IsRun(s, run) && i in s.callers
    ensures i in After(s, run).callers && After(s, run).callers[i].key == s.callers[i].key
    decreases |run|
  {
    if run != [] {
      KeyIsKept(Step(s, run[0]), run[1..], i);
    }
  }

  lemma {:induction false} CallsHappenOnce(s: State, run: seq<Label>, i: nat, host: string)
    requires IsRun(s, run) && i in s.callers
    ensures !Asked(run, i, host)
    decreases |run|
  {
    if Asked(run, i, host) {
      var n :| 0 <= n < |run| && run[n] == Call(i, host);
      assert Enabled(s, run[0]);
      if n != 0 {
        assert run[1..][n - 1] == Call(i, host);
        CallsHappenOnce(Step(s, run[0]), run[1..], i, host);
      }
    }
  }

  /** A cached key, and where a call for it that began later stands: it has the cached certificate, or has yet to
      look. */
  ghost predicate ServedFromCache(s: State, i: nat, key: string, cert: Cert) {
    && key in s.cache && s.cache[key] == cert
    && (i in s.callers && s.callers[i].key == key ==>
          s.callers[i].Looking? || s.callers[i] == Returned(key, cert))
  }

  /** Once a host has its certificate, no call that begins later mints another: it returns that one from the cache. */
  lemma {:induction false} LaterCallsDoNotMint(s: State, run: seq<Label>, i: nat, key: string, cert: Cert)
    requires IsRun(s, run) && ServedFromCache(s, i, key, cert)
    ensures ServedFromCache(After(s, run), i, key, cert)
    decreases |run|
  {
    if run != [] {
      LaterCallsDoNotMint(Step(s, run[0]), run[1..], i, key, cert);
    }
  }

  predicate StandsAt(s: State, i: nat, caller: Caller) {
    i in s.callers && s.callers[i] == caller
  }

  /** A call that nobody disturbs ends after a look at the cache, or a mint and a store: it has what the cache had, or a
      new certificate for the host, which the cache then has; if the mint fails, so does the call, and nothing has
      changed. */
  lemma UndisturbedCall(s: State, i: nat, host: string, ok: bool)
    requires i !in s.callers
    ensures var key := HostOnly(host);
            if key in s.cache then
              && IsRun(s, [Call(i, host), Read(i)])
              && var s' := After(s, [Call(i, host), Read(i)]);
                 StandsAt(s', i, Returned(key, s.cache[key])) && s'.cache == s.cache && s'.serials == s.serials
            else if ok then
              && IsRun(s, [Call(i, host), Read(i), Mint(i, true), Store(i)])
              && var s' := After(s, [Call(i, host), Read(i), Mint(i, true), Store(i)]);
                 var cert := Cert(key, s.serials);
                 StandsAt(s', i, Returned(key, cert)) && s'.cache == s.cache[key := cert]
            else
              && IsRun(s, [Call(i, host), Read(i), Mint(i, false)])
              && var s' := After(s, [Call(i, host), Read(i), Mint(i, false)]);
                 StandsAt(s', i, Failed(key)) && s'.cache == s.cache && s'.answers == s.answers
  {
    var s2 := Step(Step(s, Call(i, host)), Read(i));
    RunsTwo(s, Call(i, host), Read(i));
    if HostOnly(host) !in s.cache {
      if ok {
        RunsTwo(s2, Mint(i, true), Store(i));
        assert [Call(i, host), Read(i), Mint(i, true), Store(i)]
            == [Call(i, host), Read(i)] + [Mint(i, true), Store(i)];
        RunAppend(s, [Call(i, host), Read(i)], [Mint(i, true), Store(i)]);
      } else {
        assert [Mint(i, false)][1..] == [];
        assert [Call(i, host), Read(i), Mint(i, false)] == [Call(i, host), Read(i)] + [Mint(i, false)];
        RunAppend(s, [Call(i, host), Read(i)], [Mint(i, false)]);
      }
    }
  }

  lemma RunsTwo(s: State, a: Label, b: Label)
    requires Enabled(s, a) && Enabled(Step(s, a), b)
    ensures IsRun(s, [a, b]) && After(s, [a, b]) == Step(Step(s, a), b)
  {
    assert [a, b][1..] == [b] && [b][1..] == [];
    assert IsRun(Step(s, a), [b]) && After(Step(s, a), [b]) == Step(Step(s, a), b);
  }

  lemma {:induction false} RunAppend(s: State, a: seq<Label>, b: seq<Label>)
    requires IsRun(s, a) && IsRun(After(s, a), b)
    ensures IsRun(s, a + b) && After(s, a + b) == After(After(s, a), b)
    decreases |a|
  {
    if a == [] {
      assert a + b == b;
    } else {
      assert (a + b)[1..] == a[1..] + b;
      RunAppend(Step(s, a[0]), a[1..], b);
    }
  }

  // ---- the object ------------------------------------------------------------------------------------

  class Authority {
    var cache: map<string, Cert>
    var serials: nat

    constructor ()
      ensures cache == map[] && serials == 0
    {
      cache, serials := map[], 0;
    }

    method MintLeaf(key: string, ok: bool) returns (c: Option<Cert>)
      modifies this`serials
      ensures if ok then c == Some(Cert(key, old(serials))) && serials == old(serials) + 1
              else c == None && serials == old(serials)
    {
      if !ok {
        return None;
      }
      c := Some(Cert(key, serials));
      serials := serials + 1;
    }

    /** One call of Leaf.  `between` is what other callers store while it mints outside the lock: they
        add entries and never replace one. */
    method Leaf(host: string, ok: bool, between: map<string, Cert>) returns (c: Option<Cert>)
      modifies this
      ensures forall k <- old(cache) :: k in cache && cache[k] == old(cache)[k]
      ensures c.Some? ==> HostOnly(host) in cache && c.value == cache[HostOnly(host)]
      ensures c.None? <==> HostOnly(host) !in old(cache) && !ok
      ensures HostOnly(host) in old(cache) ==> cache == old(cache)
      ensures HostOnly(host) !in old(cache) ==>
                cache == if ok then map[HostOnly(host) := Cert(HostOnly(host), old(serials))] + between + old(cache)
                         else between + old(cache)
    {
      var key := HostOnly(host);
      var hit := ReadCache(cache, key);
      if hit.Some? {
        return hit;
      }
      var minted := MintLeaf(key, ok);
      cache := between + cache;
      if minted.None? {
        return None;
      }
      if key in cache {
        return Some(cache[key]);
      }
      cache := cache[key := minted.value];
      return minted;
    }
  }
}
