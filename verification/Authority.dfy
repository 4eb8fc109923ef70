/** internal/ca/authority.go: generating, persisting and reloading the root CA, with every file operation
    able to fail, to stop half-way, or to be the last thing the process does. */
module Authority {
  import opened Wrappers

  type Bytes = seq<bv8>

  /** A certificate carries the public half of a key; keys are named by that public half. */
  datatype Cert = Cert(serial: nat, pub: nat)

  /** PEM and X.509, seen from outside. */
  datatype Pem = Pem(
    certText: Cert -> Bytes, keyText: nat -> Bytes,
    parseCert: Bytes -> Option<Cert>, parseKey: Bytes -> Option<nat>)

  /** Texts read back, and a cut-off text is either rejected or still complete. */
  ghost predicate PemOk(pem: Pem) {
    && (forall c: Cert :: pem.parseCert(pem.certText(c)) == Some(c))
    && (forall k: nat :: pem.parseKey(pem.keyText(k)) == Some(k))
    && (forall c: Cert, n: nat | n <= |pem.certText(c)| :: pem.parseCert(pem.certText(c)[..n]) in {None, Some(c)})
    && (forall k: nat, n: nat | n <= |pem.keyText(k)| :: pem.parseKey(pem.keyText(k)[..n]) in {None, Some(k)})
  }

  /** How a step ends.  A write that does not succeed may have left the file alone, or left it with that many
      bytes of the text. */
  datatype Outcome = Ok | Fail(wrote: Option<nat>) | Crash(wrote: Option<nat>)

  datatype Status = Done | Errored | Crashed

  datatype Disk = Disk(crt: Option<Bytes>, key: Option<Bytes>, tape: seq<Outcome>) {
    function Next(): Outcome {
      if tape == [] then Ok else tape[0]
    }

    function Advance(): Disk {
      if tape == [] then this else this.(tape := tape[1..])
    }

    function With(t: seq<Outcome>): Disk {
      this.(tape := t)
    }
  }

  datatype Result = Loaded(cert: Cert, key: nat) | Refused | Gone

  function StatusOf(o: Outcome): Status {
    match o case Ok => Done case Fail(_) => Errored case Crash(_) => Crashed
  }

  function NotDone(st: Status): Result {
    if st.Crashed? then Gone else Refused
  }

  /** Steps that change no CA file: stat, read, mkdir, chmod, key generation. */
  function Steps(d: Disk, n: nat): (Disk, Status)
    decreases n
  {
    if n == 0 then (d, Done)
    else if StatusOf(d.Next()).Done? then Steps(d.Advance(), n - 1)
    else (d.Advance(), StatusOf(d.Next()))
  }

  /** What os.WriteFile leaves in a file. */
  function Written(before: Option<Bytes>, text: Bytes, o: Outcome): Option<Bytes> {
    if o.Ok? then Some(text)
    else
      match o.wrote
      case None => before
      case Some(n) => Some(if n <= |text| then text[..n] else text)
  }

  function WriteKey(d: Disk, text: Bytes): (Disk, Status) {
    (d.Advance().(key := Written(d.key, text, d.Next())), StatusOf(d.Next()))
  }

  function WriteCrt(d: Disk, text: Bytes): (Disk, Status) {
    (d.Advance().(crt := Written(d.crt, text, d.Next())), StatusOf(d.Next()))
  }

  /** mkdir and chmod, the key and its chmod, the certificate and its chmod. */
  function Persist(d: Disk, certText: Bytes, keyText: Bytes): (Disk, Status) {
    var (d1, st1) := Steps(d, 2);
    if !st1.Done? then (d1, st1)
    else
      var (d2, st2) := WriteKey(d1, keyText);
      if !st2.Done? then (d2, st2)
      else
        var (d3, st3) := Steps(d2, 1);
        if !st3.Done? then (d3, st3)
        else
          var (d4, st4) := WriteCrt(d3, certText);
          if !st4.Done? then (d4, st4) else Steps(d4, 1)
  }

  function GenerateInto(d: Disk, pem: Pem, made: Cert): (Disk, Result) {
    var (d1, st1) := Steps(d, 1);
    if !st1.Done? then (d1, NotDone(st1))
    else
      var (d2, st2) := Persist(d1, pem.certText(made), pem.keyText(made.pub));
      (d2, if st2.Done? then Loaded(made, made.pub) else NotDone(st2))
  }

  function LoadFrom(d: Disk, pem: Pem): (Disk, Result)
    requires d.crt.Some? && d.key.Some?
  {
    var (d1, st1) := Steps(d, 2);
    if !st1.Done? then (d1, NotDone(st1))
    else
      match (pem.parseCert(d.crt.value), pem.parseKey(d.key.value))
      case (Some(c), Some(k)) => (d1, if c.pub == k then Loaded(c, k) else Refused)
      case _ => (d1, Refused)
  }

  /** Load: two stats, one of the four on-disk states, and the shared leaf key. */
  function Load(d: Disk, pem: Pem, made: Cert): (Disk, Result) {
    var (d1, st1) := Steps(d, 2);
    if !st1.Done? then (d1, NotDone(st1))
    else if d.crt.Some? != d.key.Some? then (d1, Refused)
    else
      var (d2, r) := if d.crt.Some? then LoadFrom(d1, pem) else GenerateInto(d1, pem, made);
      if !r.Loaded? then (d2, r)
      else
        var (d3, st3) := Steps(d2, 1);
        (d3, if st3.Done? then r else NotDone(st3))
  }

  // ---- one Load ------------------------------------------------------------------------------------

  predicate SameFiles(a: Disk, b: Disk) {
    a.crt == b.crt && a.key == b.key
  }

  lemma StepsKeepFiles(d: Disk, n: nat)
    ensures SameFiles(Steps(d, n).0, d)
    decreases n
  {
  }

  /** No Load alters a CA file that exists, or adds the other half of a pair, whatever happens to it. */
  lemma LoadNeverAlters(d: Disk, pem: Pem, made: Cert)
    requires d.crt.Some? || d.key.Some?
    ensures SameFiles(Load(d, pem, made).0, d)
  {
    StepsKeepFiles(d, 2);
    var d1 := Steps(d, 2).0;
    if d1.crt.Some? && d1.key.Some? {
      StepsKeepFiles(d1, 2);
      StepsKeepFiles(LoadFrom(d1, pem).0, 1);
    }
  }

  /** Half a CA is refused, for good. */
  lemma HalfPresentIsRefused(d: Disk, pem: Pem, made: Cert)
    requires d.crt.Some? != d.key.Some?
    ensures var (d', r) := Load(d, pem, made); !r.Loaded? && SameFiles(d', d)
  {
    LoadNeverAlters(d, pem, made);
  }

  /** The files say that the CA is `r`. */
  ghost predicate Holds(d: Disk, pem: Pem, r: Result) {
    && r.Loaded? && r.cert.pub == r.key
    && d.crt.Some? && d.key.Some?
    && pem.parseCert(d.crt.value) == Some(r.cert) && pem.parseKey(d.key.value) == Some(r.key)
  }

  lemma PersistStatus(d: Disk, certText: Bytes, keyText: Bytes)
    ensures var (d', st) := Persist(d, certText, keyText);
            st.Done? ==> d'.crt == Some(certText) && d'.key == Some(keyText)
  {
    StepsKeepFiles(d, 2);
    var d2 := WriteKey(Steps(d, 2).0, keyText).0;
    StepsKeepFiles(d2, 1);
    StepsKeepFiles(WriteCrt(Steps(d2, 1).0, certText).0, 1);
  }

  /** A Load that succeeds returns what the files then say. */
  lemma SuccessIsOnDisk(d: Disk, pem: Pem, made: Cert)
    requires PemOk(pem)
    ensures var (d', r) := Load(d, pem, made); r.Loaded? ==> Holds(d', pem, r)
  {
    StepsKeepFiles(d, 2);
    var d1 := Steps(d, 2).0;
    if d1.crt.Some? && d1.key.Some? {
      StepsKeepFiles(d1, 2);
      StepsKeepFiles(LoadFrom(d1, pem).0, 1);
    } else if d1.crt.None? && d1.key.None? {
      PersistStatus(Steps(d1, 1).0, pem.certText(made), pem.keyText(made.pub));
      StepsKeepFiles(GenerateInto(d1, pem, made).0, 1);
    }
  }

  /** From files that say `r`, a Load that succeeds returns `r` and leaves them so. */
  lemma HeldIsReturned(d: Disk, pem: Pem, made: Cert, r: Result)
    requires Holds(d, pem, r)
    ensures var (d', r') := Load(d, pem, made); (r'.Loaded? ==> r' == r) && Holds(d', pem, r)
  {
    LoadNeverAlters(d, pem, made);
    StepsKeepFiles(d, 2);
    var d1 := Steps(d, 2).0;
    StepsKeepFiles(d1, 2);
  }

  // ---- any number of Loads ---------------------------------------------------------------------------

  /** One process: the certificate it would generate, and how its steps end. */
  datatype Process = Process(made: Cert, tape: seq<Outcome>)

  function Results(d: Disk, pem: Pem, ps: seq<Process>): (rs: seq<Result>)
    ensures |rs| == |ps|
    decreases |ps|
  {
    if ps == [] then []
    else var (d', r) := Load(d.With(ps[0].tape), pem, ps[0].made); [r] + Results(d', pem, ps[1..])
  }

  function DiskAfter(d: Disk, pem: Pem, ps: seq<Process>): Disk
    decreases |ps|
  {
    if ps == [] then d
    else DiskAfter(Load(d.With(ps[0].tape), pem, ps[0].made).0, pem, ps[1..])
  }

  /** All loads that succeeded agree. */
  predicate Agree(rs: seq<Result>) {
    forall i, j | 0 <= i < j < |rs| :: rs[i].Loaded? && rs[j].Loaded? ==> rs[i] == rs[j]
  }

  predicate AllLoadedAre(rs: seq<Result>, r: Result) {
    forall i | 0 <= i < |rs| :: rs[i].Loaded? ==> rs[i] == r
  }

  lemma AgreeCons(r: Result, later: seq<Result>)
    requires Agree(later) && (r.Loaded? ==> AllLoadedAre(later, r))
    ensures Agree([r] + later)
  {
  }

  lemma {:induction false} HeldForever(d: Disk, pem: Pem, ps: seq<Process>, r: Result)
    requires Holds(d, pem, r)
    ensures AllLoadedAre(Results(d, pem, ps), r)
    ensures Holds(DiskAfter(d, pem, ps), pem, r)
    decreases |ps|
  {
    if ps != [] {
      HeldIsReturned(d.With(ps[0].tape), pem, ps[0].made, r);
      HeldForever(Load(d.With(ps[0].tape), pem, ps[0].made).0, pem, ps[1..], r);
    }
  }

  /** Stability: from any directory, through any sequence of Loads that fail, crash or tear files in any way,
      all Loads that succeed return one and the same certificate and key. */
  lemma {:induction false} OneCaForever(d: Disk, pem: Pem, ps: seq<Process>)
    requires PemOk(pem)
    ensures Agree(Results(d, pem, ps))
    decreases |ps|
  {
    if ps != [] {
      var (d', r) := Load(d.With(ps[0].tape), pem, ps[0].made);
      SuccessIsOnDisk(d.With(ps[0].tape), pem, ps[0].made);
      OneCaForever(d', pem, ps[1..]);
      if r.Loaded? {
        HeldForever(d', pem, ps[1..], r);
      }
      AgreeCons(r, Results(d', pem, ps[1..]));
    }
  }

  // ---- directories that only Load has written ----------------------------------------------------------

  /** Nothing, an interrupted key, or a whole key with an interrupted or whole certificate for that key. */
  ghost predicate OwnWork(d: Disk, pem: Pem) {
    || (d.crt.None? && d.key.None?)
    || (d.crt.None? && exists k: nat, n: nat :: n <= |pem.keyText(k)| && d.key == Some(pem.keyText(k)[..n]))
    || (exists c: Cert, n: nat ::
          n <= |pem.certText(c)| && d.crt == Some(pem.certText(c)[..n]) && d.key == Some(pem.keyText(c.pub)))
  }

  lemma WrittenIsPrefix(text: Bytes, o: Outcome)
    ensures Written(None, text, o).Some? ==> exists n: nat :: n <= |text| && Written(None, text, o) == Some(text[..n])
  {
    assert text[..|text|] == text;
  }

  lemma GeneratedIsOwnWork(d: Disk, pem: Pem, made: Cert)
    requires d.crt.None? && d.key.None?
    ensures OwnWork(Persist(d, pem.certText(made), pem.keyText(made.pub)).0, pem)
  {
    StepsKeepFiles(d, 2);
    var d1 := Steps(d, 2).0;
    WrittenIsPrefix(pem.keyText(made.pub), d1.Next());
    var (d2, st2) := WriteKey(d1, pem.keyText(made.pub));
    StepsKeepFiles(d2, 1);
    var d3 := Steps(d2, 1).0;
    WrittenIsPrefix(pem.certText(made), d3.Next());
    var d4 := WriteCrt(d3, pem.certText(made)).0;
    StepsKeepFiles(d4, 1);
  }

  lemma LoadKeepsOwnWork(d: Disk, pem: Pem, made: Cert)
    requires OwnWork(d, pem)
    ensures OwnWork(Load(d, pem, made).0, pem)
  {
    StepsKeepFiles(d, 2);
    if d.crt.Some? || d.key.Some? {
      LoadNeverAlters(d, pem, made);
    } else {
      var d1 := Steps(d, 2).0;
      StepsKeepFiles(d1, 1);
      GeneratedIsOwnWork(Steps(d1, 1).0, pem, made);
      StepsKeepFiles(GenerateInto(d1, pem, made).0, 1);
    }
  }

  lemma {:induction false} RunKeepsOwnWork(d: Disk, pem: Pem, ps: seq<Process>)
    requires OwnWork(d, pem)
    ensures OwnWork(DiskAfter(d, pem, ps), pem)
    decreases |ps|
  {
    if ps != [] {
      LoadKeepsOwnWork(d.With(ps[0].tape), pem, ps[0].made);
      RunKeepsOwnWork(Load(d.With(ps[0].tape), pem, ps[0].made).0, pem, ps[1..]);
    }
  }

  /** Starting from an empty directory, the certificate file never belongs to another key than the key file: a
      Load in which every step goes well either generates (nothing there), or returns the pair on disk, and
      fails exactly when a file is missing or was torn beyond reading. */
  lemma OwnWorkLoads(pem: Pem, ps: seq<Process>, made: Cert)
    requires PemOk(pem)
    ensures var d := DiskAfter(Disk(None, None, []), pem, ps).With([]);
            var (d', r) := Load(d, pem, made);
            if d.crt.None? && d.key.None? then r == Loaded(made, made.pub)
            else r.Loaded? <==> d.crt.Some? && d.key.Some? && pem.parseCert(d.crt.value).Some?
  {
    RunKeepsOwnWork(Disk(None, None, []), pem, ps);
    var d := DiskAfter(Disk(None, None, []), pem, ps).With([]);
    StepsWithoutTrouble(d, 2);
    if d.crt.Some? && d.key.Some? {
      StepsWithoutTrouble(d, 1);
      assert pem.parseKey(d.key.value).Some?;
    } else if d.crt.None? && d.key.None? {
      StepsWithoutTrouble(d, 1);
      UndisturbedPersist(d, pem.certText(made), pem.keyText(made.pub));
      StepsWithoutTrouble(GenerateInto(d, pem, made).0, 1);
    }
  }

  lemma StepsWithoutTrouble(d: Disk, n: nat)
    requires d.tape == []
    ensures Steps(d, n) == (d, Done)
    decreases n
  {
  }

  lemma UndisturbedPersist(d: Disk, certText: Bytes, keyText: Bytes)
    requires d.tape == []
    ensures Persist(d, certText, keyText) == (Disk(Some(certText), Some(keyText), []), Done)
  {
    StepsWithoutTrouble(d, 2);
    var d2 := WriteKey(d, keyText).0;
    StepsWithoutTrouble(d2, 1);
    StepsWithoutTrouble(WriteCrt(d2, certText).0, 1);
  }

  // ---- where a first Load stops ---------------------------------------------------------------------------

  /** Step `n` of this tape is the first that does not go well. */
  predicate TroubleAt(tape: seq<Outcome>, n: nat) {
    n < |tape| && !tape[n].Ok? && forall i | 0 <= i < n :: tape[i].Ok?
  }

  lemma {:induction false} StepsUpToTrouble(d: Disk, k: nat, n: nat)
    requires TroubleAt(d.tape, n)
    ensures var (d', st) := Steps(d, k);
            && SameFiles(d', d)
            && if k <= n then st.Done? && TroubleAt(d'.tape, n - k) && d'.tape[n - k] == d.tape[n]
               else st == StatusOf(d.tape[n])
    decreases k
  {
    if k > 0 && n > 0 {
      StepsUpToTrouble(d.Advance(), k - 1, n - 1);
    }
  }

  lemma StepBeforeTrouble(d: Disk, n: nat)
    requires TroubleAt(d.tape, n) && n > 0
    ensures d.Next().Ok? && TroubleAt(d.Advance().tape, n - 1) && d.Advance().tape[n - 1] == d.tape[n]
  {
    assert forall i | 0 <= i < n - 1 :: d.tape[1..][i] == d.tape[i + 1];
  }

  lemma PersistUpToTrouble(d: Disk, certText: Bytes, keyText: Bytes, n: nat)
    requires TroubleAt(d.tape, n)
    ensures var (d', st) := Persist(d, certText, keyText);
            && d'.key == (if n < 2 then d.key else if n == 2 then Written(d.key, keyText, d.tape[n]) else Some(keyText))
            && d'.crt == (if n < 4 then d.crt
                          else if n == 4 then Written(d.crt, certText, d.tape[n])
                          else Some(certText))
            && if n < 6 then st == StatusOf(d.tape[n])
               else st.Done? && TroubleAt(d'.tape, n - 6) && d'.tape[n - 6] == d.tape[n]
  {
    StepsUpToTrouble(d, 2, n);
    if n >= 3 {
      var d1 := Steps(d, 2).0;
      StepBeforeTrouble(d1, n - 2);
      var d2 := WriteKey(d1, keyText).0;
      StepsUpToTrouble(d2, 1, n - 3);
      if n >= 5 {
        var d3 := Steps(d2, 1).0;
        StepBeforeTrouble(d3, n - 4);
        StepsUpToTrouble(WriteCrt(d3, certText).0, 1, n - 5);
      }
    }
  }

  lemma GenerateUpToTrouble(d: Disk, pem: Pem, made: Cert, n: nat)
    requires d.crt.None? && d.key.None? && TroubleAt(d.tape, n)
    ensures var (d', r) := GenerateInto(d, pem, made);
            && d'.key == (if n < 3 then None
                          else if n == 3 then Written(None, pem.keyText(made.pub), d.tape[n])
                          else Some(pem.keyText(made.pub)))
            && d'.crt == (if n < 5 then None
                          else if n == 5 then Written(None, pem.certText(made), d.tape[n])
                          else Some(pem.certText(made)))
            && if n < 7 then r == NotDone(StatusOf(d.tape[n]))
               else r.Loaded? && TroubleAt(d'.tape, n - 7) && d'.tape[n - 7] == d.tape[n]
  {
    StepsUpToTrouble(d, 1, n);
    if n >= 1 {
      PersistUpToTrouble(Steps(d, 1).0, pem.certText(made), pem.keyText(made.pub), n - 1);
    }
  }

  /** A Load in an empty directory has ten steps: two stats, making the CA, making and securing the directory, writing
      and securing the key, writing and securing the certificate, and making the leaf key.  If one does not go well
      the Load does not succeed, and the files are what had been written by then: no certificate before the key is
      secured. */
  lemma FirstLoadStops(d: Disk, pem: Pem, made: Cert, n: nat)
    requires d.crt.None? && d.key.None? && n < 10 && TroubleAt(d.tape, n)
    ensures var (d', r) := Load(d, pem, made);
            && r == (if d.tape[n].Crash? then Gone else Refused)
            && d'.key == (if n < 5 then None
                          else if n == 5 then Written(None, pem.keyText(made.pub), d.tape[n])
                          else Some(pem.keyText(made.pub)))
            && d'.crt == (if n < 7 then None
                          else if n == 7 then Written(None, pem.certText(made), d.tape[n])
                          else Some(pem.certText(made)))
  {
    StepsUpToTrouble(d, 2, n);
    if n >= 2 {
      var d1 := Steps(d, 2).0;
      GenerateUpToTrouble(d1, pem, made, n - 2);
      if n >= 9 {
        StepsUpToTrouble(GenerateInto(d1, pem, made).0, 1, n - 9);
      }
    }
  }

  // ---- the object -----------------------------------------------------------------------------------------

  class Directory {
    var crt: Option<Bytes>
    var key: Option<Bytes>
    var tape: seq<Outcome>

    ghost function State(): Disk
      reads this
    {
      Disk(crt, key, tape)
    }

    method TakeOutcome() returns (o: Outcome)
      modifies this`tape
      ensures o == old(State()).Next() && State() == old(State()).Advance()
    {
      if |tape| == 0 {
        return Ok;
      }
      o := tape[0];
      tape := tape[1..];
    }

    method Do(n: nat) returns (st: Status)
      modifies this`tape
      ensures (State(), st) == Steps(old(State()), n)
    {
      var i := n;
      while i > 0
        invariant 0 <= i <= n
        invariant Steps(old(State()), n) == Steps(State(), i)
        invariant crt == old(crt) && key == old(key)
      {
        var o := TakeOutcome();
        if !o.Ok? {
          return StatusOf(o);
        }
        i := i - 1;
      }
      return Done;
    }

    method PersistPair(certText: Bytes, keyText: Bytes) returns (st: Status)
      modifies this
      ensures (State(), st) == Persist(old(State()), certText, keyText)
    {
      st := Do(2);
      if !st.Done? {
        return;
      }
      var o := TakeOutcome();
      key := Written(key, keyText, o);
      if !o.Ok? {
        return StatusOf(o);
      }
      st := Do(1);
      if !st.Done? {
        return;
      }
      o := TakeOutcome();
      crt := Written(crt, certText, o);
      if !o.Ok? {
        return StatusOf(o);
      }
      st := Do(1);
    }

    method LoadCa(pem: Pem, made: Cert) returns (r: Result)
      modifies this
      ensures (State(), r) == Load(old(State()), pem, made)
    {
      StepsKeepFiles(State(), 2);
      var st := Do(2);
      if !st.Done? {
        return NotDone(st);
      }
      if crt.Some? != key.Some? {
        return Refused;
      }
      if crt.Some? {
        StepsKeepFiles(State(), 2);
        st := Do(2);
        if !st.Done? {
          return NotDone(st);
        }
        var c, k := pem.parseCert(crt.value), pem.parseKey(key.value);
        if c.None? || k.None? || c.value.pub != k.value {
          return Refused;
        }
        r := Loaded(c.value, k.value);
      } else {
        st := Do(1);
        if !st.Done? {
          return NotDone(st);
        }
        st := PersistPair(pem.certText(made), pem.keyText(made.pub));
        if !st.Done? {
          return NotDone(st);
        }
        r := Loaded(made, made.pub);
      }
      st := Do(1);
      if !st.Done? {
        r := NotDone(st);
      }
    }
  }
}
