/** internal/origin/origin.go: which connections the user asked to see. */
module Origin {
  import opened Wrappers
  import opened Text

  datatype Process = Process(simulator: bool, bundleId: string)

  datatype Filter = Filter(onlySim: bool, apps: set<string>) {
    predicate Active() {
      onlySim || apps != {}
    }

    predicate Match(p: Process) {
      if apps != {} then p.simulator && p.bundleId in apps
      else if onlySim then p.simulator
      else true
    }
  }

  /** The bundle ids that a list of entries names. */
  function Named(entries: seq<string>): set<string> {
    set e | e in entries && TrimSpace(e) != "" :: TrimSpace(e)
  }

  function Build(onlySim: bool, entries: seq<string>): Filter {
    Filter(onlySim || Named(entries) != {}, Named(entries))
  }

  method BuildFilter(onlySim: bool, entries: seq<string>) returns (f: Filter)
    ensures f == Build(onlySim, entries)
  {
    f := Filter(onlySim, {});
    var i := 0;
    while i < |entries|
      invariant 0 <= i <= |entries|
      invariant f == Build(onlySim, entries[..i])
    {
      var a := TrimSpace(entries[i]);
      assert entries[..i + 1] == entries[..i] + [entries[i]];
      assert Named(entries[..i + 1]) == Named(entries[..i]) + (if a != "" then {a} else {});
      if a != "" {
        f := Filter(true, f.apps + {a});
      }
      i := i + 1;
    }
    assert entries[..|entries|] == entries;
  }

  /** The verdict of Server.originAllows: with no resolver, or with a filter that narrows nothing, the
      originating process is not even looked up; an unknown origin is not ours. */
  function Allows(filtering: bool, f: Filter, origin: Option<Process>): bool {
    if !filtering || !f.Active() then true
    else if origin.None? then false
    else f.Match(origin.value)
  }

  /** Skipping the lookup when the filter is inactive never changes a verdict, and a filter is inactive
      exactly when it turns nobody away. */
  lemma FastPathAgrees(f: Filter)
    ensures forall p :: Allows(true, f, Some(p)) == f.Match(p)
    ensures !f.Active() <==> forall p :: f.Match(p)
  {
    var outsider := Process(false, "");
    assert f.Active() ==> !f.Match(outsider);
  }

  /** What the flags say: with an app named, one of those apps in the simulator; otherwise, if so asked, the simulator;
      otherwise everything. */
  ghost predicate Wanted(onlySim: bool, entries: seq<string>, p: Process) {
    if exists e <- entries :: TrimSpace(e) != "" then
      p.simulator && p.bundleId != "" && exists e <- entries :: TrimSpace(e) == p.bundleId
    else
      onlySim ==> p.simulator
  }

  /** From the flags to the verdict.  A process that cannot be resolved passes only if everything does. */
  lemma VerdictIsAsWanted(onlySim: bool, entries: seq<string>)
    ensures forall p :: Allows(true, Build(onlySim, entries), Some(p)) <==> Wanted(onlySim, entries, p)
    ensures Allows(true, Build(onlySim, entries), None) <==> !onlySim && forall e <- entries :: TrimSpace(e) == ""
    ensures forall origin :: Allows(false, Build(onlySim, entries), origin)
  {
    forall e <- entries | TrimSpace(e) != "" ensures TrimSpace(e) in Named(entries) {
    }
  }

  /** A filter listed for the browser as ids in any order, and sent back, is the same filter. */
  lemma FilterRoundTrip(onlySim: bool, entries: seq<string>, listed: seq<string>)
    requires (set a | a in listed) == Build(onlySim, entries).apps
    ensures Build(Build(onlySim, entries).onlySim, listed) == Build(onlySim, entries)
  {
    forall a | a in Named(entries) ensures TrimSpace(a) == a && a != "" {
      var e :| e in entries && TrimSpace(e) != "" && TrimSpace(e) == a;
      TrimSpaceTrims(e);
      TrimTrimmed(a);
    }
    forall a ensures a in Named(listed) <==> a in Named(entries) {
      if a in Named(entries) {
        assert a in (set a | a in listed);
        assert a in listed && TrimSpace(a) == a;
      }
      if a in Named(listed) {
        var e :| e in listed && TrimSpace(e) != "" && TrimSpace(e) == a;
        assert e in (set a | a in listed);
      }
    }
    assert Named(listed) == Named(entries);
  }
}
