/** The host of a "host:port" target: hostOnly in internal/ca/leaf.go and hostname in
    internal/proxy/connect.go, both over Go's net.SplitHostPort. */
module HostPort {
  import opened Wrappers
  import opened Text

  function LastColon(s: string): (r: Option<nat>)
    ensures match r
            case None => ':' !in s
            case Some(i) => i < |s| && s[i] == ':' && ':' !in s[i + 1..]
  {
    if s == "" then None
    else if s[|s| - 1] == ':' then Some(|s| - 1)
    else
      var r := LastColon(s[..|s| - 1]);
      assert s == s[..|s| - 1] + [s[|s| - 1]];
      assert r.Some? ==> s[r.value + 1..] == s[..|s| - 1][r.value + 1..] + [s[|s| - 1]];
      r
  }

  function FirstClosing(s: string): (r: Option<nat>)
    ensures match r
            case None => ']' !in s
            case Some(i) => i < |s| && s[i] == ']' && ']' !in s[..i]
  {
    if s == "" then None
    else if s[0] == ']' then Some(0)
    else
      match FirstClosing(s[1..])
      case None => None
      case Some(i) => assert s[..i + 1] == [s[0]] + s[1..][..i]; Some(i + 1)
  }

  /** net.SplitHostPort's host, or None for its errors: no port, too many colons, or a stray or
      missing bracket. */
  function SplitHost(s: string): Option<string> {
    match LastColon(s)
    case None => None
    case Some(i) =>
      if s[0] == '[' then
        match FirstClosing(s)
        case None => None
        case Some(end) =>
          if end + 1 != i || '[' in s[1..] || ']' in s[end + 1..] then None else Some(s[1..end])
      else if ':' in s[..i] || '[' in s || ']' in s then None
      else Some(s[..i])
  }

  /** An unparseable target is its own host. */
  function HostOnly(target: string): string {
    match SplitHost(target)
    case Some(h) => h
    case None => target
  }

  predicate Bare(s: string) {
    ':' !in s && '[' !in s && ']' !in s
  }

  lemma {:induction false} LastColonIs(a: string, b: string)
    requires ':' !in b
    ensures LastColon(a + ":" + b) == Some(|a|)
  {
    var s := a + ":" + b;
    if b != "" {
      var last := b[|b| - 1];
      assert last in b;
      assert s[..|s| - 1] == a + ":" + b[..|b| - 1];
      LastColonIs(a, b[..|b| - 1]);
    }
  }

  lemma {:induction false} FirstClosingIs(a: string, b: string)
    requires ']' !in a
    ensures FirstClosing(a + "]" + b) == Some(|a|)
  {
    var s := a + "]" + b;
    if a != "" {
      assert a[0] in a && s[0] == a[0];
      assert s[1..] == a[1..] + "]" + b;
      FirstClosingIs(a[1..], b);
    }
  }

  lemma SplitPlain(h: string, port: string)
    requires Bare(h) && Bare(port)
    ensures SplitHost(h + ":" + port) == Some(h)
  {
    var s := h + ":" + port;
    LastColonIs(h, port);
    assert s[..|h|] == h;
    NoBracket(h, port, '[');
    NoBracket(h, port, ']');
    assert s[0] in s;
  }

  lemma NoBracket(h: string, port: string, c: char)
    requires c !in h && c !in port && c != ':'
    ensures c !in h + ":" + port
  {
  }

  /** A name with or without a port has the same host. */
  lemma PortIsStripped(h: string, port: string)
    requires Bare(h) && Bare(port)
    ensures HostOnly(h + ":" + port) == h && HostOnly(h) == h
  {
    SplitPlain(h, port);
    assert LastColon(h) == None;
  }

  /** An IPv6 address in brackets with a port has the same host as the bare address, which has
      several colons and is left alone. */
  lemma BracketsAreStripped(first: string, second: string, third: string, port: string)
    requires '[' !in first && ']' !in first && '[' !in second && ']' !in second && Bare(third) && Bare(port)
    ensures var h := first + ":" + second + ":" + third;
            HostOnly("[" + h + "]:" + port) == h && HostOnly(h) == h
  {
    var h := first + ":" + second + ":" + third;
    LastColonIs(first + ":" + second, third);
    forall c | c in ['[', ']'] ensures c !in h {
      NotInConcat(first + ":" + second + ":", third, c);
      NotInConcat(first + ":" + second, ":", c);
      NotInConcat(first + ":", second, c);
      NotInConcat(first, ":", c);
    }
    assert h[..|first + ":" + second|] == first + ":" + second;
    assert (first + ":" + second)[|first|] == ':';
    assert h[0] in h;
    BracketedHost(h, port);
  }

  lemma BracketedHost(h: string, port: string)
    requires '[' !in h && ']' !in h && Bare(port)
    ensures HostOnly("[" + h + "]:" + port) == h
  {
    var s := "[" + h + "]:" + port;
    LastColonIs("[" + h + "]", port);
    assert s == "[" + h + "]" + ":" + port;
    NotInConcat("[", h, ']');
    FirstClosingIs("[" + h, ":" + port);
    assert s == ("[" + h) + "]" + (":" + port);
    assert s[1..] == h + "]:" + port;
    NotInConcat(h + "]:", port, '[');
    NotInConcat(h, "]:", '[');
    assert s[|h| + 2..] == ":" + port;
    NotInConcat(":", port, ']');
    assert s[1..|h| + 1] == h;
  }

  /** host:port, neither with a colon or bracket. */
  ghost predicate PlainForm(s: string, h: string) {
    exists port :: s == h + ":" + port && Bare(h) && Bare(port)
  }

  /** [host]:port, with no other bracket, and no colon in the port. */
  ghost predicate BracketForm(s: string, h: string) {
    exists port :: s == "[" + h + "]:" + port && '[' !in h && ']' !in h && Bare(port)
  }

  lemma NotInPart(s: string, a: nat, b: nat, lo: nat, hi: nat, c: char)
    requires a <= lo <= hi <= b <= |s| && c !in s[a..b]
    ensures c !in s[lo..hi]
  {
    forall k | 0 <= k < hi - lo ensures s[lo..hi][k] != c {
      assert s[lo..hi][k] == s[a..b][lo - a + k];
    }
  }

  lemma BracketsAround(s: string, end: nat)
    requires end + 1 < |s| && end > 0 && s[0] == '[' && s[end] == ']' && s[end + 1] == ':'
    ensures s == "[" + s[1..end] + "]:" + s[end + 2..]
  {
    assert s[..1] == "[" && s[end..end + 2] == "]:";
    assert s == s[..1] + s[1..end] + s[end..end + 2] + s[end + 2..];
  }

  lemma IsPlainForm(s: string, h: string, port: string)
    requires s == h + ":" + port && Bare(h) && Bare(port)
    ensures PlainForm(s, h)
  {
  }

  lemma IsBracketForm(s: string, h: string, port: string)
    requires s == "[" + h + "]:" + port && '[' !in h && ']' !in h && Bare(port)
    ensures BracketForm(s, h)
  {
  }

  lemma SplitsPlain(s: string, i: nat)
    requires LastColon(s) == Some(i) && ':' !in s[..i] && '[' !in s && ']' !in s
    ensures PlainForm(s, s[..i])
  {
    assert s[0..|s|] == s;
    forall c | c in ['[', ']'] ensures c !in s[0..i] && c !in s[i + 1..|s|] {
      NotInPart(s, 0, |s|, 0, i, c);
      NotInPart(s, 0, |s|, i + 1, |s|, c);
    }
    assert s == s[..i] + [s[i]] + s[i + 1..];
    IsPlainForm(s, s[..i], s[i + 1..]);
  }

  lemma SplitsBracketed(s: string, end: nat, i: nat)
    requires s != "" && s[0] == '[' && FirstClosing(s) == Some(end) && LastColon(s) == Some(i)
    requires end + 1 == i && '[' !in s[1..] && ']' !in s[end + 1..]
    ensures BracketForm(s, s[1..end])
  {
    BracketsAround(s, end);
    NotInPart(s, 1, |s|, 1, end, '[');
    NotInPart(s, 0, end, 1, end, ']');
    NotInPart(s, 1, |s|, i + 1, |s|, '[');
    NotInPart(s, end + 1, |s|, i + 1, |s|, ']');
    IsBracketForm(s, s[1..end], s[i + 1..]);
  }

  lemma SplitsIntoForm(s: string)
    ensures match SplitHost(s) case None => true case Some(h) => PlainForm(s, h) || BracketForm(s, h)
  {
    if SplitHost(s).Some? {
      var i := LastColon(s).value;
      if s[0] == '[' {
        SplitsBracketed(s, FirstClosing(s).value, i);
      } else {
        SplitsPlain(s, i);
      }
    }
  }

  lemma FormSplits(s: string, h: string)
    requires PlainForm(s, h) || BracketForm(s, h)
    ensures HostOnly(s) == h
  {
    if PlainForm(s, h) {
      var port :| s == h + ":" + port && Bare(h) && Bare(port);
      SplitPlain(h, port);
    } else {
      var port :| s == "[" + h + "]:" + port && '[' !in h && ']' !in h && Bare(port);
      BracketedHost(h, port);
    }
  }

  /** For any target: its host is what stands before its port, in one of the two forms; a target in neither form is its
      own host. */
  lemma HostIsReadExactly(target: string)
    ensures forall h :: PlainForm(target, h) || BracketForm(target, h) ==> HostOnly(target) == h
    ensures (forall h :: !PlainForm(target, h) && !BracketForm(target, h)) ==> HostOnly(target) == target
  {
    SplitsIntoForm(target);
    forall h | PlainForm(target, h) || BracketForm(target, h) ensures HostOnly(target) == h {
      FormSplits(target, h);
    }
  }
}
