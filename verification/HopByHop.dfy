/** Hop-by-hop header stripping in internal/proxy/server.go (section 7.6.1 of RFC 9110). */
module HopByHop {
  import opened Text

  type Headers = map<string, seq<string>>

  /** The connection-scoped fields, as section 7.6.1 of RFC 9110 and clients know them: in any case. */
  const CONNECTION_SCOPED: set<string> := {
    "connection", "proxy-connection", "keep-alive", "proxy-authenticate", "proxy-authorization",
    "te", "trailer", "transfer-encoding", "upgrade"}

  // ---- http.CanonicalHeaderKey -------------------------------------------------------------

  /** A character of a header name (token in section 5.6.2 of RFC 9110). */
  predicate IsTokenChar(c: char) {
    IsLower(c) || IsUpper(c) || '0' <= c <= '9' || c == '!' || '#' <= c <= '\'' || c == '*' || c == '+'
    || c == '-' || c == '.' || c == '^' || c == '_' || c == '`' || c == '|' || c == '~'
  }

  predicate IsToken(s: string) {
    forall i | 0 <= i < |s| :: IsTokenChar(s[i])
  }

  /** Upper case at the start and after each hyphen, lower case elsewhere. */
  function Recase(s: string, upper: bool): (r: string)
    ensures |r| == |s|
  {
    if s == "" then "" else [Cased(s[0], upper)] + Recase(s[1..], s[0] == '-')
  }

  /** A name that is not a token is left as it is. */
  function Canonical(s: string): string {
    if IsToken(s) then Recase(s, true) else s
  }

  lemma {:induction false} RecaseIgnoresCase(a: string, b: string, upper: bool)
    requires SameButForCase(a, b)
    ensures Recase(a, upper) == Recase(b, upper)
  {
    if a != "" {
      assert Cased(a[0], false) == Cased(b[0], false);
      forall i | 0 <= i < |a[1..]| ensures Cased(a[1..][i], false) == Cased(b[1..][i], false) {
        assert a[1..][i] == a[i + 1] && b[1..][i] == b[i + 1];
      }
      RecaseIgnoresCase(a[1..], b[1..], a[0] == '-');
    }
  }

  lemma {:induction false} RecaseKeepsLetters(s: string, upper: bool)
    ensures SameButForCase(Recase(s, upper), s)
    ensures IsToken(s) ==> IsToken(Recase(s, upper))
  {
    if s != "" {
      RecaseKeepsLetters(s[1..], s[0] == '-');
      var r := Recase(s, upper);
      forall i | 0 <= i < |s|
        ensures Cased(r[i], false) == Cased(s[i], false) && (IsTokenChar(s[i]) ==> IsTokenChar(r[i]))
      {
        if i > 0 {
          var t, u := s[1..], Recase(s[1..], s[0] == '-');
          assert r[i] == u[i - 1] && s[i] == t[i - 1];
        }
      }
      if IsToken(s) {
        assert forall i | 0 <= i < |s[1..]| :: s[1..][i] == s[i + 1];
      }
    }
  }

  /** Names that differ only in case have one canonical form, which is one of them. */
  lemma CanonicalIgnoresCase(a: string, b: string)
    requires IsToken(a) && IsToken(b)
    ensures Canonical(a) == Canonical(b) <==> SameButForCase(a, b)
  {
    if SameButForCase(a, b) {
      RecaseIgnoresCase(a, b, true);
    }
    RecaseKeepsLetters(a, true);
    RecaseKeepsLetters(b, true);
    if Canonical(a) == Canonical(b) {
      var c := Recase(a, true);
      forall i | 0 <= i < |a| ensures Cased(a[i], false) == Cased(b[i], false) {
        assert Cased(c[i], false) == Cased(a[i], false);
      }
    }
  }

  lemma CanonicalIsIdempotent(s: string)
    ensures Canonical(Canonical(s)) == Canonical(s)
  {
    if IsToken(s) {
      RecaseKeepsLetters(s, true);
      RecaseIgnoresCase(Recase(s, true), s, true);
    }
  }

  // ---- stripping --------------------------------------------------------------------------------

  /** The keys of the source's map: the canonical spellings. */
  const FIXED: set<string> := set n | n in CONNECTION_SCOPED :: Canonical(n)

  const CONNECTION := Canonical("connection")

  lemma FixedIsCanonical()
    ensures CONNECTION in FIXED && forall name <- FIXED :: Canonical(name) == name
  {
    forall name <- FIXED ensures Canonical(name) == name {
      var n :| n in CONNECTION_SCOPED && name == Canonical(n);
      CanonicalIsIdempotent(n);
    }
    assert "connection" in CONNECTION_SCOPED;
  }

  /** Header.Del. */
  function Delete(h: Headers, name: string): Headers {
    h - {Canonical(name)}
  }

  /** The headers that one Connection value names. */
  function NamedIn(tokens: seq<string>): set<string> {
    set t | t in tokens && TrimSpace(t) != "" :: Canonical(TrimSpace(t))
  }

  /** The headers that any of the Connection values names. */
  function Named(values: seq<string>): set<string> {
    if values == [] then {} else NamedIn(Split(values[0], ',')) + Named(values[1..])
  }

  function ConnectionValues(h: Headers): seq<string> {
    if CONNECTION in h then h[CONNECTION] else []
  }

  /** What section 7.6.1 of RFC 9110 asks for: everything but the fixed fields and the fields that
      Connection names. */
  function EndToEnd(h: Headers): Headers {
    h - FIXED - Named(ConnectionValues(h))
  }

  method RemoveNamed(h: Headers, tokens: seq<string>) returns (r: Headers)
    ensures r == h - NamedIn(tokens)
  {
    r := h;
    var i := 0;
    while i < |tokens|
      invariant 0 <= i <= |tokens|
      invariant r == h - NamedIn(tokens[..i])
    {
      var name := TrimSpace(tokens[i]);
      NamedInSnoc(tokens, i);
      if name != "" {
        r := Delete(r, name);
      }
      i := i + 1;
    }
    assert tokens[..i] == tokens;
  }

  lemma NamedInSnoc(tokens: seq<string>, i: nat)
    requires i < |tokens|
    ensures NamedIn(tokens[..i + 1]) ==
            NamedIn(tokens[..i]) + (if TrimSpace(tokens[i]) != "" then {Canonical(TrimSpace(tokens[i]))} else {})
  {
    assert tokens[..i + 1] == tokens[..i] + [tokens[i]];
  }

  lemma {:induction false} NamedAppend(a: seq<string>, b: seq<string>)
    ensures Named(a + b) == Named(a) + Named(b)
    decreases |a|
  {
    if a == [] {
      assert a + b == b;
    } else {
      assert (a + b)[1..] == a[1..] + b;
      NamedAppend(a[1..], b);
    }
  }

  method RemoveListed(h: Headers, values: seq<string>) returns (r: Headers)
    ensures r == h - Named(values)
  {
    r := h;
    var i := 0;
    while i < |values|
      invariant 0 <= i <= |values|
      invariant r == h - Named(values[..i])
    {
      NamedStep(values, i);
      ghost var before := r;
      r := RemoveNamed(r, Split(values[i], ','));
      assert r == h - (Named(values[..i]) + NamedIn(Split(values[i], ',')));
      i := i + 1;
    }
    assert values[..i] == values;
  }

  lemma NamedStep(values: seq<string>, i: nat)
    requires i < |values|
    ensures Named(values[..i + 1]) == Named(values[..i]) + NamedIn(Split(values[i], ','))
  {
    assert values[..i + 1] == values[..i] + [values[i]];
    NamedAppend(values[..i], [values[i]]);
    assert Named([values[i]]) == NamedIn(Split(values[i], ',')) + Named([]);
  }

  /** The fixed fields go in an arbitrary order, as a Go map is ranged over. */
  method RemoveFixed(h: Headers, fixed: set<string>) returns (r: Headers)
    requires forall name <- fixed :: Canonical(name) == name
    ensures r == h - fixed
  {
    r := h;
    var todo := fixed;
    while todo != {}
      invariant todo <= fixed
      invariant r == h - (fixed - todo)
      decreases todo
    {
      var name :| name in todo;
      r := Delete(r, name);
      assert fixed - (todo - {name}) == (fixed - todo) + {name};
      todo := todo - {name};
    }
    assert fixed - todo == fixed;
  }

  /** removeHopByHop.  The Connection values are read once, so a Connection that names itself part-way still
      has all its tokens removed. */
  method RemoveHopByHop(h: Headers) returns (r: Headers)
    ensures r == EndToEnd(h)
  {
    FixedIsCanonical();
    r := RemoveListed(h, ConnectionValues(h));
    r := RemoveFixed(r, FIXED);
    assert h - Named(ConnectionValues(h)) - FIXED == h - FIXED - Named(ConnectionValues(h));
  }

  // ---- what stripping means --------------------------------------------------------------------------

  /** A Connection value has a token for this field, in any case. */
  ghost predicate Lists(value: string, name: string) {
    exists t <- Split(value, ',') :: TrimSpace(t) != "" && Canonical(TrimSpace(t)) == name
  }

  ghost predicate ListedByConnection(h: Headers, name: string) {
    exists v <- ConnectionValues(h) :: Lists(v, name)
  }

  lemma {:induction false} NamedMeansListed(values: seq<string>, name: string)
    ensures name in Named(values) <==> exists v <- values :: Lists(v, name)
    decreases |values|
  {
    if values != [] {
      assert name in NamedIn(Split(values[0], ',')) <==> Lists(values[0], name);
      NamedMeansListed(values[1..], name);
      assert forall v :: v in values <==> v == values[0] || v in values[1..];
    }
  }

  /** One of these nine words, in any case. */
  predicate IsConnectionScoped(name: string) {
    || SameButForCase("connection", name) || SameButForCase("proxy-connection", name)
    || SameButForCase("keep-alive", name) || SameButForCase("proxy-authenticate", name)
    || SameButForCase("proxy-authorization", name) || SameButForCase("te", name) || SameButForCase("trailer", name)
    || SameButForCase("transfer-encoding", name) || SameButForCase("upgrade", name)
  }

  predicate Spells(n: string, name: string) {
    SameButForCase(n, name)
  }

  lemma NineWords(name: string)
    ensures IsConnectionScoped(name) <==> exists n <- CONNECTION_SCOPED :: Spells(n, name)
  {
    assert IsConnectionScoped(name) <==>
      || Spells("connection", name) || Spells("proxy-connection", name) || Spells("keep-alive", name)
      || Spells("proxy-authenticate", name) || Spells("proxy-authorization", name) || Spells("te", name)
      || Spells("trailer", name) || Spells("transfer-encoding", name) || Spells("upgrade", name);
  }

  lemma ScopedAreTokens()
    ensures forall n <- CONNECTION_SCOPED :: IsToken(n)
  {
  }

  lemma SpellingsAreTokens(a: string, b: string)
    requires SameButForCase(a, b) && IsToken(a)
    ensures IsToken(b)
  {
    forall i | 0 <= i < |b| ensures IsTokenChar(b[i]) {
      assert Cased(a[i], false) == Cased(b[i], false) && IsTokenChar(a[i]);
    }
  }

  lemma FixedAreSpelled(name: string)
    ensures name in FIXED <==> Canonical(name) == name && exists n <- CONNECTION_SCOPED :: Spells(n, name)
  {
    FixedIsCanonical();
    ScopedAreTokens();
    forall n <- CONNECTION_SCOPED | Canonical(name) == name ensures Canonical(n) == name <==> Spells(n, name) {
      if Spells(n, name) {
        SpellingsAreTokens(n, name);
        CanonicalIgnoresCase(n, name);
      }
      RecaseKeepsLetters(n, true);
    }
  }

  /** A field survives, with all its values in order, exactly when it is not the canonical spelling of one of the nine
      connection-scoped ones and no token of any Connection value names it. */
  lemma SurvivorsAreEndToEnd(h: Headers, name: string)
    ensures name in EndToEnd(h) <==>
            name in h && !(Canonical(name) == name && IsConnectionScoped(name)) && !ListedByConnection(h, name)
    ensures name in EndToEnd(h) ==> EndToEnd(h)[name] == h[name]
  {
    NamedMeansListed(ConnectionValues(h), name);
    FixedAreSpelled(name);
    NineWords(name);
  }

  lemma StrippingIsIdempotent(h: Headers)
    ensures EndToEnd(EndToEnd(h)) == EndToEnd(h)
  {
    FixedIsCanonical();
    assert CONNECTION !in EndToEnd(h);
    assert ConnectionValues(EndToEnd(h)) == [];
  }

  // ---- copyHeaders -------------------------------------------------------------------------------------

  /** Header.Add. */
  function Add(h: Headers, name: string, value: string): Headers {
    var key := Canonical(name);
    h[key := (if key in h then h[key] else []) + [value]]
  }

  method AddAll(dst: Headers, name: string, values: seq<string>) returns (r: Headers)
    requires Canonical(name) == name && name !in dst
    ensures r == if values == [] then dst else dst[name := values]
  {
    r := dst;
    var i := 0;
    while i < |values|
      invariant 0 <= i <= |values|
      invariant r == if i == 0 then dst else dst[name := values[..i]]
    {
      assert values[..i + 1] == values[..i] + [values[i]];
      r := Add(r, name, values[i]);
      i := i + 1;
    }
    assert values[..i] == values;
  }

  /** The fields of `h` among `names` that have a value. */
  function Valued(h: Headers, names: set<string>): Headers {
    map k | k in h && k in names && h[k] != [] :: h[k]
  }

  /** copyHeaders into an empty header, in whatever order the source map is ranged over: every field that has a
      value, with its values in order. */
  method CopyHeaders(src: Headers) returns (dst: Headers)
    requires forall k <- src :: Canonical(k) == k
    ensures dst == Valued(src, src.Keys)
  {
    dst := map[];
    var todo := src.Keys;
    while todo != {}
      invariant todo <= src.Keys
      invariant dst == Valued(src, src.Keys - todo)
      decreases todo
    {
      var k :| k in todo;
      dst := AddAll(dst, k, src[k]);
      assert Valued(src, src.Keys - (todo - {k})) ==
             if src[k] == [] then Valued(src, src.Keys - todo) else Valued(src, src.Keys - todo)[k := src[k]];
      todo := todo - {k};
    }
    assert src.Keys - todo == src.Keys;
  }

  /** The copy is the original exactly when no field is without a value. */
  lemma CopyReproduces(src: Headers)
    ensures Valued(src, src.Keys) == src <==> forall k <- src :: src[k] != []
  {
    if k :| k in src && src[k] == [] {
      assert k !in Valued(src, src.Keys);
    }
  }
}
