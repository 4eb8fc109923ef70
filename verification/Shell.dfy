/** toCurl and shq of internal/ui/app/app.js, read back by a POSIX shell. */
module Shell {
  import opened Wrappers
  import opened HopByHop

  const NUL := '\0'

  // ---- the quoting code ----------------------------------------------------------------------

  /** Every quote becomes: close, an escaped quote, open again. */
  function EscapeQuotes(s: string): string {
    if s == "" then ""
    else (if s[0] == '\'' then ['\'', '\\', '\'', '\''] else [s[0]]) + EscapeQuotes(s[1..])
  }

  function Shq(s: string): string {
    ['\''] + EscapeQuotes(s) + ['\'']
  }

  /** A captured request: the headers with their values, in the order of the sorted keys, and the body text
      (empty if there is none to show). */
  datatype Request = Request(
    verb: string, scheme: string, host: string, path: string, headers: seq<(string, seq<string>)>, body: string)
  {
    function Url(): string {
      scheme + "://" + host + path
    }
  }

  const BREAK := [' ', '\\', '\n', ' ', ' ']

  function JoinParts(parts: seq<string>): string
    requires parts != []
  {
    if |parts| == 1 then parts[0] else JoinParts(parts[..|parts| - 1]) + BREAK + parts[|parts| - 1]
  }

  function Opening(r: Request): string {
    "curl" + " " + "-X" + " " + r.verb + " " + Shq(r.Url())
  }

  function HeaderPart(k: string, v: string): string {
    "-H" + " " + Shq(k + ": " + v)
  }

  function HeaderParts(k: string, values: seq<string>): seq<string> {
    if values == [] then [] else HeaderParts(k, values[..|values| - 1]) + [HeaderPart(k, values[|values| - 1])]
  }

  function AllHeaderParts(headers: seq<(string, seq<string>)>): seq<string> {
    if headers == [] then []
    else
      var last := headers[|headers| - 1];
      AllHeaderParts(headers[..|headers| - 1]) + HeaderParts(last.0, last.1)
  }

  function Parts(r: Request): seq<string> {
    [Opening(r)] + AllHeaderParts(r.headers) + (if r.body != "" then ["--data-raw" + " " + Shq(r.body)] else [])
  }

  method ToCurl(r: Request) returns (text: string)
    ensures text == JoinParts(Parts(r))
  {
    var parts := [Opening(r)];
    var i := 0;
    while i < |r.headers|
      invariant 0 <= i <= |r.headers|
      invariant parts == [Opening(r)] + AllHeaderParts(r.headers[..i])
    {
      var more := PushHeader(r.headers[i].0, r.headers[i].1);
      assert r.headers[..i + 1][..i] == r.headers[..i];
      parts := parts + more;
      i := i + 1;
    }
    assert r.headers[..i] == r.headers;
    if r.body != "" {
      parts := parts + ["--data-raw" + " " + Shq(r.body)];
    }
    assert parts == Parts(r);
    text := JoinParts(parts);
  }

  method PushHeader(k: string, values: seq<string>) returns (parts: seq<string>)
    ensures parts == HeaderParts(k, values)
  {
    parts := [];
    var j := 0;
    while j < |values|
      invariant 0 <= j <= |values|
      invariant parts == HeaderParts(k, values[..j])
    {
      assert values[..j + 1][..j] == values[..j];
      parts := parts + [HeaderPart(k, values[j])];
      j := j + 1;
    }
    assert values[..j] == values;
  }

  // ---- the shell -------------------------------------------------------------------------------

  /** The characters that do not stand for themselves anywhere in an unquoted word, by section 2.2 of the POSIX.1-2017
      Shell Command Language.  (Of those that it lists as special under certain circumstances, what `*`, `?` and `[`
      stand for depends on the files there are; `=` and `%` are special only in assignments and to job control, of which
      there are none here.) */
  predicate Special(c: char) {
    || c == '|' || c == '&' || c == ';' || c == '<' || c == '>' || c == '(' || c == ')' || c == '$' || c == '`'
    || c == '\\' || c == '\"' || c == '\'' || c == ' ' || c == '\t' || c == '\n'
    || c == '*' || c == '?' || c == '['
  }

  /** Those that do not stand for themselves at the start of a word: a comment (section 2.3) and a home directory
      (section 2.6.1). */
  predicate SpecialFirst(c: char) {
    c == '#' || c == '~'
  }

  predicate Plain(c: char) {
    !Special(c) && c != NUL
  }

  datatype Mode = Between | Word(text: string) | Quoted(text: string)

  function TextOf(m: Mode): string {
    if m.Between? then "" else m.text
  }

  /** Word splitting of one command by sections 2.2.1 (escape character) and 2.2.2 (single quotes) of the
      POSIX.1-2017 Shell Command Language.  Any other special character, an unquoted line break included, is
      answered with None: it does not stand for itself. */
  function Scan(s: string, m: Mode, words: seq<string>): Option<seq<string>>
    decreases |s|
  {
    if s == "" then
      match m
      case Between => Some(words)
      case Word(t) => Some(words + [t])
      case Quoted(_) => None
    else if s[0] == NUL then None
    else if m.Quoted? then
      if s[0] == '\'' then Scan(s[1..], Word(m.text), words) else Scan(s[1..], Quoted(m.text + [s[0]]), words)
    else if s[0] == ' ' || s[0] == '\t' then
      Scan(s[1..], Between, if m.Word? then words + [m.text] else words)
    else if s[0] == '\'' then Scan(s[1..], Quoted(TextOf(m)), words)
    else if s[0] == '\\' then
      if |s| == 1 || s[1] == NUL then None
      else if s[1] == '\n' then Scan(s[2..], m, words)
      else Scan(s[2..], Word(TextOf(m) + [s[1]]), words)
    else if Special(s[0]) || (m.Between? && SpecialFirst(s[0])) then None
    else Scan(s[1..], Word(TextOf(m) + [s[0]]), words)
  }

  function Read(text: string): Option<seq<string>> {
    Scan(text, Between, [])
  }

  // ---- quoting is undone ----------------------------------------------------------------------------

  lemma ScanEscapedQuote(rest: string, t: string, words: seq<string>)
    ensures Scan(['\'', '\\', '\'', '\''] + rest, Quoted(t), words) == Scan(rest, Quoted(t + ['\'']), words)
  {
    var s0 := ['\'', '\\', '\'', '\''] + rest;
    var s1 := ['\\', '\'', '\''] + rest;
    var s2 := ['\''] + rest;
    assert s0[1..] == s1 && s1[2..] == s2 && s2[1..] == rest;
    assert Scan(s0, Quoted(t), words) == Scan(s1, Word(t), words);
    assert Scan(s1, Word(t), words) == Scan(s2, Word(t + ['\'']), words);
    assert Scan(s2, Word(t + ['\'']), words) == Scan(rest, Quoted(t + ['\'']), words);
  }

  lemma {:induction false} ScanEscaped(s: string, rest: string, t: string, words: seq<string>)
    ensures Scan(EscapeQuotes(s) + (['\''] + rest), Quoted(t), words) ==
            if NUL in s then None else Scan(rest, Word(t + s), words)
    decreases |s|
  {
    var tail := ['\''] + rest;
    if s == "" {
      assert EscapeQuotes(s) + tail == tail;
      assert tail[1..] == rest && t + s == t;
    } else {
      assert s == [s[0]] + s[1..];
      var more := EscapeQuotes(s[1..]) + tail;
      if s[0] == '\'' {
        assert EscapeQuotes(s) + tail == ['\'', '\\', '\'', '\''] + more;
        ScanEscapedQuote(more, t, words);
        ScanEscaped(s[1..], rest, t + ['\''], words);
        assert t + ['\''] + s[1..] == t + s;
      } else {
        assert EscapeQuotes(s) + tail == [s[0]] + more;
        assert ([s[0]] + more)[1..] == more;
        if s[0] != NUL {
          ScanEscaped(s[1..], rest, t + [s[0]], words);
          assert t + [s[0]] + s[1..] == t + s;
        }
      }
    }
  }

  /** A quoted string continues the word it stands in by exactly that string. */
  lemma ScanShq(s: string, rest: string, m: Mode, words: seq<string>)
    requires !m.Quoted? && NUL !in s
    ensures Scan(Shq(s) + rest, m, words) == Scan(rest, Word(TextOf(m) + s), words)
  {
    assert Shq(s) + rest == ['\''] + (EscapeQuotes(s) + (['\''] + rest));
    assert (['\''] + (EscapeQuotes(s) + (['\''] + rest)))[1..] == EscapeQuotes(s) + (['\''] + rest);
    ScanEscaped(s, rest, TextOf(m), words);
  }

  /** The shell reads shq(s) as the one word s, for exactly the strings that can be an argument at all. */
  lemma ShqRoundTrip(s: string)
    ensures Read(Shq(s)) == Some([s]) <==> NUL !in s
  {
    var rest := EscapeQuotes(s) + (['\''] + "");
    assert Shq(s) == ['\''] + rest;
    assert (['\''] + rest)[1..] == rest;
    assert Read(Shq(s)) == Scan(rest, Quoted(""), []);
    ScanEscaped(s, "", "", []);
    assert "" + s == s;
    assert Scan("", Word(s), []) == Some([] + [s]) && [] + [s] == [s];
  }

  // ---- the whole command -------------------------------------------------------------------------------

  predicate PlainText(w: string) {
    forall c <- w :: Plain(c)
  }

  /** Stands for itself as a word. */
  predicate PlainWord(w: string) {
    w != "" && !SpecialFirst(w[0]) && PlainText(w)
  }

  lemma PlainTail(w: string)
    requires w != "" && PlainText(w)
    ensures Plain(w[0]) && PlainText(w[1..])
  {
    assert w[0] in w;
    assert forall c <- w[1..] :: c in w;
  }

  lemma {:induction false} ScanPlain(w: string, rest: string, m: Mode, words: seq<string>)
    requires w != "" && PlainText(w) && !m.Quoted? && (m.Between? ==> !SpecialFirst(w[0]))
    ensures Scan(w + rest, m, words) == Scan(rest, Word(TextOf(m) + w), words)
    decreases |w|
  {
    PlainTail(w);
    assert (w + rest)[1..] == w[1..] + rest;
    if |w| == 1 {
      assert w[1..] + rest == rest && [w[0]] == w;
    } else {
      ScanPlain(w[1..], rest, Word(TextOf(m) + [w[0]]), words);
      assert TextOf(m) + [w[0]] + w[1..] == TextOf(m) + w;
    }
  }

  lemma ScanSpace(rest: string, t: string, words: seq<string>)
    ensures Scan(" " + rest, Word(t), words) == Scan(rest, Between, words + [t])
  {
    assert (" " + rest)[1..] == rest;
  }

  lemma PlainThenSpace(w: string, rest: string, words: seq<string>)
    requires PlainWord(w)
    ensures Scan(w + (" " + rest), Between, words) == Scan(rest, Between, words + [w])
  {
    ScanPlain(w, " " + rest, Between, words);
    assert "" + w == w;
    ScanSpace(rest, w, words);
  }

  lemma ScanBreak(rest: string, t: string, words: seq<string>)
    ensures Scan(BREAK + rest, Word(t), words) == Scan(rest, Between, words + [t])
  {
    var s0, s1, s2, s3 := BREAK + rest, ['\\', '\n', ' ', ' '] + rest, [' ', ' '] + rest, [' '] + rest;
    var ws := words + [t];
    assert s0[1..] == s1 && s1[2..] == s2 && s2[1..] == s3 && s3[1..] == rest;
    assert Scan(s0, Word(t), words) == Scan(s1, Between, ws);
    assert Scan(s1, Between, ws) == Scan(s2, Between, ws);
    assert Scan(s2, Between, ws) == Scan(s3, Between, ws);
    assert Scan(s3, Between, ws) == Scan(rest, Between, ws);
  }

  /** A part is read as these words, the last of them still open. */
  ghost predicate ReadsAs(part: string, before: seq<string>, last: string) {
    forall rest: string, words: seq<string> ::
      Scan(part + rest, Between, words) == Scan(rest, Word(last), words + before)
  }

  lemma FlagReads(flag: string, s: string)
    requires PlainWord(flag) && NUL !in s
    ensures ReadsAs(flag + " " + Shq(s), [flag], s)
  {
    forall rest: string, words: seq<string>
      ensures Scan(flag + " " + Shq(s) + rest, Between, words) == Scan(rest, Word(s), words + [flag])
    {
      assert flag + " " + Shq(s) + rest == flag + (" " + (Shq(s) + rest));
      PlainThenSpace(flag, Shq(s) + rest, words);
      ScanShq(s, rest, Between, words + [flag]);
      assert "" + s == s;
    }
  }

  lemma WordThenReads(w: string, part: string, before: seq<string>, last: string)
    requires PlainWord(w) && ReadsAs(part, before, last)
    ensures ReadsAs(w + " " + part, [w] + before, last)
  {
    forall rest: string, words: seq<string>
      ensures Scan(w + " " + part + rest, Between, words) == Scan(rest, Word(last), words + ([w] + before))
    {
      assert w + " " + part + rest == w + (" " + (part + rest));
      PlainThenSpace(w, part + rest, words);
      assert words + [w] + before == words + ([w] + before);
    }
  }

  lemma OpeningReads(r: Request)
    requires PlainWord(r.verb) && NUL !in r.Url()
    ensures ReadsAs(Opening(r), ["curl", "-X", r.verb], r.Url())
  {
    FlagReads(r.verb, r.Url());
    WordThenReads("-X", r.verb + " " + Shq(r.Url()), [r.verb], r.Url());
    var p := "-X" + " " + (r.verb + " " + Shq(r.Url()));
    assert ["-X"] + [r.verb] == ["-X", r.verb];
    WordThenReads("curl", p, ["-X", r.verb], r.Url());
    assert ["curl"] + ["-X", r.verb] == ["curl", "-X", r.verb];
    assert "curl" + " " + p == Opening(r);
  }

  /** An argument list is kept as its words but the last, and the last. */
  datatype Args = Args(before: seq<string>, last: string) {
    function All(): seq<string> {
      before + [last]
    }

    function Then(more: seq<string>, last': string): Args {
      Args(before + [last] + more, last')
    }
  }

  function AfterHeaders(a: Args, k: string, values: seq<string>): Args {
    if values == [] then a
    else AfterHeaders(a, k, values[..|values| - 1]).Then(["-H"], k + ": " + values[|values| - 1])
  }

  function AfterAllHeaders(a: Args, headers: seq<(string, seq<string>)>): Args {
    if headers == [] then a
    else
      var last := headers[|headers| - 1];
      AfterHeaders(AfterAllHeaders(a, headers[..|headers| - 1]), last.0, last.1)
  }

  /** The arguments that the request should be repeated with. */
  function Argv(r: Request): seq<string> {
    var a := AfterAllHeaders(Args(["curl", "-X", r.verb], r.Url()), r.headers);
    if r.body != "" then a.Then(["--data-raw"], r.body).All() else a.All()
  }

  ghost predicate PartsRead(parts: seq<string>, a: Args) {
    parts != [] && ReadsAs(JoinParts(parts), a.before, a.last)
  }

  lemma PartsReadSnoc(parts: seq<string>, a: Args, part: string, more: seq<string>, last: string)
    requires PartsRead(parts, a) && ReadsAs(part, more, last)
    ensures PartsRead(parts + [part], a.Then(more, last))
  {
    assert (parts + [part])[..|parts|] == parts;
    var head := JoinParts(parts);
    assert JoinParts(parts + [part]) == head + BREAK + part;
    forall rest: string, words: seq<string>
      ensures Scan(head + BREAK + part + rest, Between, words) ==
              Scan(rest, Word(last), words + a.Then(more, last).before)
    {
      assert head + BREAK + part + rest == head + (BREAK + (part + rest));
      ScanBreak(part + rest, a.last, words + a.before);
      assert words + a.before + [a.last] + more == words + a.Then(more, last).before;
    }
  }

  lemma {:induction false} HeadersRead(parts: seq<string>, a: Args, k: string, values: seq<string>)
    requires PartsRead(parts, a) && NUL !in k && forall v <- values :: NUL !in v
    ensures PartsRead(parts + HeaderParts(k, values), AfterHeaders(a, k, values))
    decreases |values|
  {
    if values == [] {
      assert parts + HeaderParts(k, values) == parts;
    } else {
      var front, v := values[..|values| - 1], values[|values| - 1];
      assert v in values;
      HeadersRead(parts, a, k, front);
      FlagReads("-H", k + ": " + v);
      PartsReadSnoc(parts + HeaderParts(k, front), AfterHeaders(a, k, front), HeaderPart(k, v), ["-H"], k + ": " + v);
      assert parts + HeaderParts(k, values) == parts + HeaderParts(k, front) + [HeaderPart(k, v)];
    }
  }

  predicate CleanHeaders(headers: seq<(string, seq<string>)>) {
    forall h <- headers :: NUL !in h.0 && forall v <- h.1 :: NUL !in v
  }

  lemma CleanFront(headers: seq<(string, seq<string>)>)
    requires headers != [] && CleanHeaders(headers)
    ensures CleanHeaders(headers[..|headers| - 1])
    ensures var last := headers[|headers| - 1]; NUL !in last.0 && forall v <- last.1 :: NUL !in v
  {
    assert headers[|headers| - 1] in headers;
    assert forall h <- headers[..|headers| - 1] :: h in headers;
  }

  lemma {:induction false} AllHeadersRead(parts: seq<string>, a: Args, headers: seq<(string, seq<string>)>)
    requires PartsRead(parts, a) && CleanHeaders(headers)
    ensures PartsRead(parts + AllHeaderParts(headers), AfterAllHeaders(a, headers))
    decreases |headers|
  {
    if headers == [] {
      assert parts + AllHeaderParts(headers) == parts;
    } else {
      var front, h := headers[..|headers| - 1], headers[|headers| - 1];
      CleanFront(headers);
      AllHeadersRead(parts, a, front);
      HeadersRead(parts + AllHeaderParts(front), AfterAllHeaders(a, front), h.0, h.1);
      assert parts + AllHeaderParts(headers) == parts + AllHeaderParts(front) + HeaderParts(h.0, h.1);
    }
  }

  lemma PlainVerbIsReadBack(r: Request)
    requires PlainWord(r.verb) && NUL !in r.Url() && NUL !in r.body
    requires CleanHeaders(r.headers)
    ensures Read(JoinParts(Parts(r))) == Some(Argv(r))
  {
    var a := Args(["curl", "-X", r.verb], r.Url());
    OpeningReads(r);
    assert PartsRead([Opening(r)], a);
    AllHeadersRead([Opening(r)], a, r.headers);
    var parts, a' := [Opening(r)] + AllHeaderParts(r.headers), AfterAllHeaders(a, r.headers);
    if r.body != "" {
      FlagReads("--data-raw", r.body);
      PartsReadSnoc(parts, a', "--data-raw" + " " + Shq(r.body), ["--data-raw"], r.body);
      ReadsToEnd(Parts(r), a'.Then(["--data-raw"], r.body));
    } else {
      assert Parts(r) == parts;
      ReadsToEnd(parts, a');
    }
  }

  lemma ReadsToEnd(parts: seq<string>, a: Args)
    requires PartsRead(parts, a)
    ensures Read(JoinParts(parts)) == Some(a.All())
  {
    var text := JoinParts(parts);
    assert text + "" == text;
    assert Scan(text + "", Between, []) == Scan("", Word(a.last), [] + a.before);
    assert [] + a.before == a.before;
  }

  // ---- methods that are not read back --------------------------------------------------------------------

  /** A request method that Go's server accepts: a token (section 5.6.2 of RFC 9110). */
  predicate IsMethod(verb: string) {
    verb != "" && IsToken(verb)
  }

  /** What has been read stays read, and an open word only grows. */
  lemma {:induction false} ScanOnlyGrows(s: string, m: Mode, words: seq<string>)
    ensures match Scan(s, m, words)
            case None => true
            case Some(ws) =>
              words <= ws && (!m.Between? ==> |ws| > |words| && m.text <= ws[|words|])
    decreases |s|
  {
    if s == "" || s[0] == NUL {
    } else if m.Quoted? {
      ScanOnlyGrows(s[1..], if s[0] == '\'' then Word(m.text) else Quoted(m.text + [s[0]]), words);
    } else if s[0] == ' ' || s[0] == '\t' {
      ScanOnlyGrows(s[1..], Between, if m.Word? then words + [m.text] else words);
    } else if s[0] == '\'' {
      ScanOnlyGrows(s[1..], Quoted(TextOf(m)), words);
    } else if s[0] == '\\' {
      if |s| > 1 && s[1] != NUL {
        if s[1] == '\n' {
          ScanOnlyGrows(s[2..], m, words);
        } else {
          ScanOnlyGrows(s[2..], Word(TextOf(m) + [s[1]]), words);
        }
      }
    } else if !Special(s[0]) && !(m.Between? && SpecialFirst(s[0])) {
      ScanOnlyGrows(s[1..], Word(TextOf(m) + [s[0]]), words);
    }
  }

  /** Reading on does not make this the next word. */
  ghost predicate NotNext(s: string, m: Mode, words: seq<string>, w: string) {
    match Scan(s, m, words)
    case None => true
    case Some(ws) => |ws| > |words| && ws[|words|] != w
  }

  lemma OffTheTrack(s: string, m: Mode, words: seq<string>, w: string)
    requires !m.Between? && !(m.text <= w)
    ensures NotNext(s, m, words, w)
  {
    ScanOnlyGrows(s, m, words);
  }

  lemma WrongTurn(before: string, c: char, w: string)
    requires before + ['\''] <= w && c != '\''
    ensures !(before + [c] <= w)
  {
    assert (before + ['\''])[|before|] == '\'' && (before + [c])[|before|] == c;
  }

  /** After `before` the word is to have a quote, but the characters still to come before the next space contain
      none that could put one there. */
  lemma {:induction false} QuoteIsLost(more: string, rest: string, before: string, words: seq<string>, w: string)
    requires IsToken(more) && before + ['\''] <= w
    ensures NotNext(more + (" " + rest), Word(before), words, w)
    ensures NotNext(more + (" " + rest), Quoted(before), words, w)
    decreases |more|
  {
    var s := more + (" " + rest);
    if more == "" {
      assert s == " " + rest && s[1..] == rest;
      ScanOnlyGrows(rest, Between, words + [before]);
      WrongTurn(before, ' ', w);
      OffTheTrack(rest, Quoted(before + [' ']), words, w);
    } else {
      var c := more[0];
      assert IsTokenChar(c);
      assert s[0] == c && s[1..] == more[1..] + (" " + rest);
      assert forall i | 0 <= i < |more[1..]| :: more[1..][i] == more[i + 1];
      if c == '\'' {
        QuoteIsLost(more[1..], rest, before, words, w);
      } else {
        WrongTurn(before, c, w);
        OffTheTrack(s[1..], Word(before + [c]), words, w);
        OffTheTrack(s[1..], Quoted(before + [c]), words, w);
      }
    }
  }

  /** The rest of a method, with a special character still to come, is not read as itself. */
  lemma {:induction false} SpecialIsNotNext(
    more: string, rest: string, before: string, m: Mode, words: seq<string>, w: string)
    requires IsToken(more) && more != "" && w == before + more
    requires !PlainText(more) || (before == "" && SpecialFirst(more[0]))
    requires m == (if before == "" then Between else Word(before))
    ensures NotNext(more + (" " + rest), m, words, w)
    decreases |more|
  {
    var s, c := more + (" " + rest), more[0];
    assert IsTokenChar(c);
    assert s[0] == c && s[1..] == more[1..] + (" " + rest);
    assert forall i | 0 <= i < |more[1..]| :: more[1..][i] == more[i + 1];
    assert before + [c] + more[1..] == w;
    if c == '\'' {
      QuoteIsLost(more[1..], rest, before, words, w);
    } else if !Special(c) && !(before == "" && SpecialFirst(c)) {
      assert more == [c] + more[1..];
      SpecialIsNotNext(more[1..], rest, before + [c], Word(before + [c]), words, w);
    }
  }

  lemma OpeningStarts(r: Request, rest: string)
    ensures var tail := r.verb + (" " + (Shq(r.Url()) + rest));
            Scan(Opening(r) + rest, Between, []) == Scan(tail, Between, ["curl", "-X"])
  {
    var tail := r.verb + (" " + (Shq(r.Url()) + rest));
    OpeningText("curl", "-X", r.verb, Shq(r.Url()), rest);
    PlainThenSpace("curl", "-X" + (" " + tail), []);
    PlainThenSpace("-X", tail, ["curl"]);
    assert [] + ["curl"] == ["curl"] && ["curl"] + ["-X"] == ["curl", "-X"];
  }

  lemma OpeningText(a: string, b: string, c: string, d: string, rest: string)
    ensures a + " " + b + " " + c + " " + d + rest == a + (" " + (b + (" " + (c + (" " + (d + rest))))))
  {
  }

  lemma {:induction false} PartsStart(parts: seq<string>)
    requires parts != []
    ensures exists rest :: JoinParts(parts) == parts[0] + rest
    decreases |parts|
  {
    if |parts| == 1 {
      assert JoinParts(parts) == parts[0] + "";
    } else {
      PartsStart(parts[..|parts| - 1]);
      var rest :| JoinParts(parts[..|parts| - 1]) == parts[0] + rest;
      assert JoinParts(parts) == parts[0] + (rest + BREAK + parts[|parts| - 1]);
    }
  }

  /** The list begins with these four arguments. */
  predicate StartsWith(a: Args, four: seq<string>) {
    |four| == 4 && four <= a.All()
  }

  lemma {:induction false} HeadersKeepStart(a: Args, k: string, values: seq<string>, four: seq<string>)
    requires StartsWith(a, four)
    ensures StartsWith(AfterHeaders(a, k, values), four)
    decreases |values|
  {
    if values != [] {
      HeadersKeepStart(a, k, values[..|values| - 1], four);
    }
  }

  lemma {:induction false} AllHeadersKeepStart(a: Args, headers: seq<(string, seq<string>)>, four: seq<string>)
    requires StartsWith(a, four)
    ensures StartsWith(AfterAllHeaders(a, headers), four)
    decreases |headers|
  {
    if headers != [] {
      var front, last := headers[..|headers| - 1], headers[|headers| - 1];
      AllHeadersKeepStart(a, front, four);
      HeadersKeepStart(AfterAllHeaders(a, front), last.0, last.1, four);
    }
  }

  /** The command is curl with the method and the whole URL, before everything else. */
  lemma ArgvStarts(r: Request)
    ensures ["curl", "-X", r.verb, r.scheme + "://" + r.host + r.path] <= Argv(r)
  {
    var four := ["curl", "-X", r.verb, r.scheme + "://" + r.host + r.path];
    var a := Args(["curl", "-X", r.verb], r.Url());
    assert a.All() == four;
    AllHeadersKeepStart(a, r.headers, four);
  }

  lemma SpecialVerbIsNotReadBack(r: Request)
    requires IsMethod(r.verb) && !PlainWord(r.verb)
    ensures Read(JoinParts(Parts(r))) != Some(Argv(r))
  {
    var parts := Parts(r);
    PartsStart(parts);
    var rest :| JoinParts(parts) == parts[0] + rest;
    OpeningStarts(r, rest);
    SpecialIsNotNext(r.verb, Shq(r.Url()) + rest, "", Between, ["curl", "-X"], r.verb);
    ArgvStarts(r);
  }

  lemma TokenLacksNul(verb: string)
    requires IsToken(verb)
    ensures PlainText(verb) <==> forall c <- verb :: !Special(c)
  {
    forall c <- verb ensures c != NUL {
      var i :| 0 <= i < |verb| && verb[i] == c;
      assert IsTokenChar(verb[i]);
    }
  }

  /** The shell reads the copied text, line breaks and all, as exactly the intended argument list, for any URL,
      headers and body without NUL, if and only if the method, which is not quoted, has no special character and does
      not start with one that is special there.  (A token may: a method A&B breaks the command.) */
  lemma CurlIsReadBack(r: Request)
    requires IsMethod(r.verb) && NUL !in r.Url() && NUL !in r.body
    requires CleanHeaders(r.headers)
    ensures Read(JoinParts(Parts(r))) == Some(Argv(r))
            <==> !SpecialFirst(r.verb[0]) && forall c <- r.verb :: !Special(c)
    ensures ["curl", "-X", r.verb, r.scheme + "://" + r.host + r.path] <= Argv(r)
  {
    ArgvStarts(r);
    TokenLacksNul(r.verb);
    if PlainWord(r.verb) {
      PlainVerbIsReadBack(r);
    } else {
      SpecialVerbIsNotReadBack(r);
    }
  }
}
