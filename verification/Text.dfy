/** The string functions of Go's strings package that the modelled code uses. */
module Text {
  import opened Wrappers

  /** unicode.IsSpace. */
  predicate IsSpace(c: char) {
    || c == ' ' || '\t' <= c <= '\r' || c == '\U{85}' || c == '\U{A0}' || c == '\U{1680}'
    || '\U{2000}' <= c <= '\U{200A}' || c == '\U{2028}' || c == '\U{2029}'
    || c == '\U{202F}' || c == '\U{205F}' || c == '\U{3000}'
  }

  predicate AllSpace(s: string) {
    forall i | 0 <= i < |s| :: IsSpace(s[i])
  }

  /** No space at either end. */
  predicate Trimmed(s: string) {
    s != "" ==> !IsSpace(s[0]) && !IsSpace(s[|s| - 1])
  }

  function TrimLeft(s: string): string {
    if s != "" && IsSpace(s[0]) then TrimLeft(s[1..]) else s
  }

  function TrimRight(s: string): string {
    if s != "" && IsSpace(s[|s| - 1]) then TrimRight(s[..|s| - 1]) else s
  }

  function TrimSpace(s: string): string {
    TrimRight(TrimLeft(s))
  }

  lemma {:induction false} TrimLeftPadded(a: string, s: string)
    requires AllSpace(a) && (s != "" ==> !IsSpace(s[0]))
    ensures TrimLeft(a + s) == s
  {
    if a == "" {
      assert a + s == s;
    } else {
      assert (a + s)[1..] == a[1..] + s;
      TrimLeftPadded(a[1..], s);
    }
  }

  lemma {:induction false} TrimRightPadded(s: string, b: string)
    requires AllSpace(b) && (s != "" ==> !IsSpace(s[|s| - 1]))
    ensures TrimRight(s + b) == s
  {
    if b == "" {
      assert s + b == s;
    } else {
      assert (s + b)[..|s + b| - 1] == s + b[..|b| - 1];
      TrimRightPadded(s, b[..|b| - 1]);
    }
  }

  lemma {:induction false} TrimLeftAllSpace(a: string)
    requires AllSpace(a)
    ensures TrimLeft(a) == ""
  {
    assert a + "" == a;
    TrimLeftPadded(a, "");
  }

  /** Padding a trimmed string with spaces on both sides and trimming it gives it back. */
  lemma TrimPadded(a: string, s: string, b: string)
    requires AllSpace(a) && AllSpace(b) && Trimmed(s)
    ensures TrimSpace(a + s + b) == s
  {
    if s == "" {
      assert a + s + b == a + b;
      TrimLeftAllSpace(a + b);
    } else {
      assert a + s + b == a + (s + b);
      TrimLeftPadded(a, s + b);
      TrimRightPadded(s, b);
    }
  }

  lemma {:induction false} TrimRightTrims(s: string)
    ensures TrimRight(s) <= s
    ensures TrimRight(s) != "" ==> !IsSpace(TrimRight(s)[|TrimRight(s)| - 1])
  {
    if s != "" && IsSpace(s[|s| - 1]) {
      TrimRightTrims(s[..|s| - 1]);
    }
  }

  lemma {:induction false} TrimLeftTrims(s: string)
    ensures TrimLeft(s) != "" ==> !IsSpace(TrimLeft(s)[0])
  {
    if s != "" && IsSpace(s[0]) {
      TrimLeftTrims(s[1..]);
    }
  }

  lemma TrimSpaceTrims(s: string)
    ensures Trimmed(TrimSpace(s))
  {
    TrimLeftTrims(s);
    TrimRightTrims(TrimLeft(s));
  }

  lemma {:induction false} TrimLeftOfPadded(a: string, s: string)
    requires AllSpace(a)
    ensures TrimLeft(a + s) == TrimLeft(s)
  {
    if a == "" {
      assert a + s == s;
    } else {
      assert (a + s)[1..] == a[1..] + s;
      TrimLeftOfPadded(a[1..], s);
    }
  }

  lemma {:induction false} TrimRightOfPadded(s: string, b: string)
    requires AllSpace(b)
    ensures TrimRight(s + b) == TrimRight(s)
  {
    if b == "" {
      assert s + b == s;
    } else {
      assert (s + b)[..|s + b| - 1] == s + b[..|b| - 1];
      TrimRightOfPadded(s, b[..|b| - 1]);
    }
  }

  lemma {:induction false} TrimLeftThenPad(s: string, b: string)
    requires AllSpace(b)
    ensures TrimLeft(s + b) == if TrimLeft(s) == "" then "" else TrimLeft(s) + b
  {
    if s == "" {
      assert s + b == b;
      TrimLeftAllSpace(b);
    } else if IsSpace(s[0]) {
      assert (s + b)[1..] == s[1..] + b;
      TrimLeftThenPad(s[1..], b);
    }
  }

  /** Space around a string makes no difference to what trimming leaves. */
  lemma PaddingIsTrimmed(a: string, s: string, b: string)
    requires AllSpace(a) && AllSpace(b)
    ensures TrimSpace(a + s + b) == TrimSpace(s)
  {
    assert a + s + b == a + (s + b);
    TrimLeftOfPadded(a, s + b);
    TrimLeftThenPad(s, b);
    if TrimLeft(s) != "" {
      TrimRightOfPadded(TrimLeft(s), b);
    }
  }

  lemma TrimTrimmed(s: string)
    requires Trimmed(s)
    ensures TrimSpace(s) == s
  {
    assert "" + s + "" == s;
    TrimPadded("", s, "");
  }

  /** strings.Cut at the first occurrence of `sep`. */
  function Cut(s: string, sep: string): Option<(string, string)>
    requires sep != ""
  {
    if sep <= s then Some(("", s[|sep|..]))
    else if s == "" then None
    else
      match Cut(s[1..], sep)
      case None => None
      case Some((before, after)) => Some(([s[0]] + before, after))
  }

  /** `sep` does not begin inside `before` when `sep` follows it. */
  predicate NoEarly(before: string, sep: string) {
    forall i | 0 <= i < |before| :: !(sep <= (before + sep)[i..])
  }

  lemma {:induction false} CutAt(before: string, sep: string, after: string)
    requires sep != "" && NoEarly(before, sep)
    ensures Cut(before + sep + after, sep) == Some((before, after))
  {
    var s := before + sep + after;
    if before == "" {
      assert s == sep + after;
      assert s[|sep|..] == after;
    } else {
      assert !(sep <= (before + sep)[0..]);
      assert (before + sep)[0..] == before + sep;
      assert s[..|sep|] == (before + sep)[..|sep|];
      assert s[1..] == before[1..] + sep + after;
      forall i | 0 <= i < |before[1..]| ensures !(sep <= (before[1..] + sep)[i..]) {
        assert (before[1..] + sep)[i..] == (before + sep)[i + 1..];
      }
      CutAt(before[1..], sep, after);
      assert [before[0]] + before[1..] == before;
    }
  }

  lemma NoEarlyChar(before: string, sep: string)
    requires sep != "" && sep[0] !in before
    ensures NoEarly(before, sep)
  {
    forall i | 0 <= i < |before| ensures !(sep <= (before + sep)[i..]) {
      assert (before + sep)[i..][0] == before[i];
    }
  }

  lemma {:induction false} CutAbsent(s: string, c: char)
    requires c !in s
    ensures Cut(s, [c]) == None
  {
    if s != "" {
      assert s[0] in s && forall d | d in s[1..] :: d in s;
      CutAbsent(s[1..], c);
    }
  }

  lemma NotInConcat(a: string, b: string, c: char)
    ensures c in a + b <==> c in a || c in b
  {
  }

  /** strings.Split by one character: never empty. */
  function Split(s: string, sep: char): (r: seq<string>)
    ensures r != []
  {
    if s == "" then [""]
    else
      var rest := Split(s[1..], sep);
      if s[0] == sep then [""] + rest else [[s[0]] + rest[0]] + rest[1..]
  }

  function Join(parts: seq<string>, sep: char): string
    requires parts != []
  {
    if |parts| == 1 then parts[0] else parts[0] + [sep] + Join(parts[1..], sep)
  }

  lemma {:induction false} SplitWhole(s: string, sep: char)
    requires sep !in s
    ensures Split(s, sep) == [s]
  {
    if s != "" {
      SplitWhole(s[1..], sep);
      assert [s[0]] + s[1..] == s;
    }
  }

  lemma {:induction false} SplitFirst(line: string, sep: char, rest: string)
    requires sep !in line
    ensures Split(line + [sep] + rest, sep) == [line] + Split(rest, sep)
  {
    var s := line + [sep] + rest;
    if line == "" {
      assert s[0] == sep && s[1..] == rest;
    } else {
      assert s[0] == line[0] && s[1..] == line[1..] + [sep] + rest;
      SplitFirst(line[1..], sep, rest);
      assert [line[0]] + line[1..] == line;
    }
  }

  lemma {:induction false} SplitJoin(parts: seq<string>, sep: char)
    requires parts != [] && forall p <- parts :: sep !in p
    ensures Split(Join(parts, sep), sep) == parts
  {
    if |parts| == 1 {
      SplitWhole(parts[0], sep);
    } else {
      SplitFirst(parts[0], sep, Join(parts[1..], sep));
      SplitJoin(parts[1..], sep);
      assert [parts[0]] + parts[1..] == parts;
    }
  }

  lemma {:induction false} SplitPartsLackSep(s: string, sep: char)
    ensures forall p <- Split(s, sep) :: sep !in p
  {
    if s != "" {
      SplitPartsLackSep(s[1..], sep);
      var rest := Split(s[1..], sep);
      assert rest[0] in rest;
      forall p <- Split(s, sep) ensures sep !in p {
        if p in rest[1..] {
          assert p in rest;
        }
      }
    }
  }

  predicate HasSuffix(s: string, suffix: string) {
    |suffix| <= |s| && s[|s| - |suffix|..] == suffix
  }

  function TrimSuffix(s: string, suffix: string): string {
    if HasSuffix(s, suffix) then s[..|s| - |suffix|] else s
  }

  // ---- case ----------------------------------------------------------------------------------

  predicate IsLower(c: char) {
    'a' <= c <= 'z'
  }

  predicate IsUpper(c: char) {
    'A' <= c <= 'Z'
  }

  function Cased(c: char, upper: bool): char {
    if upper && IsLower(c) then c - 'a' + 'A'
    else if !upper && IsUpper(c) then c - 'A' + 'a'
    else c
  }

  predicate SameButForCase(a: string, b: string) {
    |a| == |b| && forall i | 0 <= i < |a| :: Cased(a[i], false) == Cased(b[i], false)
  }

  /** unicode.ToLower on ASCII and on the two other characters that it maps into ASCII. */
  function LowerChar(c: char): char {
    if 'A' <= c <= 'Z' then c - 'A' + 'a'
    else if c == '\U{130}' then 'i'
    else if c == '\U{212A}' then 'k'
    else c
  }

  /** strings.ToLower. */
  function ToLower(s: string): (r: string)
    ensures |r| == |s| && forall i | 0 <= i < |s| :: r[i] == LowerChar(s[i])
  {
    if s == "" then "" else [LowerChar(s[0])] + ToLower(s[1..])
  }

  /** An ASCII text without capitals is what all its spellings become. */
  lemma LowerIsOneSpelling(s: string, lower: string)
    requires SameButForCase(s, lower) && forall c <- lower :: !IsUpper(c) && c < '\U{80}'
    ensures ToLower(s) == lower
  {
    forall i | 0 <= i < |s| ensures ToLower(s)[i] == lower[i] {
      assert lower[i] in lower;
    }
  }
}
