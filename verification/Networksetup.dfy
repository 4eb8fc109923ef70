/** The two text parsers of internal/sysproxy against the reports that networksetup prints. */
module Networksetup {
  import opened Wrappers
  import opened Text
  import opened SysProxy

  // ---- decimal numbers ---------------------------------------------------------------------

  const MAX_INT := 0x7FFF_FFFF_FFFF_FFFF
  const MIN_INT := -0x8000_0000_0000_0000

  function Digit(d: nat): char
    requires d < 10
  {
    '0' + d as char
  }

  function Decimal(n: nat): string {
    if n < 10 then [Digit(n)] else Decimal(n / 10) + [Digit(n % 10)]
  }

  /** strconv.Itoa. */
  function Itoa(n: int): string {
    if n < 0 then "-" + Decimal(-n) else Decimal(n)
  }

  function Value(s: string): Option<nat> {
    if s == "" then Some(0)
    else
      var c := s[|s| - 1];
      match Value(s[..|s| - 1])
      case None => None
      case Some(v) => if '0' <= c <= '9' then Some(10 * v + (c - '0') as nat) else None
  }

  /** The range of a 64-bit int. */
  function InRange(n: int): Option<int> {
    if MIN_INT <= n <= MAX_INT then Some(n) else None
  }

  /** strconv.Atoi: an optional sign, at least one digit, and the range of a 64-bit int. */
  function Atoi(s: string): (r: Option<int>)
    ensures r.Some? ==> MIN_INT <= r.value <= MAX_INT
  {
    var negative := s != "" && s[0] == '-';
    var digits := if s != "" && (s[0] == '-' || s[0] == '+') then s[1..] else s;
    if digits == "" then None
    else
      match Value(digits)
      case None => None
      case Some(v) =>
        var n: int := if negative then -(v as int) else v;
        InRange(n)
  }

  lemma {:induction false} DecimalIsRead(n: nat)
    ensures Decimal(n) != "" && Value(Decimal(n)) == Some(n)
    ensures forall c <- Decimal(n) :: '0' <= c <= '9'
  {
    var s := Decimal(n);
    if n >= 10 {
      DecimalIsRead(n / 10);
      assert s[..|s| - 1] == Decimal(n / 10);
    } else {
      assert s[..0] == "" && Value("") == Some(0);
    }
  }

  lemma AtoiOfDigits(d: string, v: nat)
    requires d != "" && Value(d) == Some(v) && forall c <- d :: '0' <= c <= '9'
    ensures Atoi(d) == InRange(v)
    ensures Atoi("-" + d) == InRange(-(v as int))
  {
    assert d[0] in d;
    var s := "-" + d;
    assert s[0] == '-' && s[1..] == d;
  }

  lemma NoSpaceIsTrimmed(s: string)
    requires forall c <- s :: c == '-' || '0' <= c <= '9'
    ensures Trimmed(s)
  {
    if s != "" {
      assert s[0] in s && s[|s| - 1] in s;
    }
  }

  lemma ItoaIsRead(n: int)
    ensures Atoi(Itoa(n)) == InRange(n)
    ensures Trimmed(Itoa(n)) && '\n' !in Itoa(n)
  {
    var m: nat := if n < 0 then -n else n;
    DecimalIsRead(m);
    AtoiOfDigits(Decimal(m), m);
    NoSpaceIsTrimmed(Itoa(n));
  }

  // ---- the proxy report ----------------------------------------------------------------------

  const UNSET := Setting(false, "", 0)

  /** strings.EqualFold(v, "Yes"); the long s also folds to s. */
  predicate IsYes(v: string) {
    |v| == 3 && v[0] in ['Y', 'y'] && v[1] in ['E', 'e'] && v[2] in ['S', 's', '\U{17F}']
  }

  function ReportLine(s: Setting, line: string): Setting {
    match Cut(line, ":")
    case None => s
    case Some((k, v)) =>
      var key, val := TrimSpace(k), TrimSpace(v);
      if key == "Enabled" then s.(enabled := IsYes(val))
      else if key == "Server" then s.(host := val)
      else if key == "Port" && Atoi(val).Some? then s.(port := Atoi(val).value)
      else s
  }

  function ReportLines(s: Setting, lines: seq<string>): Setting
    decreases |lines|
  {
    if lines == [] then s else ReportLines(ReportLine(s, lines[0]), lines[1..])
  }

  function ParsedReport(out: string): Setting {
    ReportLines(UNSET, Split(out, '\n'))
  }

  method ParseProxySetting(out: string) returns (s: Setting)
    ensures s == ParsedReport(out)
  {
    s := UNSET;
    var lines := Split(out, '\n');
    var i := 0;
    while i < |lines|
      invariant 0 <= i <= |lines|
      invariant ReportLines(s, lines[i..]) == ParsedReport(out)
    {
      var line := lines[i];
      ghost var before := s;
      assert lines[i..][0] == line && lines[i..][1..] == lines[i + 1..];
      match Cut(line, ":") {
        case None =>
        case Some((k, v)) =>
          var key, val := TrimSpace(k), TrimSpace(v);
          if key == "Enabled" {
            s := s.(enabled := IsYes(val));
          } else if key == "Server" {
            s := s.(host := val);
          } else if key == "Port" {
            var n := Atoi(val);
            if n.Some? {
              s := s.(port := n.value);
            }
          }
      }
      assert s == ReportLine(before, line);
      i := i + 1;
    }
  }

  function ReportTexts(s: Setting): seq<string> {
    ["Enabled" + ": " + (if s.enabled then "Yes" else "No"),
     "Server" + ": " + s.host,
     "Port" + ": " + Itoa(s.port),
     "Authenticated Proxy Enabled" + ": " + "0",
     ""]
  }

  /** The report as networksetup prints it. */
  function Report(s: Setting): string {
    Join(ReportTexts(s), '\n')
  }

  predicate Printable(s: Setting) {
    Trimmed(s.host) && '\n' !in s.host && MIN_INT <= s.port <= MAX_INT
  }

  lemma KeyValueLine(s: Setting, key: string, val: string)
    requires Trimmed(key) && ':' !in key && Trimmed(val)
    ensures Cut(key + ": " + val, ":").Some?
    ensures var (k, v) := Cut(key + ": " + val, ":").value; TrimSpace(k) == key && TrimSpace(v) == val
  {
    assert key + ": " + val == key + ":" + (" " + val);
    NoEarlyChar(key, ":");
    CutAt(key, ":", " " + val);
    TrimTrimmed(key);
    assert " " + val == " " + val + "";
    TrimPadded(" ", val, "");
  }

  lemma {:induction false} ReportLinesStayClean(s: Setting, lines: seq<string>)
    requires Printable(s) && forall l <- lines :: '\n' !in l
    ensures Printable(ReportLines(s, lines))
    decreases |lines|
  {
    if lines != [] {
      var line := lines[0];
      assert line in lines;
      var c := Cut(line, ":");
      if c.Some? {
        CutParts(line, ":");
        TrimSpaceTrims(c.value.1);
        TrimSpaceSubset(c.value.1);
      }
      ReportLinesStayClean(ReportLine(s, line), lines[1..]);
    }
  }

  lemma {:induction false} CutParts(s: string, sep: string)
    requires sep != "" && Cut(s, sep).Some?
    ensures s == Cut(s, sep).value.0 + sep + Cut(s, sep).value.1
  {
    if !(sep <= s) {
      CutParts(s[1..], sep);
      assert s == [s[0]] + s[1..];
    }
  }

  lemma {:induction false} TrimLeftSubset(s: string)
    ensures forall c <- TrimLeft(s) :: c in s
  {
    if s != "" && IsSpace(s[0]) {
      TrimLeftSubset(s[1..]);
      assert forall c <- s[1..] :: c in s;
    }
  }

  lemma TrimSpaceSubset(s: string)
    ensures forall c <- TrimSpace(s) :: c in s
  {
    TrimLeftSubset(s);
    TrimRightTrims(TrimLeft(s));
    assert forall c <- TrimSpace(s) :: c in TrimLeft(s);
  }

  lemma FieldIsRead(s: Setting, key: string, val: string)
    requires Trimmed(key) && ':' !in key && Trimmed(val)
    ensures ReportLine(s, key + ": " + val) ==
            if key == "Enabled" then s.(enabled := IsYes(val))
            else if key == "Server" then s.(host := val)
            else if key == "Port" && Atoi(val).Some? then s.(port := Atoi(val).value)
            else s
  {
    KeyValueLine(s, key, val);
  }

  lemma ReportLinesAppend(s: Setting, line: string, rest: seq<string>)
    ensures ReportLines(s, [line] + rest) == ReportLines(ReportLine(s, line), rest)
  {
    assert ([line] + rest)[1..] == rest;
  }

  lemma EnabledIsRead(s: Setting, on: bool)
    ensures ReportLine(s, "Enabled" + ": " + (if on then "Yes" else "No")) == s.(enabled := on)
  {
    FieldIsRead(s, "Enabled", if on then "Yes" else "No");
  }

  lemma ServerIsRead(s: Setting, host: string)
    requires Trimmed(host)
    ensures ReportLine(s, "Server" + ": " + host) == s.(host := host)
  {
    FieldIsRead(s, "Server", host);
  }

  lemma PortIsRead(s: Setting, port: int)
    requires MIN_INT <= port <= MAX_INT
    ensures ReportLine(s, "Port" + ": " + Itoa(port)) == s.(port := port)
  {
    ItoaIsRead(port);
    FieldIsRead(s, "Port", Itoa(port));
  }

  lemma OthersAreIgnored(s: Setting)
    ensures ReportLine(s, "Authenticated Proxy Enabled" + ": " + "0") == s
    ensures ReportLine(s, "") == s
  {
    FieldIsRead(s, "Authenticated Proxy Enabled", "0");
    CutAbsent("", ':');
  }

  lemma PrintedReportIsRead(s: Setting)
    requires Printable(s)
    ensures ReportLines(UNSET, ReportTexts(s)) == s
  {
    var s1 := UNSET.(enabled := s.enabled);
    var s2 := s1.(host := s.host);
    EnabledIsRead(UNSET, s.enabled);
    ServerIsRead(s1, s.host);
    PortIsRead(s2, s.port);
    OthersAreIgnored(s);
    var l := ReportTexts(s);
    FiveLines(UNSET, l[0], s1, l[1], s2, l[2], s, l[3], s, l[4], s);
    assert l == [l[0], l[1], l[2], l[3], l[4]];
  }

  lemma FiveLines(s0: Setting, l0: string, s1: Setting, l1: string, s2: Setting, l2: string, s3: Setting,
                  l3: string, s4: Setting, l4: string, s5: Setting)
    requires ReportLine(s0, l0) == s1 && ReportLine(s1, l1) == s2 && ReportLine(s2, l2) == s3
    requires ReportLine(s3, l3) == s4 && ReportLine(s4, l4) == s5
    ensures ReportLines(s0, [l0, l1, l2, l3, l4]) == s5
  {
    ReportLinesAppend(s0, l0, [l1, l2, l3, l4]);
    ReportLinesAppend(s1, l1, [l2, l3, l4]);
    ReportLinesAppend(s2, l2, [l3, l4]);
    ReportLinesAppend(s3, l3, [l4]);
    ReportLinesAppend(s4, l4, []);
    assert [l0] + [l1, l2, l3, l4] == [l0, l1, l2, l3, l4];
    assert [l1] + [l2, l3, l4] == [l1, l2, l3, l4];
    assert [l2] + [l3, l4] == [l2, l3, l4];
    assert [l3] + [l4] == [l3, l4];
    assert [l4] + [] == [l4];
  }

  lemma KeyValueIsLine(key: string, val: string)
    requires '\n' !in key && '\n' !in val
    ensures '\n' !in key + ": " + val
  {
    NotInConcat(key, ": ", '\n');
    NotInConcat(key + ": ", val, '\n');
  }

  lemma ReportLinesAreLines(s: Setting)
    requires Printable(s)
    ensures forall t <- ReportTexts(s) :: '\n' !in t
  {
    ItoaIsRead(s.port);
    KeyValueIsLine("Enabled", if s.enabled then "Yes" else "No");
    KeyValueIsLine("Server", s.host);
    KeyValueIsLine("Port", Itoa(s.port));
    KeyValueIsLine("Authenticated Proxy Enabled", "0");
  }

  lemma PrintableIsReadBack(s: Setting)
    requires Printable(s)
    ensures ParsedReport(Report(s)) == s
  {
    ReportLinesAreLines(s);
    SplitJoin(ReportTexts(s), '\n');
    PrintedReportIsRead(s);
  }

  lemma ParsedIsPrintable(out: string)
    ensures Printable(ParsedReport(out))
  {
    SplitPartsLackSep(out, '\n');
    ReportLinesStayClean(UNSET, Split(out, '\n'));
  }

  /** Parsing the printed report of a setting gives the setting back for exactly the settings that
      can be printed: hosts, colons included, without surrounding space or line break, and ports
      of an int. */
  lemma ReportRoundTrip(s: Setting)
    ensures ParsedReport(Report(s)) == s <==> Printable(s)
  {
    if Printable(s) {
      PrintableIsReadBack(s);
    } else {
      ParsedIsPrintable(Report(s));
    }
  }

  // ---- any report --------------------------------------------------------------------------------

  /** The line says that this key has this value. */
  ghost predicate Gives(line: string, key: string, val: string) {
    exists k, v :: line == k + ":" + v && ':' !in k && TrimSpace(k) == key && TrimSpace(v) == val
  }

  /** And the value can be used: a port is a number. */
  ghost predicate Says(line: string, key: string, val: string) {
    Gives(line, key, val) && (key == "Port" ==> Atoi(val).Some?)
  }

  ghost predicate SaysSome(line: string, key: string) {
    exists val :: Says(line, key, val)
  }

  /** Line `i` is the last that says what this key is. */
  ghost predicate LastSays(lines: seq<string>, key: string, i: nat, val: string) {
    i < |lines| && Says(lines[i], key, val) && forall j | i < j < |lines| :: !SaysSome(lines[j], key)
  }

  ghost predicate NeverSays(lines: seq<string>, key: string) {
    forall j | 0 <= j < |lines| :: !SaysSome(lines[j], key)
  }

  lemma {:induction false} CutIsFirst(s: string, c: char)
    ensures match Cut(s, [c])
            case None => c !in s
            case Some((before, after)) => s == before + [c] + after && c !in before
  {
    if s != "" {
      assert s == [s[0]] + s[1..];
      assert [c] <= s <==> s[0] == c;
      CutIsFirst(s[1..], c);
    }
  }

  lemma GivesByCut(line: string, key: string, val: string)
    ensures Gives(line, key, val) <==>
            match Cut(line, ":") case None => false case Some((k, v)) => TrimSpace(k) == key && TrimSpace(v) == val
  {
    assert ":" == [':'];
    CutIsFirst(line, ':');
    forall k, v | line == k + ":" + v && ':' !in k ensures Cut(line, ":") == Some((k, v)) {
      NoEarlyChar(k, ":");
      CutAt(k, ":", v);
    }
  }

  lemma {:induction false} ReportLinesSnoc(s: Setting, lines: seq<string>, line: string)
    ensures ReportLines(s, lines + [line]) == ReportLine(ReportLines(s, lines), line)
    decreases |lines|
  {
    if lines == [] {
      assert ([] + [line])[1..] == [];
    } else {
      assert (lines + [line])[1..] == lines[1..] + [line];
      ReportLinesSnoc(ReportLine(s, lines[0]), lines[1..], line);
    }
  }

  /** Yes in any case; the long s folds to s. */
  predicate MeansYes(val: string) {
    ToLower(val) == "yes" || ToLower(val) == ['y', 'e', '\U{17F}']
  }

  lemma YesInAnyCase(val: string)
    ensures IsYes(val) <==> MeansYes(val)
  {
    if |val| == 3 {
      assert ToLower(val) == [LowerChar(val[0]), LowerChar(val[1]), LowerChar(val[2])];
    }
  }

  /** A line changes the field that it speaks of, and no other. */
  lemma LineIsRead(s: Setting, line: string)
    ensures var s' := ReportLine(s, line);
            && (forall val :: Says(line, "Server", val) ==> s'.host == val)
            && (forall val :: Says(line, "Enabled", val) ==> s'.enabled == MeansYes(val))
            && (forall val :: Says(line, "Port", val) ==> Atoi(val) == Some(s'.port))
            && (!SaysSome(line, "Server") ==> s'.host == s.host)
            && (!SaysSome(line, "Enabled") ==> s'.enabled == s.enabled)
            && (!SaysSome(line, "Port") ==> s'.port == s.port)
  {
    forall key, val
      ensures Gives(line, key, val) <==>
              match Cut(line, ":") case None => false case Some((k, v)) => TrimSpace(k) == key && TrimSpace(v) == val
    {
      GivesByCut(line, key, val);
    }
    match Cut(line, ":")
    case None =>
    case Some((k, v)) =>
      YesInAnyCase(TrimSpace(v));
      assert Says(line, TrimSpace(k), TrimSpace(v)) <==> (TrimSpace(k) == "Port" ==> Atoi(TrimSpace(v)).Some?);
  }

  lemma LastSnoc(lines: seq<string>, line: string, key: string)
    ensures NeverSays(lines + [line], key) <==> NeverSays(lines, key) && !SaysSome(line, key)
    ensures forall i: nat, val :: LastSays(lines + [line], key, i, val) <==>
              if SaysSome(line, key) then i == |lines| && Says(line, key, val) else LastSays(lines, key, i, val)
  {
    assert forall j | 0 <= j < |lines| :: (lines + [line])[j] == lines[j];
    assert (lines + [line])[|lines|] == line;
  }

  /** The setting is what the last lines to speak of its fields say. */
  ghost predicate LastWins(s: Setting, lines: seq<string>) {
    && (forall i, val | LastSays(lines, "Server", i, val) :: s.host == val)
    && (forall i, val | LastSays(lines, "Enabled", i, val) :: s.enabled == MeansYes(val))
    && (forall i, val | LastSays(lines, "Port", i, val) :: Atoi(val) == Some(s.port))
    && (NeverSays(lines, "Server") ==> s.host == "")
    && (NeverSays(lines, "Enabled") ==> !s.enabled)
    && (NeverSays(lines, "Port") ==> s.port == 0)
  }

  /** Any text at all is read by the last line for each field: what follows the first colon, without the space around
      it; a port that is no number is passed over; and a field that no line speaks of is off, empty or 0. */
  lemma {:induction false} ReportIsLastWord(lines: seq<string>)
    ensures LastWins(ReportLines(UNSET, lines), lines)
  {
    if lines != [] {
      var front, line := lines[..|lines| - 1], lines[|lines| - 1];
      ReportIsLastWord(front);
      ReportLinesSnoc(UNSET, front, line);
      assert front + [line] == lines;
      LineIsRead(ReportLines(UNSET, front), line);
      LastSnoc(front, line, "Server");
      LastSnoc(front, line, "Enabled");
      LastSnoc(front, line, "Port");
    }
  }

  // ---- the service order -----------------------------------------------------------------------

  datatype Line = Blank | Hardware(device: string) | Header(name: string) | Other

  /** deviceOf. */
  function DeviceOf(line: string): string {
    match Cut(line, "Device: ")
    case None => ""
    case Some((_, after)) => TrimSpace(TrimSuffix(TrimSpace(after), ")"))
  }

  /** headerName. */
  function HeaderName(line: string): string {
    match Cut(line, ") ")
    case None => ""
    case Some((_, after)) => TrimSpace(after)
  }

  /** The switch of serviceForInterface.  Carriage returns are spaces, so TrimSpace removes them too. */
  function Classify(raw: string): Line {
    var line := TrimSpace(raw);
    if line == "" then Blank
    else if "(Hardware Port:" <= line then Hardware(DeviceOf(line))
    else if "(" <= line then Header(HeaderName(line))
    else Other
  }

  function FindService(lines: seq<Line>, name: string, iface: string): Option<string>
    decreases |lines|
  {
    if lines == [] then None
    else
      match lines[0]
      case Blank => FindService(lines[1..], "", iface)
      case Hardware(d) => if d == iface && name != "" then Some(name) else FindService(lines[1..], name, iface)
      case Header(n) => FindService(lines[1..], n, iface)
      case Other => FindService(lines[1..], name, iface)
  }

  function Lines(out: string): seq<Line> {
    ClassifyAll(Split(out, '\n'))
  }

  function ClassifyAll(texts: seq<string>): (lines: seq<Line>)
    ensures |lines| == |texts| && forall i | 0 <= i < |texts| :: lines[i] == Classify(texts[i])
  {
    if texts == [] then [] else [Classify(texts[0])] + ClassifyAll(texts[1..])
  }

  lemma FindStepAt(lines: seq<Line>, i: nat, name: string, iface: string)
    requires i < |lines|
    ensures FindService(lines[i..], name, iface) ==
            if lines[i] == Hardware(iface) && name != "" then Some(name)
            else FindService(lines[i + 1..], NextName(lines[i], name), iface)
  {
    assert lines[i..][0] == lines[i] && lines[i..][1..] == lines[i + 1..];
  }

  method ServiceForInterface(out: string, iface: string) returns (service: Option<string>)
    ensures service == FindService(Lines(out), "", iface)
  {
    service := FindInLines(Lines(out), iface);
  }

  method FindInLines(lines: seq<Line>, iface: string) returns (service: Option<string>)
    ensures service == FindService(lines, "", iface)
  {
    var name := "";
    var i := 0;
    assert lines[0..] == lines;
    while i < |lines|
      invariant 0 <= i <= |lines|
      invariant FindService(lines[i..], name, iface) == FindService(lines, "", iface)
    {
      FindStepAt(lines, i, name, iface);
      match lines[i] {
        case Blank => name := "";
        case Hardware(d) =>
          if d == iface && name != "" {
            return Some(name);
          }
        case Header(n) => name := n;
        case Other =>
      }
      i := i + 1;
    }
    return None;
  }

  /** Line `h` is the header in force when line `i` is reached: no blank line and no other header
      between. */
  ghost predicate Heads(lines: seq<Line>, h: int, i: int) {
    && 0 <= h < i <= |lines|
    && lines[h].Header?
    && forall k | h < k < i :: !lines[k].Blank? && !lines[k].Header?
  }

  /** A named header at `h` heads a line at `j` that describes the interface. */
  ghost predicate Pairs(lines: seq<Line>, iface: string, h: int, j: int) {
    j < |lines| && Heads(lines, h, j) && lines[h].name != "" && lines[j] == Hardware(iface)
  }

  /** `name` is the name in force before line `i`. */
  ghost predicate InForce(lines: seq<Line>, i: int, name: string) {
    if name != "" then exists h :: Heads(lines, h, i) && lines[h].name == name
    else forall h | Heads(lines, h, i) :: lines[h].name == ""
  }

  lemma HeadsStep(lines: seq<Line>, h: int, i: nat)
    requires i < |lines|
    ensures Heads(lines, h, i + 1) <==>
            match lines[i]
            case Header(_) => h == i
            case Blank => false
            case _ => Heads(lines, h, i)
  {
  }

  lemma OneHead(lines: seq<Line>, h: int, h': int, i: int)
    requires Heads(lines, h, i) && Heads(lines, h', i)
    ensures h == h'
  {
  }

  function NextName(line: Line, name: string): string {
    match line case Blank => "" case Header(n) => n case _ => name
  }

  lemma InForceStep(lines: seq<Line>, i: nat, name: string)
    requires i < |lines| && InForce(lines, i, name)
    ensures InForce(lines, i + 1, NextName(lines[i], name))
  {
    forall h ensures Heads(lines, h, i + 1) <==>
                     match lines[i]
                     case Header(_) => h == i
                     case Blank => false
                     case _ => Heads(lines, h, i)
    {
      HeadsStep(lines, h, i);
    }
    match lines[i]
    case Header(n) => assert Heads(lines, i, i + 1);
    case _ =>
  }

  ghost predicate IsFirstPair(lines: seq<Line>, iface: string, h: int, j: int) {
    Pairs(lines, iface, h, j) && forall h', j' | Pairs(lines, iface, h', j') :: j <= j'
  }

  /** And no other header heads that line. */
  ghost predicate OnlyFirstPair(lines: seq<Line>, iface: string, h: int, j: int) {
    IsFirstPair(lines, iface, h, j) && forall h', j' | IsFirstPair(lines, iface, h', j') :: h' == h && j' == j
  }

  lemma {:induction false} FindFrom(lines: seq<Line>, i: nat, name: string, iface: string)
    requires i <= |lines| && InForce(lines, i, name)
    requires forall h, j | Pairs(lines, iface, h, j) :: i <= j
    ensures match FindService(lines[i..], name, iface)
            case Some(n) => exists h, j :: IsFirstPair(lines, iface, h, j) && lines[h].name == n
            case None => forall h, j :: !Pairs(lines, iface, h, j)
    decreases |lines| - i
  {
    if i < |lines| {
      assert lines[i..][0] == lines[i] && lines[i..][1..] == lines[i + 1..];
      var line := lines[i];
      if line == Hardware(iface) && name != "" {
        var h :| Heads(lines, h, i) && lines[h].name == name;
        assert IsFirstPair(lines, iface, h, i);
      } else {
        assert forall h :: !Pairs(lines, iface, h, i);
        InForceStep(lines, i, name);
        FindFrom(lines, i + 1, NextName(line, name), iface);
      }
    }
  }

  /** For any text: the answer is the name on the one header of the first line that describes the
      interface under a named header, never across a blank line; no answer means no such line. */
  lemma ServiceIsFirstPaired(lines: seq<Line>, iface: string)
    ensures match FindService(lines, "", iface)
            case Some(n) => exists h, j :: OnlyFirstPair(lines, iface, h, j) && lines[h].name == n
            case None => forall h, j :: !Pairs(lines, iface, h, j)
  {
    assert lines[0..] == lines;
    FindFrom(lines, 0, "", iface);
    if FindService(lines, "", iface).Some? {
      var h, j :| IsFirstPair(lines, iface, h, j) && lines[h].name == FindService(lines, "", iface).value;
      forall h', j' | IsFirstPair(lines, iface, h', j') ensures h' == h && j' == j {
        OneHead(lines, h, h', j);
      }
      assert OnlyFirstPair(lines, iface, h, j);
    }
  }

  /** A line with space around it, a carriage return for instance. */
  ghost predicate Padded(line: string, padded: string) {
    exists before, after :: AllSpace(before) && AllSpace(after) && padded == before + line + after
  }

  /** Space around its lines does not change what a service order says. */
  lemma PaddingIsIgnored(lines: seq<string>, padded: seq<string>, name: string, iface: string)
    requires |lines| == |padded| && forall i | 0 <= i < |lines| :: Padded(lines[i], padded[i])
    ensures FindService(ClassifyAll(padded), name, iface) == FindService(ClassifyAll(lines), name, iface)
  {
    forall i | 0 <= i < |lines| ensures ClassifyAll(padded)[i] == ClassifyAll(lines)[i] {
      var before, after :| AllSpace(before) && AllSpace(after) && padded[i] == before + lines[i] + after;
      PaddingIsTrimmed(before, lines[i], after);
    }
    assert ClassifyAll(padded) == ClassifyAll(lines);
  }

  // ---- the default interface -----------------------------------------------------------------------

  /** The interface that this line of `route -n get default` names, or an empty text. */
  function InterfaceIn(line: string): string {
    match Cut(line, ":")
    case None => ""
    case Some((key, val)) => if TrimSpace(key) == "interface" then TrimSpace(val) else ""
  }

  function FirstInterface(lines: seq<string>): Option<string>
    decreases |lines|
  {
    if lines == [] then None
    else if InterfaceIn(lines[0]) != "" then Some(InterfaceIn(lines[0]))
    else FirstInterface(lines[1..])
  }

  lemma {:induction false} NoEarlierInterface(lines: seq<string>, i: nat)
    requires i <= |lines| && forall j | 0 <= j < i :: InterfaceIn(lines[j]) == ""
    ensures FirstInterface(lines) == FirstInterface(lines[i..])
  {
    if i > 0 {
      NoEarlierInterface(lines, i - 1);
      assert lines[i - 1..][0] == lines[i - 1] && lines[i - 1..][1..] == lines[i..];
    } else {
      assert lines[0..] == lines;
    }
  }

  method ParseDefaultInterface(out: string) returns (iface: Option<string>)
    ensures iface == FirstInterface(Split(out, '\n'))
  {
    var lines := Split(out, '\n');
    var i := 0;
    while i < |lines|
      invariant 0 <= i <= |lines|
      invariant forall j | 0 <= j < i :: InterfaceIn(lines[j]) == ""
    {
      var name := "";
      match Cut(lines[i], ":") {
        case None =>
        case Some((key, val)) =>
          if TrimSpace(key) == "interface" {
            name := TrimSpace(val);
          }
      }
      assert name == InterfaceIn(lines[i]);
      if name != "" {
        NoEarlierInterface(lines, i);
        return Some(name);
      }
      i := i + 1;
    }
    NoEarlierInterface(lines, i);
    return None;
  }

  lemma InterfaceLineIsRead(iface: string)
    requires Trimmed(iface)
    ensures InterfaceIn("  interface: " + iface) == iface
  {
    var key := "  interface";
    assert "  interface: " + iface == key + ":" + (" " + iface);
    NoEarlyChar(key, ":");
    CutAt(key, ":", " " + iface);
    assert key == "  " + "interface" + "";
    TrimPadded("  ", "interface", "");
    assert " " + iface == " " + iface + "";
    TrimPadded(" ", iface, "");
  }

  lemma InterfaceByCut(line: string)
    ensures forall iface :: iface != "" ==> (InterfaceIn(line) == iface <==> Gives(line, "interface", iface))
  {
    forall iface | iface != "" ensures InterfaceIn(line) == iface <==> Gives(line, "interface", iface) {
      GivesByCut(line, "interface", iface);
    }
  }

  /** Line `i` is the first to name an interface. */
  ghost predicate FirstNames(lines: seq<string>, i: int, iface: string) {
    && 0 <= i < |lines| && iface != "" && Gives(lines[i], "interface", iface)
    && forall j, other | 0 <= j < i && Gives(lines[j], "interface", other) :: other == ""
  }

  /** `found` is what the first line that names an interface says. */
  ghost predicate IsNamed(lines: seq<string>, found: Option<string>) {
    match found
    case Some(iface) => exists i :: FirstNames(lines, i, iface)
    case None => forall j, other | 0 <= j < |lines| && Gives(lines[j], "interface", other) :: other == ""
  }

  lemma NamedAtOnce(lines: seq<string>)
    requires lines != [] && InterfaceIn(lines[0]) != ""
    ensures IsNamed(lines, Some(InterfaceIn(lines[0])))
  {
    InterfaceByCut(lines[0]);
    assert FirstNames(lines, 0, InterfaceIn(lines[0]));
  }

  lemma NamedLater(lines: seq<string>, found: Option<string>)
    requires lines != [] && InterfaceIn(lines[0]) == "" && IsNamed(lines[1..], found)
    ensures IsNamed(lines, found)
  {
    InterfaceByCut(lines[0]);
    assert forall j | 0 < j < |lines| :: lines[j] == lines[1..][j - 1];
    if found.Some? {
      var i :| FirstNames(lines[1..], i, found.value);
      assert FirstNames(lines, i + 1, found.value);
    }
  }

  /** For any text: the answer is what the first line that names an interface says, and no answer means that no line
      names one. */
  lemma {:induction false} FirstInterfaceIsNamed(lines: seq<string>)
    ensures IsNamed(lines, FirstInterface(lines))
    decreases |lines|
  {
    if lines != [] {
      if InterfaceIn(lines[0]) != "" {
        NamedAtOnce(lines);
      } else {
        FirstInterfaceIsNamed(lines[1..]);
        NamedLater(lines, FirstInterface(lines[1..]));
      }
    }
  }

  /** Whatever else `route` prints around it, its first interface line gives the interface. */
  lemma DefaultRouteIsRead(before: seq<string>, iface: string, after: seq<string>)
    requires Trimmed(iface) && iface != "" && '\n' !in iface
    requires forall l <- before :: '\n' !in l && InterfaceIn(l) == ""
    requires forall l <- after :: '\n' !in l
    ensures var lines := before + ["  interface: " + iface] + after;
            FirstInterface(Split(Join(lines, '\n'), '\n')) == Some(iface)
  {
    var line := "  interface: " + iface;
    var lines := before + [line] + after;
    NotInConcat("  interface: ", iface, '\n');
    SplitJoin(lines, '\n');
    assert forall j | 0 <= j < |before| :: lines[j] == before[j] && before[j] in before;
    NoEarlierInterface(lines, |before|);
    InterfaceLineIsRead(iface);
    assert lines[|before|..][0] == line;
  }

  /** What the two reports say the primary service is. */
  function PrimaryOf(route: string, order: string): Primary {
    match FirstInterface(Split(route, '\n'))
    case None => NoRoute
    case Some(iface) =>
      match FindService(Lines(order), "", iface)
      case None => NoService
      case Some(name) => Service(name)
  }

  // ---- printed blocks ----------------------------------------------------------------------------

  datatype Block = Block(marker: string, name: string, port: string, device: string) {
    function HeaderLine(): string {
      "(" + marker + ") " + name
    }

    function BeforeDevice(): string {
      "(Hardware Port: " + port + ", "
    }

    function HardwareLine(): string {
      BeforeDevice() + "Device: " + device + ")"
    }

    /** What networksetup's own layout guarantees: a marker like 3 or *, a proper name, and a
        hardware port that does not itself announce a device. */
    predicate WellFormed() {
      && marker != "" && marker[0] != 'H' && ')' !in marker && '\n' !in marker
      && name != "" && Trimmed(name) && '\n' !in name
      && '\n' !in port && NoEarly(BeforeDevice(), "Device: ")
      && Trimmed(device) && '\n' !in device
    }
  }

  function BlockLines(blocks: seq<Block>): seq<string> {
    if blocks == [] then []
    else [blocks[0].HeaderLine(), blocks[0].HardwareLine(), ""] + BlockLines(blocks[1..])
  }

  /** The listing starts with a remark about the asterisk. */
  function ServiceOrder(preamble: string, blocks: seq<Block>): string {
    Join([preamble] + BlockLines(blocks), '\n')
  }

  function FirstWithDevice(blocks: seq<Block>, iface: string): Option<string> {
    if blocks == [] then None
    else if blocks[0].device == iface then Some(blocks[0].name)
    else FirstWithDevice(blocks[1..], iface)
  }

  lemma HeaderIsRead(b: Block)
    requires b.WellFormed()
    ensures Classify(b.HeaderLine()) == Header(b.name)
  {
    var line := b.HeaderLine();
    assert line[|line| - 1] == b.name[|b.name| - 1];
    TrimTrimmed(line);
    assert line[1] == b.marker[0];
    assert "(Hardware Port:"[1] == 'H';
    assert line[0] == '(' && "(" <= line;
    var before := "(" + b.marker;
    assert line == before + ") " + b.name;
    NoEarlyChar(before, ") ");
    CutAt(before, ") ", b.name);
    TrimTrimmed(b.name);
  }

  lemma HardwareIsRead(b: Block)
    requires b.WellFormed()
    ensures Classify(b.HardwareLine()) == Hardware(b.device)
  {
    var line := b.HardwareLine();
    assert line[0] == '(' && line[|line| - 1] == ')';
    TrimTrimmed(line);
    assert line == b.BeforeDevice() + "Device: " + (b.device + ")");
    assert "(Hardware Port:" <= "(Hardware Port: " <= line;
    CutAt(b.BeforeDevice(), "Device: ", b.device + ")");
    var after := b.device + ")";
    TrimAfterDevice(b.device);
    TrimTrimmed(b.device);
  }

  lemma TrimAfterDevice(device: string)
    requires Trimmed(device)
    ensures TrimSuffix(TrimSpace(device + ")"), ")") == device
  {
    var after := device + ")";
    assert after[|after| - 1] == ')';
    assert device != "" ==> after[0] == device[0];
    TrimTrimmed(after);
    assert after[..|after| - 1] == device;
  }

  lemma FindStep(line: Line, rest: seq<Line>, name: string, iface: string)
    ensures FindService([line] + rest, name, iface) ==
            if line == Hardware(iface) && name != "" then Some(name)
            else FindService(rest, NextName(line, name), iface)
  {
    assert ([line] + rest)[1..] == rest;
  }

  function BlockKinds(blocks: seq<Block>): seq<Line> {
    if blocks == [] then []
    else [Header(blocks[0].name), Hardware(blocks[0].device), Blank] + BlockKinds(blocks[1..])
  }

  lemma {:induction false} ClassifyAllAppend(a: seq<string>, b: seq<string>)
    ensures ClassifyAll(a + b) == ClassifyAll(a) + ClassifyAll(b)
    decreases |a|
  {
    if a == [] {
      assert a + b == b;
    } else {
      assert (a + b)[1..] == a[1..] + b;
      ClassifyAllAppend(a[1..], b);
    }
  }

  lemma BlankLine()
    ensures Classify("") == Blank
  {
  }

  lemma BlockIsClassified(b: Block)
    requires b.WellFormed()
    ensures ClassifyAll([b.HeaderLine(), b.HardwareLine(), ""]) == [Header(b.name), Hardware(b.device), Blank]
  {
    HeaderIsRead(b);
    HardwareIsRead(b);
    BlankLine();
    var lines := ClassifyAll([b.HeaderLine(), b.HardwareLine(), ""]);
    assert lines[0] == Header(b.name) && lines[1] == Hardware(b.device) && lines[2] == Blank;
  }

  lemma {:induction false} BlocksAreClassified(blocks: seq<Block>)
    requires forall b <- blocks :: b.WellFormed()
    ensures ClassifyAll(BlockLines(blocks)) == BlockKinds(blocks)
    decreases |blocks|
  {
    if blocks != [] {
      var b := blocks[0];
      BlockIsClassified(b);
      ClassifyAllAppend([b.HeaderLine(), b.HardwareLine(), ""], BlockLines(blocks[1..]));
      BlocksAreClassified(blocks[1..]);
    }
  }

  lemma {:induction false} BlocksAreFound(blocks: seq<Block>, name: string, iface: string)
    requires forall b <- blocks :: b.WellFormed()
    ensures FindService(BlockKinds(blocks), name, iface) == FirstWithDevice(blocks, iface)
    decreases |blocks|
  {
    if blocks != [] {
      var b := blocks[0];
      var rest := BlockKinds(blocks[1..]);
      assert b in blocks && b.name != "";
      assert BlockKinds(blocks) == [Header(b.name)] + ([Hardware(b.device)] + ([Blank] + rest));
      FindStep(Header(b.name), [Hardware(b.device)] + ([Blank] + rest), name, iface);
      FindStep(Hardware(b.device), [Blank] + rest, b.name, iface);
      FindStep(Blank, rest, b.name, iface);
      BlocksAreFound(blocks[1..], "", iface);
    }
  }

  lemma LinesLackNewline(b: Block)
    requires b.WellFormed()
    ensures '\n' !in b.HeaderLine() && '\n' !in b.HardwareLine()
  {
    NotInConcat("(", b.marker, '\n');
    NotInConcat("(" + b.marker, ") ", '\n');
    NotInConcat("(" + b.marker + ") ", b.name, '\n');
    NotInConcat("(Hardware Port: ", b.port, '\n');
    NotInConcat("(Hardware Port: " + b.port, ", ", '\n');
    NotInConcat(b.BeforeDevice(), "Device: ", '\n');
    NotInConcat(b.BeforeDevice() + "Device: ", b.device, '\n');
    NotInConcat(b.BeforeDevice() + "Device: " + b.device, ")", '\n');
  }

  lemma {:induction false} BlockLinesAreLines(blocks: seq<Block>)
    requires forall b <- blocks :: b.WellFormed()
    ensures forall l <- BlockLines(blocks) :: '\n' !in l
    decreases |blocks|
  {
    if blocks != [] {
      BlockLinesAreLines(blocks[1..]);
      LinesLackNewline(blocks[0]);
    }
  }

  /** On a printed service order the answer is the full name, spaces and ") " included, of the
      first block with that device. */
  lemma ServiceOrderIsRead(preamble: string, blocks: seq<Block>, iface: string)
    requires TrimSpace(preamble) != "" && !("(" <= TrimSpace(preamble)) && '\n' !in preamble
    requires forall b <- blocks :: b.WellFormed()
    ensures FindService(Lines(ServiceOrder(preamble, blocks)), "", iface) == FirstWithDevice(blocks, iface)
  {
    var texts := [preamble] + BlockLines(blocks);
    assert "(" <= "(Hardware Port:" && Classify(preamble) == Other;
    BlockLinesAreLines(blocks);
    SplitJoin(texts, '\n');
    ClassifyAllAppend([preamble], BlockLines(blocks));
    BlocksAreClassified(blocks);
    FindStep(Other, BlockKinds(blocks), "", iface);
    assert ClassifyAll([preamble]) == [Other];
    BlocksAreFound(blocks, "", iface);
  }

  /** From the printed reports to the service: the name of the first block with the default route's device; no service
      if there is none. */
  lemma PrimaryIsRead(before: seq<string>, iface: string, after: seq<string>, preamble: string, blocks: seq<Block>)
    requires Trimmed(iface) && iface != "" && '\n' !in iface
    requires forall l <- before :: '\n' !in l && InterfaceIn(l) == ""
    requires forall l <- after :: '\n' !in l
    requires TrimSpace(preamble) != "" && !("(" <= TrimSpace(preamble)) && '\n' !in preamble
    requires forall b <- blocks :: b.WellFormed()
    ensures var route := Join(before + ["  interface: " + iface] + after, '\n');
            PrimaryOf(route, ServiceOrder(preamble, blocks)) ==
            match FirstWithDevice(blocks, iface) case None => NoService case Some(name) => Service(name)
  {
    DefaultRouteIsRead(before, iface, after);
    ServiceOrderIsRead(preamble, blocks, iface);
  }

  /** And a route report that names no interface means no route, whatever the service order says. */
  lemma NoInterfaceMeansNoRoute(route: string, order: string)
    ensures PrimaryOf(route, order).NoRoute? <==>
            forall l <- Split(route, '\n'), iface :: Gives(l, "interface", iface) ==> iface == ""
  {
    FirstInterfaceIsNamed(Split(route, '\n'));
  }
}
