/** internal/flow/decode.go: undoing stacked content codings, within a cap, without ever failing.

    The decompressors are parameters.  What a reader yields is all the bytes it can produce, and how it
    then ends. */
module Decode {
  import opened Wrappers
  import opened Text

  type Byte = x: int | 0 <= x < 256 witness 0

  type Bytes = seq<Byte>

  datatype End = Eof | Error(text: string)

  datatype Stream = Stream(data: Bytes, end: End)

  /** gzip.NewReader may reject its input; the other readers always open. */
  datatype Opened = Rejected(text: string) | Open(stream: Stream)

  datatype Codecs = Codecs(
    gunzip: Bytes -> Opened, unbrotli: Bytes -> Stream, unzlib: Bytes -> Stream, unflate: Bytes -> Stream)

  datatype Note = NoNote | Unsupported(coding: string) | CouldNotDecode(coding: string, text: string) | CutShort

  datatype Report = Report(encodings: seq<string>, decoded: bool, partial: bool, note: Note)

  const DEFAULT_BODY_CAP: nat := 10 * 1024 * 1024

  // ---- codings ------------------------------------------------------------------------------

  function CodingOf(token: string): string {
    ToLower(TrimSpace(token))
  }

  predicate IsNoCoding(coding: string) {
    coding == "" || coding == "identity"
  }

  function Lowered(tokens: seq<string>): seq<string> {
    if tokens == [] then [] else [CodingOf(tokens[0])] + Lowered(tokens[1..])
  }

  /** Without the empty ones and identity. */
  function Kept(codings: seq<string>): seq<string> {
    if codings == [] then []
    else (if IsNoCoding(codings[0]) then [] else [codings[0]]) + Kept(codings[1..])
  }

  function KeptCodings(tokens: seq<string>): seq<string> {
    Kept(Lowered(tokens))
  }

  lemma KeptStep(out: seq<string>, codings: seq<string>, i: nat)
    requires i < |codings|
    ensures out + Kept(codings[i..]) ==
            (if IsNoCoding(codings[i]) then out else out + [codings[i]]) + Kept(codings[i + 1..])
  {
    assert codings[i..][0] == codings[i] && codings[i..][1..] == codings[i + 1..];
    assert out + ([codings[i]] + Kept(codings[i + 1..])) == (out + [codings[i]]) + Kept(codings[i + 1..]);
    assert [] + Kept(codings[i + 1..]) == Kept(codings[i + 1..]);
  }

  method ParseCodings(value: string) returns (out: seq<string>)
    ensures out == KeptCodings(Split(value, ','))
  {
    out := Keep(Lowered(Split(value, ',')));
  }

  method Keep(codings: seq<string>) returns (out: seq<string>)
    ensures out == Kept(codings)
  {
    out := [];
    var i := 0;
    assert codings[0..] == codings;
    while i < |codings|
      invariant 0 <= i <= |codings|
      invariant out + Kept(codings[i..]) == Kept(codings)
    {
      KeptStep(out, codings, i);
      if !IsNoCoding(codings[i]) {
        out := out + [codings[i]];
      }
      i := i + 1;
    }
    assert codings[i..] == [];
  }

  // ---- one layer -----------------------------------------------------------------------------

  predicate Supported(coding: string) {
    coding == "gzip" || coding == "x-gzip" || coding == "deflate" || coding == "br"
  }

  /** The check of zlib.NewReader: compression method and window, the checksum of the first two bytes, and a
      preset dictionary only if it is the empty one. */
  predicate ZlibHeader(b: Bytes) {
    && |b| >= 2
    && b[0] % 16 == 8 && b[0] / 16 <= 7
    && (256 * b[0] as int + b[1] as int) % 31 == 0
    && ((b[1] / 32) % 2 == 1 ==> |b| >= 6 && b[2..6] == [0, 0, 0, 1])
  }

  /** decoderFor: deflate is tried as zlib first, then as a bare DEFLATE stream. */
  function OpenLayer(codecs: Codecs, coding: string, b: Bytes): Opened
    requires Supported(coding)
  {
    if coding == "deflate" then Open(if ZlibHeader(b) then codecs.unzlib(b) else codecs.unflate(b))
    else if coding == "br" then Open(codecs.unbrotli(b))
    else codecs.gunzip(b)
  }

  predicate Contains(s: string, pat: string) {
    exists i | 0 <= i <= |s| :: pat <= s[i..]
  }

  predicate IsTruncation(text: string) {
    Contains(text, "unexpected EOF") || Contains(text, "truncated") || Contains(text, "corrupt")
  }

  datatype Layer = Failed(text: string) | Got(out: Bytes, partial: bool)

  /** At most one byte past the cap is read, so how a longer stream ends is never seen. */
  function DecodeOne(o: Opened, cap: nat): Layer {
    match o
    case Rejected(text) => Failed(text)
    case Open(Stream(data, end)) =>
      if |data| > cap then Got(data[..cap], true)
      else
        match end
        case Eof => Got(data, false)
        case Error(text) => if IsTruncation(text) then Got(data, true) else Failed(text)
  }

  // ---- all layers ------------------------------------------------------------------------------

  datatype Outcome = Outcome(out: Bytes, decoded: bool, note: Note)

  /** Undoing the codings at 0..i, the last one first. */
  function Peel(codecs: Codecs, codings: seq<string>, i: nat, o: Outcome, cap: nat): Outcome
    requires i <= |codings|
  {
    if i == 0 then o
    else
      var coding := codings[i - 1];
      if !Supported(coding) then o.(note := Unsupported(coding))
      else
        match DecodeOne(OpenLayer(codecs, coding, o.out), cap)
        case Failed(text) => o.(note := CouldNotDecode(coding, text))
        case Got(out, partial) =>
          if partial then Outcome(out, true, CutShort)
          else Peel(codecs, codings, i - 1, Outcome(out, true, NoNote), cap)
  }

  function Ceiling(cap: int): nat {
    if cap <= 0 then DEFAULT_BODY_CAP else cap
  }

  function Decoded(codecs: Codecs, header: string, body: Bytes, cap: int): (Bytes, Report) {
    var codings := KeptCodings(Split(header, ','));
    var o := Peel(codecs, codings, |codings|, Outcome(body, false, NoNote), Ceiling(cap));
    (o.out, Report(codings, o.decoded, o.note != NoNote, o.note))
  }

  method DecodeBody(codecs: Codecs, header: string, body: Bytes, cap: int) returns (out: Bytes, report: Report)
    ensures (out, report) == Decoded(codecs, header, body, cap)
  {
    var limit := Ceiling(cap);
    var codings := ParseCodings(header);
    report := Report(codings, false, false, NoNote);
    out := body;
    if |codings| == 0 {
      return;
    }
    var i := |codings|;
    while i > 0
      invariant 0 <= i <= |codings|
      invariant report == Report(codings, report.decoded, false, NoNote)
      invariant Peel(codecs, codings, |codings|, Outcome(body, false, NoNote), limit)
             == Peel(codecs, codings, i, Outcome(out, report.decoded, NoNote), limit)
    {
      i := i - 1;
      var coding := codings[i];
      if !Supported(coding) {
        report := report.(partial := true, note := Unsupported(coding));
        return;
      }
      var layer := DecodeOne(OpenLayer(codecs, coding, out), limit);
      match layer {
        case Failed(text) =>
          report := report.(partial := true, note := CouldNotDecode(coding, text));
          return;
        case Got(o, partial) =>
          out := o;
          report := report.(decoded := true);
          if partial {
            report := report.(partial := true, note := CutShort);
            return;
          }
      }
    }
  }

  // ---- total and bounded ---------------------------------------------------------------------------

  /** Undoing exactly the last k codings: every byte that the readers can produce. */
  function Undone(codecs: Codecs, codings: seq<string>, body: Bytes, k: nat): Option<Bytes>
    requires k <= |codings|
  {
    if k == 0 then Some(body)
    else
      var coding := codings[|codings| - k];
      match Undone(codecs, codings, body, k - 1)
      case None => None
      case Some(b) =>
        if !Supported(coding) then None
        else
          match OpenLayer(codecs, coding, b)
          case Rejected(_) => None
          case Open(s) => Some(s.data)
  }

  /** What the outcome says about how far undoing got. */
  ghost predicate Explains(codecs: Codecs, codings: seq<string>, body: Bytes, cap: nat, o: Outcome, k: nat) {
    && k <= |codings|
    && Undone(codecs, codings, body, k).Some?
    && var exact := Undone(codecs, codings, body, k).value;
    && (o.decoded <==> k > 0)
    && o.out <= exact
    && (o.decoded ==> |o.out| <= cap)
    && (match o.note
        case NoNote => o.out == exact && k == |codings|
        case Unsupported(c) => o.out == exact && k < |codings| && c == codings[|codings| - 1 - k] && !Supported(c)
        case CouldNotDecode(c, _) => o.out == exact && k < |codings| && c == codings[|codings| - 1 - k] && Supported(c)
        case CutShort => k > 0 && (o.out == exact || |o.out| == cap < |exact|))
  }

  lemma {:induction false} PeelExplained(
    codecs: Codecs, codings: seq<string>, body: Bytes, i: nat, o: Outcome, cap: nat)
    requires i <= |codings| && o.note == NoNote
    requires Undone(codecs, codings, body, |codings| - i) == Some(o.out)
    requires (o.decoded <==> i < |codings|) && (o.decoded ==> |o.out| <= cap)
    ensures exists k :: Explains(codecs, codings, body, cap, Peel(codecs, codings, i, o, cap), k)
    decreases i
  {
    var k := |codings| - i;
    if i == 0 || !Supported(codings[i - 1]) {
      assert Explains(codecs, codings, body, cap, Peel(codecs, codings, i, o, cap), k);
    } else {
      var coding := codings[i - 1];
      assert coding == codings[|codings| - (k + 1)];
      var reader := OpenLayer(codecs, coding, o.out);
      match DecodeOne(reader, cap)
      case Failed(_) =>
        assert Explains(codecs, codings, body, cap, Peel(codecs, codings, i, o, cap), k);
      case Got(out, partial) =>
        assert Undone(codecs, codings, body, k + 1) == Some(reader.stream.data);
        if partial {
          assert Explains(codecs, codings, body, cap, Peel(codecs, codings, i, o, cap), k + 1);
        } else {
          var next := Outcome(out, true, NoNote);
          PeelExplained(codecs, codings, body, i - 1, next, cap);
          assert Peel(codecs, codings, i, o, cap) == Peel(codecs, codings, i - 1, next, cap);
          var k' :| Explains(codecs, codings, body, cap, Peel(codecs, codings, i - 1, next, cap), k');
          assert Explains(codecs, codings, body, cap, Peel(codecs, codings, i, o, cap), k');
        }
    }
  }

  /** For every header, body, cap and behaviour of the decompressors: nothing decoded means the body as it was;
      otherwise at most cap bytes; the output is what undoing the last k codings gives, or its first cap bytes; a
      note is given exactly when the result is partial; and a result that is not partial has undone them all. */
  lemma DecodeIsTotalAndBounded(codecs: Codecs, header: string, body: Bytes, cap: int)
    ensures var (out, report) := Decoded(codecs, header, body, cap);
            && (!report.decoded ==> out == body)
            && (report.decoded ==> |out| <= if cap <= 0 then 10_485_760 else cap)
            && (report.partial <==> report.note != NoNote)
            && exists k :: Explains(codecs, report.encodings, body, Ceiling(cap),
                                    Outcome(out, report.decoded, report.note), k)
  {
    var codings := KeptCodings(Split(header, ','));
    PeelExplained(codecs, codings, body, |codings|, Outcome(body, false, NoNote), Ceiling(cap));
    var o := Peel(codecs, codings, |codings|, Outcome(body, false, NoNote), Ceiling(cap));
    var k :| Explains(codecs, codings, body, Ceiling(cap), o, k);
    assert Undone(codecs, codings, body, 0) == Some(body);
  }

  // ---- undoing what was done ------------------------------------------------------------------------

  /** The block type of the first DEFLATE block (section 3.2.3 of RFC 1951): bits 1 and 2. */
  function BlockType(b: Byte): int {
    (b / 2) % 4
  }

  /** A bare DEFLATE stream whose first block, if stored, has zero bits up to the byte boundary (section 3.2.4
      of RFC 1951 leaves those bits open). */
  predicate ZeroPadded(b: Bytes) {
    b != [] && (BlockType(b[0]) == 0 ==> b[0] / 8 == 0)
  }

  /** The first bytes that can open a zlib stream are, read as DEFLATE, exactly non-final stored blocks with the
      first padding bit set and the last clear. */
  lemma ZlibFirstByte(b: Byte)
    ensures b % 16 == 8 && b / 16 <= 7 <==>
            b % 2 == 0 && BlockType(b) == 0 && (b / 8) % 2 == 1 && b / 128 == 0
  {
  }

  /** So trying zlib first never misreads a zero-padded bare stream. */
  lemma BareDeflateIsNotZlib(b: Bytes)
    requires ZeroPadded(b)
    ensures !ZlibHeader(b)
  {
    ZlibFirstByte(b[0]);
  }

  lemma OneCoding(codecs: Codecs, header: string, coding: string, coded: Bytes, cap: int)
    requires KeptCodings(Split(header, ',')) == [coding] && Supported(coding)
    ensures Decoded(codecs, header, coded, cap) ==
            match DecodeOne(OpenLayer(codecs, coding, coded), Ceiling(cap))
            case Failed(text) => (coded, Report([coding], false, true, CouldNotDecode(coding, text)))
            case Got(out, partial) => (out, Report([coding], true, partial, if partial then CutShort else NoNote))
  {
    var o := Outcome(coded, false, NoNote);
    match DecodeOne(OpenLayer(codecs, coding, coded), Ceiling(cap))
    case Failed(text) =>
    case Got(out, partial) =>
      if !partial {
        assert Peel(codecs, [coding], 1, o, Ceiling(cap))
            == Peel(codecs, [coding], 0, Outcome(out, true, NoNote), Ceiling(cap));
      }
  }

  /** A bare deflate body is decoded to what it stands for exactly when it fails the zlib check, or when reading it
      as zlib happens to give the same. */
  lemma BareDeflateIsReadExactlyWhen(codecs: Codecs, header: string, plain: Bytes, coded: Bytes, cap: int)
    requires KeptCodings(Split(header, ',')) == ["deflate"]
    requires codecs.unflate(coded) == Stream(plain, Eof) && |plain| <= Ceiling(cap)
    ensures Decoded(codecs, header, coded, cap) == (plain, Report(["deflate"], true, false, NoNote))
            <==> !ZlibHeader(coded) || DecodeOne(Open(codecs.unzlib(coded)), Ceiling(cap)) == Got(plain, false)
  {
    OneCoding(codecs, header, "deflate", coded, cap);
  }

  /** What a DEFLATE reader makes of its input, and how much of it it uses. */
  datatype Inflated = Inflated(stream: Stream, used: nat)

  /** The length of the zlib header: two bytes, and four for the name of a preset dictionary. */
  function HeaderLength(b: Bytes): nat
    requires ZlibHeader(b)
    ensures HeaderLength(b) <= |b|
  {
    if (b[1] / 32) % 2 == 1 then 6 else 2
  }

  /** A zlib reader (section 2.2 of RFC 1950): DEFLATE after the header, then the checksum of what it gave. */
  function ReadZlib(inflate: Bytes -> Inflated, adler: Bytes -> Bytes, b: Bytes): Stream
    requires ZlibHeader(b)
  {
    var body := b[HeaderLength(b)..];
    var i := inflate(body);
    if i.stream.end.Error? then i.stream
    else if |body| < i.used + 4 then Stream(i.stream.data, Error("unexpected EOF"))
    else if body[i.used..i.used + 4] != adler(i.stream.data) then Stream(i.stream.data, Error("zlib: invalid checksum"))
    else i.stream
  }

  /** The bytes after its zlib header are themselves DEFLATE for `plain`, followed by its checksum. */
  predicate AlsoZlibFor(inflate: Bytes -> Inflated, adler: Bytes -> Bytes, b: Bytes, plain: Bytes)
    requires ZlibHeader(b)
  {
    var body := b[HeaderLength(b)..];
    var i := inflate(body);
    i.stream == Stream(plain, Eof) && i.used + 4 <= |body| && body[i.used..i.used + 4] == adler(plain)
  }

  /** As a condition on the bytes: a bare deflate body is decoded to what it stands for exactly when it fails the zlib
      check, or is by chance also a zlib stream for the same. */
  lemma BareDeflateIsReadExactlyWhenNotZlib(codecs: Codecs, inflate: Bytes -> Inflated, adler: Bytes -> Bytes,
                                            header: string, plain: Bytes, coded: Bytes, cap: int)
    requires KeptCodings(Split(header, ',')) == ["deflate"]
    requires codecs.unflate(coded) == inflate(coded).stream == Stream(plain, Eof) && |plain| <= Ceiling(cap)
    requires ZlibHeader(coded) ==> codecs.unzlib(coded) == ReadZlib(inflate, adler, coded)
    ensures Decoded(codecs, header, coded, cap) == (plain, Report(["deflate"], true, false, NoNote))
            <==> !ZlibHeader(coded) || AlsoZlibFor(inflate, adler, coded, plain)
  {
    BareDeflateIsReadExactlyWhen(codecs, header, plain, coded, cap);
    if ZlibHeader(coded) {
      var s := ReadZlib(inflate, adler, coded);
      assert DecodeOne(Open(s), Ceiling(cap)) == Got(plain, false) <==> s == Stream(plain, Eof);
    }
  }

  /** What a DEFLATE reader does with stored blocks (section 3.2.4 of RFC 1951), up to the first block of another
      type, of which this says nothing. */
  function ReadStored(b: Bytes): Option<Stream> {
    if b == [] then Some(Stream([], Error("unexpected EOF")))
    else if BlockType(b[0]) != 0 then None
    else if |b| < 5 then Some(Stream([], Error("unexpected EOF")))
    else
      var len: int := b[1] as int + 256 * b[2] as int;
      if b[3] as int + 256 * b[4] as int != 0xFFFF - len then Some(Stream([], Error("flate: corrupt input")))
      else if |b| < 5 + len then Some(Stream(b[5..], Error("unexpected EOF")))
      else if b[0] % 2 == 1 then Some(Stream(b[5..5 + len], Eof))
      else
        match ReadStored(b[5 + len..])
        case None => None
        case Some(s) => Some(Stream(b[5..5 + len] + s.data, s.end))
  }

  /** One stored block holding the byte `x`, its padding bits set but for the last, and an empty final block. */
  function Misreadable(x: Byte): Bytes {
    [0x78, 0x01, 0x00, 0xFE, 0xFF, x, 0x01, 0x00, 0x00, 0xFF, 0xFF]
  }

  lemma MisreadableMeans(x: Byte)
    ensures ReadStored(Misreadable(x)) == Some(Stream([x], Eof))
    ensures ZlibHeader(Misreadable(x))
    ensures ReadStored(Misreadable(x)[2..]) == Some(Stream([], Error("flate: corrupt input")))
  {
    var b := Misreadable(x);
    var final: Bytes := [0x01, 0x00, 0x00, 0xFF, 0xFF];
    assert final[5..5] == [];
    assert ReadStored(final) == Some(Stream([], Eof));
    assert b[6..] == final;
    assert b[5..6] == [x] && [x] + [] == [x];
  }

  lemma CorruptIsTruncation()
    ensures IsTruncation("flate: corrupt input")
  {
    var text := "flate: corrupt input";
    assert text[7..] == "corrupt input" && "corrupt" <= "corrupt input";
    assert Contains(text, "corrupt");
  }

  lemma LowerStays(name: string)
    requires forall c <- name :: 'a' <= c <= 'z'
    ensures ToLower(name) == name && Trimmed(name) && ',' !in name
  {
    forall i | 0 <= i < |name| ensures ToLower(name)[i] == name[i] && !IsSpace(name[i]) {
      assert name[i] in name;
    }
  }

  lemma OneLowerToken(name: string)
    requires !IsNoCoding(name) && forall c <- name :: 'a' <= c <= 'z'
    ensures KeptCodings(Split(name, ',')) == [name]
  {
    LowerStays(name);
    SplitWhole(name, ',');
    TrimTrimmed(name);
    assert Lowered([name]) == [name];
    assert [name][1..] == [];
    assert Kept([name]) == [name] + Kept([]);
  }

  lemma UnreadableShowsNothing(codecs: Codecs, header: string, coding: string, coded: Bytes, text: string, cap: int)
    requires KeptCodings(Split(header, ',')) == [coding] && Supported(coding)
    requires OpenLayer(codecs, coding, coded) == Open(Stream([], Error(text))) && IsTruncation(text)
    ensures Decoded(codecs, header, coded, cap) == ([], Report([coding], true, true, CutShort))
  {
    OneCoding(codecs, header, coding, coded, cap);
  }

  /** With other padding it can be misread: here are valid DEFLATE streams, one for every byte, that pass the zlib
      check.  Read as zlib their rest is no stored block, and all that is shown is an empty, partial body. */
  lemma OtherPaddingIsMisread(codecs: Codecs, x: Byte, cap: int)
    requires Some(codecs.unflate(Misreadable(x))) == ReadStored(Misreadable(x))
    requires Some(codecs.unzlib(Misreadable(x))) == ReadStored(Misreadable(x)[2..])
    ensures codecs.unflate(Misreadable(x)) == Stream([x], Eof)
    ensures Decoded(codecs, "deflate", Misreadable(x), cap) == ([], Report(["deflate"], true, true, CutShort))
  {
    MisreadableMeans(x);
    CorruptIsTruncation();
    OneLowerToken("deflate");
    UnreadableShowsNothing(codecs, "deflate", "deflate", Misreadable(x), "flate: corrupt input", cap);
  }

  /** `coded` is `plain` under one coding. */
  ghost predicate Encodes(codecs: Codecs, coding: string, plain: Bytes, coded: Bytes) {
    var whole := Stream(plain, Eof);
    if coding == "deflate" then
      if ZlibHeader(coded) then codecs.unzlib(coded) == whole else codecs.unflate(coded) == whole
    else if coding == "br" then codecs.unbrotli(coded) == whole
    else codecs.gunzip(coded) == Open(whole)
  }

  /** The forms that a body passes through as the codings are applied, each within the cap until the last. */
  ghost predicate Stacked(codecs: Codecs, codings: seq<string>, forms: seq<Bytes>, cap: nat) {
    && |forms| == |codings| + 1
    && forall i | 0 <= i < |codings| ::
         Supported(codings[i]) && |forms[i]| <= cap && Encodes(codecs, codings[i], forms[i], forms[i + 1])
  }

  lemma LayerIsUndone(codecs: Codecs, coding: string, plain: Bytes, coded: Bytes, cap: nat)
    requires Supported(coding) && Encodes(codecs, coding, plain, coded) && |plain| <= cap
    ensures DecodeOne(OpenLayer(codecs, coding, coded), cap) == Got(plain, false)
  {
  }

  lemma {:induction false} StackIsUndone(
    codecs: Codecs, codings: seq<string>, forms: seq<Bytes>, i: nat, decoded: bool, cap: nat)
    requires Stacked(codecs, codings, forms, cap) && i <= |codings|
    ensures Peel(codecs, codings, i, Outcome(forms[i], decoded, NoNote), cap) ==
            Outcome(forms[0], decoded || i > 0, NoNote)
  {
    if i > 0 {
      LayerIsUndone(codecs, codings[i - 1], forms[i - 1], forms[i], cap);
      StackIsUndone(codecs, codings, forms, i - 1, true, cap);
    }
  }

  /** A token as a header may show it: any case, with space around it. */
  datatype Token = Token(before: string, name: string, after: string) {
    predicate WellFormed() {
      AllSpace(before) && AllSpace(after) && Trimmed(name) && ',' !in name
    }

    function Show(): string {
      before + name + after
    }
  }

  function ShowAll(tokens: seq<Token>): seq<string> {
    if tokens == [] then [] else [tokens[0].Show()] + ShowAll(tokens[1..])
  }

  /** The codings that the tokens name. */
  function Meant(tokens: seq<Token>): seq<string> {
    if tokens == [] then []
    else
      var t := ToLower(tokens[0].name);
      (if IsNoCoding(t) then [] else [t]) + Meant(tokens[1..])
  }

  lemma ShownTokenLacksComma(t: Token)
    requires t.WellFormed()
    ensures ',' !in t.Show()
  {
    assert !IsSpace(',');
  }

  lemma {:induction false} TokensAreRead(tokens: seq<Token>)
    requires forall t <- tokens :: t.WellFormed()
    ensures KeptCodings(ShowAll(tokens)) == Meant(tokens)
    ensures forall s <- ShowAll(tokens) :: ',' !in s
    decreases |tokens|
  {
    if tokens != [] {
      var t := tokens[0];
      assert t in tokens;
      TrimPadded(t.before, t.name, t.after);
      ShownTokenLacksComma(t);
      assert ShowAll(tokens)[1..] == ShowAll(tokens[1..]);
      TokensAreRead(tokens[1..]);
    }
  }

  /** Whatever list of supported codings was applied to a body, and however the header prints it (case, space,
      empty and identity tokens), decoding gives the body back, whole, and says so.  A deflate layer may be zlib
      (section 2.2 of RFC 1950), or bare and failing the zlib check, as every zero-padded one does. */
  lemma DecodeUndoesEncoding(codecs: Codecs, tokens: seq<Token>, forms: seq<Bytes>, cap: int)
    requires tokens != [] && forall t <- tokens :: t.WellFormed()
    requires Stacked(codecs, Meant(tokens), forms, Ceiling(cap))
    ensures Decoded(codecs, Join(ShowAll(tokens), ','), forms[|forms| - 1], cap) ==
            (forms[0], Report(Meant(tokens), Meant(tokens) != [], false, NoNote))
  {
    TokensAreRead(tokens);
    SplitJoin(ShowAll(tokens), ',');
    StackIsUndone(codecs, Meant(tokens), forms, |Meant(tokens)|, false, Ceiling(cap));
  }

  // ---- by name -----------------------------------------------------------------------------------

  /** One of these words stands in the text. */
  ghost predicate SpeaksOf(text: string, word: string) {
    exists before, after :: text == before + word + after
  }

  ghost predicate TellsOfTruncation(text: string) {
    SpeaksOf(text, "unexpected EOF") || SpeaksOf(text, "truncated") || SpeaksOf(text, "corrupt")
  }

  lemma ContainsMeans(text: string, word: string)
    ensures Contains(text, word) <==> SpeaksOf(text, word)
  {
    if Contains(text, word) {
      var i :| 0 <= i <= |text| && word <= text[i..];
      assert text == text[..i] + word + text[i + |word|..];
    }
    if SpeaksOf(text, word) {
      var before, after :| text == before + word + after;
      assert text[|before|..] == word + after;
    }
  }

  /** What is shown of a body in one coding, given its reader. */
  ghost function ShownOf(coding: string, body: Bytes, reader: Opened, limit: nat): (Bytes, Report) {
    match reader
    case Rejected(text) => (body, Report([coding], false, true, CouldNotDecode(coding, text)))
    case Open(Stream(data, end)) =>
      if |data| > limit then (data[..limit], Report([coding], true, true, CutShort))
      else
        match end
        case Eof => (data, Report([coding], true, false, NoNote))
        case Error(text) =>
          if TellsOfTruncation(text) then (data, Report([coding], true, true, CutShort))
          else (body, Report([coding], false, true, CouldNotDecode(coding, text)))
  }

  lemma OneToken(t: Token)
    requires t.WellFormed()
    ensures KeptCodings(Split(t.Show(), ',')) == if IsNoCoding(ToLower(t.name)) then [] else [ToLower(t.name)]
  {
    TokensAreRead([t]);
    assert ShowAll([t]) == [t.Show()] && Join([t.Show()], ',') == t.Show();
    SplitJoin([t.Show()], ',');
    assert Meant([t]) == (if IsNoCoding(ToLower(t.name)) then [] else [ToLower(t.name)]) + Meant([]);
  }

  lemma SupportedIsShown(codecs: Codecs, header: string, coding: string, body: Bytes, cap: int)
    requires KeptCodings(Split(header, ',')) == [coding] && Supported(coding)
    ensures Decoded(codecs, header, body, cap) ==
            ShownOf(coding, body, OpenLayer(codecs, coding, body), if cap <= 0 then 10_485_760 else cap)
  {
    OneCoding(codecs, header, coding, body, cap);
    var reader := OpenLayer(codecs, coding, body);
    if reader.Open? && reader.stream.end.Error? {
      TruncationIsTold(reader.stream.end.text);
    }
  }

  lemma TruncationIsTold(text: string)
    ensures IsTruncation(text) <==> TellsOfTruncation(text)
  {
    ContainsMeans(text, "unexpected EOF");
    ContainsMeans(text, "truncated");
    ContainsMeans(text, "corrupt");
  }

  lemma OthersAreKept(codecs: Codecs, header: string, coding: string, body: Bytes, cap: int)
    requires KeptCodings(Split(header, ',')) == [coding] && !Supported(coding)
    ensures Decoded(codecs, header, body, cap) == (body, Report([coding], false, true, Unsupported(coding)))
  {
  }

  /** A header of one token, in any case and with any space around it: nothing and identity leave the body as it was
      sent; gzip, x-gzip, br and deflate are undone, up to the cap, which is 10 MiB unless given; and the body is left
      as it is, with a note, under any other name. */
  lemma CodingIsKnownByName(codecs: Codecs, t: Token, name: string, body: Bytes, cap: int)
    requires t.WellFormed() && SameButForCase(t.name, name) && forall c <- name :: !IsUpper(c) && c < '\U{80}'
    ensures var limit := if cap <= 0 then 10_485_760 else cap;
            Decoded(codecs, t.Show(), body, cap) ==
            if name == "" || name == "identity" then (body, Report([], false, false, NoNote))
            else if name == "gzip" || name == "x-gzip" then ShownOf(name, body, codecs.gunzip(body), limit)
            else if name == "br" then ShownOf(name, body, Open(codecs.unbrotli(body)), limit)
            else if name == "deflate" then
              ShownOf(name, body, Open(if ZlibHeader(body) then codecs.unzlib(body) else codecs.unflate(body)), limit)
            else (body, Report([name], false, true, Unsupported(name)))
  {
    LowerIsOneSpelling(t.name, name);
    OneToken(t);
    if IsNoCoding(name) {
      assert KeptCodings(Split(t.Show(), ',')) == [];
    } else if Supported(name) {
      SupportedIsShown(codecs, t.Show(), name, body, cap);
    } else {
      OthersAreKept(codecs, t.Show(), name, body, cap);
    }
  }

  /** The zlib headers that compressors write, with a 32K window and no dictionary, are told by their second byte. */
  lemma UsualZlibHeaders(b: Bytes)
    requires |b| >= 2 && b[0] == 0x78 && (b[1] / 32) % 2 == 0
    ensures ZlibHeader(b) <==> b[1] in [0x01, 0x5E, 0x9C, 0xDA]
  {
  }
}
