/** captureReader of internal/proxy/server.go: a reader that keeps the first bytes of what passes
    through it, and io.Copy over it. */
module Capture {
  /** One Read: some bytes, and possibly an error with them; a stream's last read ends it. */
  datatype Chunk<T> = Chunk(data: seq<T>, last: bool)

  /** What io.Copy delivers: everything read, up to and including the read that ends the stream. */
  function Passed<T>(chunks: seq<Chunk<T>>): seq<T> {
    if chunks == [] then []
    else chunks[0].data + (if chunks[0].last then [] else Passed(chunks[1..]))
  }

  function Kept<T>(stream: seq<T>, cap: int): seq<T> {
    if cap <= 0 then [] else if |stream| <= cap then stream else stream[..cap]
  }

  class CaptureReader<T> {
    const cap: int
    var buf: seq<T>
    var total: nat

    constructor (cap: int)
      ensures this.cap == cap && buf == [] && total == 0
    {
      this.cap := cap;
      buf, total := [], 0;
    }

    /** The reader has seen exactly `stream`. */
    ghost predicate HasSeen(stream: seq<T>)
      reads this
    {
      total == |stream| && buf == Kept(stream, cap)
    }

    method Read(c: Chunk<T>, ghost seen: seq<T>) returns (p: seq<T>)
      requires HasSeen(seen)
      modifies this
      ensures p == c.data && HasSeen(seen + p)
    {
      var n := |c.data|;
      if n > 0 {
        total := total + n;
        var room := cap - |buf|;
        if room > 0 {
          buf := buf + c.data[..if n <= room then n else room];
        }
      } else {
        assert seen + c.data == seen;
      }
      p := c.data;
    }

    method Result() returns (body: seq<T>, truncated: bool)
      ensures body == buf && truncated == (total > cap)
    {
      return buf, total > cap;
    }
  }

  lemma PassedStep<T>(chunks: seq<Chunk<T>>, i: nat)
    requires i < |chunks|
    ensures Passed(chunks[i..]) == chunks[i].data + (if chunks[i].last then [] else Passed(chunks[i + 1..]))
  {
    assert chunks[i..][0] == chunks[i] && chunks[i..][1..] == chunks[i + 1..];
  }

  /** io.Copy through a capture, and what was captured: the destination gets the whole stream, the capture is
      its first `cap` bytes, and truncation is reported exactly when there was more. */
  method CopyThrough<T>(chunks: seq<Chunk<T>>, cap: int) returns (dst: seq<T>, body: seq<T>, truncated: bool)
    ensures dst == Passed(chunks)
    ensures body == Kept(dst, cap)
    ensures body <= dst && |body| == if cap <= 0 then 0 else if |dst| <= cap then |dst| else cap
    ensures truncated <==> |dst| > cap
  {
    var r := new CaptureReader<T>(cap);
    dst := [];
    var i := 0;
    ghost var rest := Passed(chunks[0..]);
    assert chunks[0..] == chunks;
    while i < |chunks|
      invariant 0 <= i <= |chunks|
      invariant r.cap == cap && r.HasSeen(dst)
      invariant rest == Passed(chunks[i..]) && dst + rest == Passed(chunks)
    {
      PassedStep(chunks, i);
      var p := r.Read(chunks[i], dst);
      ghost var before := dst;
      dst := dst + p;
      if chunks[i].last {
        assert dst == before + rest;
        body, truncated := r.Result();
        return;
      }
      rest := Passed(chunks[i + 1..]);
      assert before + (p + rest) == dst + rest;
      i := i + 1;
    }
    assert chunks[i..] == [];
    body, truncated := r.Result();
  }

  function Chunks<T>(pieces: seq<seq<T>>): seq<Chunk<T>> {
    if pieces == [] then []
    else [Chunk(pieces[0], |pieces| == 1)] + Chunks(pieces[1..])
  }

  function Concat<T>(pieces: seq<seq<T>>): seq<T> {
    if pieces == [] then [] else pieces[0] + Concat(pieces[1..])
  }

  /** Any cutting of a stream into reads, the last of which brings its bytes together with the end, passes the
      whole stream, and nothing that would come after the end. */
  lemma {:induction false} EveryCuttingPasses<T>(pieces: seq<seq<T>>, beyond: seq<Chunk<T>>)
    requires pieces == [] ==> beyond == []
    ensures Passed(Chunks(pieces) + beyond) == Concat(pieces)
    decreases |pieces|
  {
    if pieces != [] {
      assert (Chunks(pieces) + beyond)[1..] == Chunks(pieces[1..]) + beyond;
      if |pieces| == 1 {
        assert pieces[1..] == [] && Concat(pieces[1..]) == [];
      } else {
        EveryCuttingPasses(pieces[1..], beyond);
      }
    }
  }

  /** Two cuttings of one stream capture the same, and truncation means that something is missing. */
  lemma ChunkingIsInvisible<T>(a: seq<seq<T>>, b: seq<seq<T>>, cap: int)
    requires Concat(a) == Concat(b)
    ensures Kept(Passed(Chunks(a)), cap) == Kept(Passed(Chunks(b)), cap) == Kept(Concat(a), cap)
    ensures cap >= 0 ==> (|Passed(Chunks(a))| > cap <==> Kept(Passed(Chunks(a)), cap) != Concat(a))
  {
    EveryCuttingPasses(a, []);
    EveryCuttingPasses(b, []);
    assert Chunks(a) + [] == Chunks(a) && Chunks(b) + [] == Chunks(b);
  }
}
