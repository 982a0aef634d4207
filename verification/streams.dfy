/**
 Readers that hand out bytes in whatever pieces the caller's buffer allows: the reader of a
 message stream, and the file of a BuildKit reference.
 */
module Streams {
  import opened Values

  function Min(a: int, b: int): int
  {
    if a < b then a else b
  }

  /** Go's `copy`. */
  method Copy(p: array<Byte>, src: seq<Byte>) returns (n: nat)
    modifies p
    ensures n == Min(p.Length, |src|)
    ensures p[..n] == src[..n] && p[n..] == old(p[n..])
  {
    n := if p.Length < |src| then p.Length else |src|;
    for i := 0 to n
      invariant p[..i] == src[..i] && p[i..] == old(p[i..])
    {
      p[i] := src[i];
      assert p[..i + 1] == p[..i] + [src[i]];
      assert src[..i + 1] == src[..i] + [src[i]];
      assert p[i + 1..] == p[i..][1..];
      assert old(p[i + 1..]) == old(p[i..])[1..];
    }
  }

  // ---------- streamReader ----------

  /** What `Recv` returns. */
  datatype Message = Data(data: seq<Byte>) | Error

  /** What is left over of the last message, and the results `Recv` has yet to return. A
      stream that has ended keeps failing. */
  datatype Stream = Stream(buf: seq<Byte>, incoming: seq<Message>)

  datatype Result = Result(next: Stream, out: seq<Byte>, failed: bool)

  /** One call of `streamReader.Read` with a buffer of this size. */
  function ReadOnce(s: Stream, size: nat): Result
  {
    if |s.buf| > 0 then
      var n := Min(size, |s.buf|);
      Result(s.(buf := s.buf[n..]), s.buf[..n], false)
    else if s.incoming == [] then Result(s, [], true)
    else match s.incoming[0]
      case Error => Result(s.(incoming := s.incoming[1..]), [], true)
      case Data(data) =>
        var n := Min(size, |data|);
        Result(Stream(data[n..], s.incoming[1..]), data[..n], false)
  }

  /** The bytes of messages. */
  function Bytes(ms: seq<Message>): seq<Byte>
  {
    if ms == [] then [] else (if ms[0].Data? then ms[0].data else []) + Bytes(ms[1..])
  }

  class StreamReader {
    var buf: seq<Byte>
    var incoming: seq<Message>
    ghost var received: seq<Byte>
    ghost var delivered: seq<Byte>

    /** Nothing received is lost, repeated or reordered. */
    ghost predicate Valid()
      reads this
    {
      received == delivered + buf
    }

    constructor (incoming: seq<Message>)
      ensures Valid() && buf == [] && this.incoming == incoming && delivered == []
    {
      this.buf, this.incoming, this.received, this.delivered := [], incoming, [], [];
    }

    /** `streamReader.Read`. */
    method Read(p: array<Byte>) returns (n: nat, failed: bool)
      requires Valid()
      modifies this, p
      ensures Valid() && n <= p.Length
      ensures var r := ReadOnce(old(Stream(buf, incoming)), p.Length);
        Stream(buf, incoming) == r.next && p[..n] == r.out && failed == r.failed
      ensures delivered == old(delivered) + p[..n] && p[n..] == old(p[n..])
    {
      failed := false;
      if |buf| > 0 {
        n := Copy(p, buf);
        delivered := delivered + buf[..n];
        buf := buf[n..];
        return;
      }
      n := 0;
      if incoming == [] { failed := true; return; }
      var msg := incoming[0];
      incoming := incoming[1..];
      if msg.Error? { failed := true; return; }
      received := received + msg.data;
      n := Copy(p, msg.data);
      delivered := delivered + msg.data[..n];
      if n < |msg.data| { buf := buf + msg.data[n..]; }
    }
  }

  /** Any number of reads, with buffers of these sizes; failed ones yield nothing. */
  function ReadMany(s: Stream, sizes: seq<nat>): Result
    decreases |sizes|
  {
    if sizes == [] then Result(s, [], false)
    else
      var first := ReadOnce(s, sizes[0]);
      var rest := ReadMany(first.next, sizes[1..]);
      Result(rest.next, first.out + rest.out, first.failed || rest.failed)
  }

  lemma OnceConserves(s: Stream, size: nat)
    ensures var r := ReadOnce(s, size); r.out + r.next.buf + Bytes(r.next.incoming) == s.buf + Bytes(s.incoming)
  {
    var r := ReadOnce(s, size);
    if |s.buf| > 0 {
      assert r.out + r.next.buf == s.buf;
    } else if s.incoming != [] && s.incoming[0].Data? {
      assert r.out + r.next.buf == s.incoming[0].data;
    }
  }

  /** Over any reads, the bytes handed out, those left over and those still to come are the
      bytes there were. */
  lemma {:induction false} ManyConserve(s: Stream, sizes: seq<nat>)
    ensures var r := ReadMany(s, sizes); r.out + r.next.buf + Bytes(r.next.incoming) == s.buf + Bytes(s.incoming)
    decreases |sizes|
  {
    if sizes != [] {
      var first := ReadOnce(s, sizes[0]);
      var rest := ReadMany(first.next, sizes[1..]);
      OnceConserves(s, sizes[0]);
      ManyConserve(first.next, sizes[1..]);
      Chain(first.out, rest.out, rest.next.buf, Bytes(rest.next.incoming), first.next.buf, Bytes(first.next.incoming));
    }
  }

  lemma Chain(a: seq<Byte>, b: seq<Byte>, c: seq<Byte>, d: seq<Byte>, x: seq<Byte>, y: seq<Byte>)
    requires b + c + d == x + y
    ensures a + b + c + d == a + x + y
  {
    assert a + b + c + d == a + (b + c + d);
  }

  lemma {:induction false} ManyConsume(s: Stream, sizes: seq<nat>)
    ensures exists k: nat :: k <= |s.incoming| && ReadMany(s, sizes).next.incoming == s.incoming[k..]
    decreases |sizes|
  {
    if sizes == [] {
      assert s.incoming == s.incoming[0..];
    } else {
      var next := ReadOnce(s, sizes[0]).next;
      ManyConsume(next, sizes[1..]);
      var k: nat :| k <= |next.incoming| && ReadMany(s, sizes).next.incoming == next.incoming[k..];
      if next.incoming != s.incoming {
        assert next.incoming == s.incoming[1..];
        assert s.incoming[1..][k..] == s.incoming[k + 1..];
      }
    }
  }

  lemma {:induction false} BytesSplit(ms: seq<Message>, k: nat)
    requires k <= |ms|
    ensures Bytes(ms) == Bytes(ms[..k]) + Bytes(ms[k..])
  {
    if k > 0 {
      BytesSplit(ms[1..], k - 1);
      assert ms[..k][1..] == ms[1..][..k - 1] && ms[1..][k - 1..] == ms[k..];
    } else {
      assert ms[k..] == ms;
    }
  }

  /** The output of any reads, followed by what is left over, is the concatenation of the
      messages received. */
  lemma OutputIsReceived(incoming: seq<Message>, sizes: seq<nat>)
    ensures var r := ReadMany(Stream([], incoming), sizes);
      exists k: nat :: k <= |incoming| && r.next.incoming == incoming[k..] && r.out + r.next.buf == Bytes(incoming[..k])
  {
    var s := Stream([], incoming);
    var r := ReadMany(s, sizes);
    ManyConserve(s, sizes);
    ManyConsume(s, sizes);
    var k: nat :| k <= |incoming| && r.next.incoming == incoming[k..];
    BytesSplit(incoming, k);
    SameFront(r.out + r.next.buf, Bytes(incoming[..k]), Bytes(incoming[k..]));
  }

  lemma SameFront(a: seq<Byte>, b: seq<Byte>, tail: seq<Byte>)
    requires a + tail == b + tail
    ensures a == b
  {
    assert |a| == |b|;
    assert (a + tail)[..|a|] == a && (b + tail)[..|b|] == b;
  }

  /** A read with room that does not fail makes progress, unless it met an empty message. */
  lemma ReadProgresses(s: Stream, size: nat)
    requires size > 0 && !ReadOnce(s, size).failed
    ensures ReadOnce(s, size).out != [] || (s.buf == [] && s.incoming[0] == Data([]))
  {}

  // ---------- stateRefFile ----------

  datatype FileError = NoError | EOF | Invalid | Unreadable

  /** What the gateway returns for a range of a file. */
  function Segment(content: seq<Byte>, off: int, length: nat): seq<Byte>
    requires 0 <= off <= |content|
  {
    content[off..Min(off + length, |content|)]
  }

  datatype FileResult = FileResult(out: seq<Byte>, err: FileError)

  /** `ReadAt` with a buffer of this size, on a gateway that answers or not. */
  function ReadRange(content: seq<Byte>, off: int, size: nat, answers: bool): FileResult
  {
    if off < 0 then FileResult([], Invalid)
    else if off >= |content| then FileResult([], EOF)
    else if !answers then FileResult([], Unreadable)
    else
      var out := Segment(content, off, size);
      FileResult(out, if |out| < size then EOF else NoError)
  }

  class StateRefFile {
    const content: seq<Byte>
    var offset: int

    /** The file's size in its metadata is that of its contents. */
    constructor (content: seq<Byte>)
      ensures this.content == content && offset == 0
    {
      this.content, this.offset := content, 0;
    }

    /** `stateRefFile.ReadAt`. */
    method ReadAt(b: array<Byte>, off: int, answers: bool) returns (n: nat, err: FileError)
      modifies b
      ensures n <= b.Length
      ensures FileResult(b[..n], err) == ReadRange(content, off, b.Length, answers)
      ensures b[n..] == old(b[n..])
    {
      if off < 0 { return 0, Invalid; }
      if off >= |content| { return 0, EOF; }
      if !answers { return 0, Unreadable; }
      var segment := Segment(content, off, b.Length);
      n := Copy(b, segment);
      err := if n < b.Length then EOF else NoError;
    }

    /** `stateRefFile.Read`. */
    method Read(b: array<Byte>, answers: bool) returns (n: nat, err: FileError)
      modifies this, b
      ensures n <= b.Length
      ensures FileResult(b[..n], err) == ReadRange(content, old(offset), b.Length, answers)
      ensures offset == old(offset) + n && b[n..] == old(b[n..])
    {
      n, err := ReadAt(b, offset, answers);
      offset := offset + n;
    }
  }

  datatype Call = Call(size: nat, answers: bool)

  datatype FileRun = FileRun(out: seq<Byte>, offset: int, errs: seq<FileError>)

  /** Any number of calls of `Read`. */
  function ReadFile(content: seq<Byte>, offset: int, calls: seq<Call>): FileRun
    decreases |calls|
  {
    if calls == [] then FileRun([], offset, [])
    else
      var first := ReadRange(content, offset, calls[0].size, calls[0].answers);
      var rest := ReadFile(content, offset + |first.out|, calls[1..]);
      FileRun(first.out + rest.out, rest.offset, [first.err] + rest.errs)
  }

  lemma RangeInside(content: seq<Byte>, off: nat, size: nat, answers: bool)
    requires off <= |content|
    ensures var r := ReadRange(content, off, size, answers);
      && off + |r.out| <= |content| && r.out == content[off..off + |r.out|]
      && (r.err == EOF <==> off == |content| || (answers && off + size > |content|))
      && (r.err == EOF ==> off + |r.out| == |content|)
      && (r.err == NoError ==> |r.out| == size)
  {}

  /** Over any calls, the bytes handed out are exactly those of the file up to the offset. */
  lemma {:induction false} ReadsAreContent(content: seq<Byte>, offset: nat, calls: seq<Call>)
    requires offset <= |content|
    ensures var r := ReadFile(content, offset, calls);
      offset <= r.offset <= |content| && r.out == content[offset..r.offset] && |r.errs| == |calls|
    decreases |calls|
  {
    if calls != [] {
      var first := ReadRange(content, offset, calls[0].size, calls[0].answers);
      RangeInside(content, offset, calls[0].size, calls[0].answers);
      ReadsAreContent(content, offset + |first.out|, calls[1..]);
      var r := ReadFile(content, offset, calls);
      assert content[offset..r.offset] == content[offset..offset + |first.out|]
        + content[offset + |first.out|..r.offset];
    }
  }

  /** Every call from this one on reports the end. */
  ghost predicate EofFrom(errs: seq<FileError>, i: nat)
  {
    forall j :: i <= j < |errs| ==> errs[j] == EOF
  }

  function Join(first: FileResult, rest: FileRun): FileRun
  {
    FileRun(first.out + rest.out, rest.offset, [first.err] + rest.errs)
  }

  /** The end of the file is reported only once all of it was handed out, and from then on it
      always is. */
  lemma {:induction false} EofAtEnd(content: seq<Byte>, offset: nat, calls: seq<Call>, i: nat)
    requires offset <= |content| && i < |ReadFile(content, offset, calls).errs|
    requires ReadFile(content, offset, calls).errs[i] == EOF
    ensures ReadFile(content, offset, calls).offset == |content| && EofFrom(ReadFile(content, offset, calls).errs, i)
    decreases |calls|
  {
    var first := ReadRange(content, offset, calls[0].size, calls[0].answers);
    var next := offset + |first.out|;
    var rest := ReadFile(content, next, calls[1..]);
    assert ReadFile(content, offset, calls) == Join(first, rest);
    RangeInside(content, offset, calls[0].size, calls[0].answers);
    if i > 0 {
      assert Join(first, rest).errs[i] == rest.errs[i - 1];
      EofAtEnd(content, next, calls[1..], i - 1);
      EofLater(first, rest, i);
    } else {
      AtEnd(content, calls[1..]);
      EofFirst(first, rest);
    }
  }

  lemma EofLater(first: FileResult, rest: FileRun, i: nat)
    requires i > 0 && EofFrom(rest.errs, i - 1)
    ensures EofFrom(Join(first, rest).errs, i)
  {}

  lemma EofFirst(first: FileResult, rest: FileRun)
    requires first.err == EOF && EofFrom(rest.errs, 0)
    ensures EofFrom(Join(first, rest).errs, 0)
  {}

  lemma {:induction false} AtEnd(content: seq<Byte>, calls: seq<Call>)
    ensures var r := ReadFile(content, |content|, calls);
      r.out == [] && r.offset == |content| && |r.errs| == |calls| && EofFrom(r.errs, 0)
    decreases |calls|
  {
    if calls != [] {
      AtEnd(content, calls[1..]);
      var first := ReadRange(content, |content|, calls[0].size, calls[0].answers);
      var rest := ReadFile(content, |content|, calls[1..]);
      assert ReadFile(content, |content|, calls) == Join(first, rest);
      EofFirst(first, rest);
    }
  }
}
