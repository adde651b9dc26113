/** The wire format of S3TP messages: four bytes of length, one byte of type, the payload
    (src/server/s3tp_proto.h, and the encoders in s3tp.cpp and remoteexec.cpp). */
module Framing {

  type byte = n: nat | n < 0x100
  type bytes = seq<byte>
  type uint32 = n: nat | n < 0x1_0000_0000

  const NONE: byte := 0
  const STDIN: byte := 1
  const STDOUT: byte := 2
  const STDERR: byte := 4
  const STARTED: byte := 8
  const ENDOFFILE: byte := 16

  const HEADERSIZE: nat := 5

  datatype Frame = Frame(kind: byte, payload: bytes)

  // --------------------------------------------------------------- length

  /** A uint32_t as the bytes memcpy copies, little-endian. */
  function LengthBytes(n: uint32): (b: bytes)
    ensures |b| == 4
  {
    [n % 0x100, n / 0x100 % 0x100, n / 0x1_0000 % 0x100, n / 0x100_0000]
  }

  /** The length that memcpy reads from the front of a buffer. */
  function LengthOf(b: bytes): uint32
    requires |b| >= 4
  {
    b[0] as int + 0x100 * (b[1] as int) + 0x1_0000 * (b[2] as int) + 0x100_0000 * (b[3] as int)
  }

  lemma LengthRoundTrip(n: uint32, rest: bytes)
    ensures LengthOf(LengthBytes(n) + rest) == n
  {
    var b := LengthBytes(n) + rest;
    assert b[0] == n % 0x100 && b[1] == n / 0x100 % 0x100 && b[2] == n / 0x1_0000 % 0x100 && b[3] == n / 0x100_0000;
    assert n / 0x1_0000 == n / 0x100 / 0x100 && n / 0x100_0000 == n / 0x1_0000 / 0x100;
  }

  // --------------------------------------------------------------- frames

  predicate Encodable(f: Frame) {
    |f.payload| < 0x1_0000_0000
  }

  predicate AllEncodable(fs: seq<Frame>) {
    forall i :: 0 <= i < |fs| ==> Encodable(fs[i])
  }

  function Encode(f: Frame): (b: bytes)
    requires Encodable(f)
    ensures |b| == HEADERSIZE + |f.payload|
  {
    LengthBytes(|f.payload|) + [f.kind] + f.payload
  }

  /** The layout on the wire: the length as four bytes, the least significant one first, then
      the type, then the payload. */
  lemma EncodeLayout(f: Frame)
    requires Encodable(f)
    ensures var b := Encode(f);
      && b[0] as int + 256 * b[1] as int + 65536 * b[2] as int + 16777216 * b[3] as int == |f.payload|
      && b[4] == f.kind && b[5..] == f.payload
  {
    LengthRoundTrip(|f.payload|, []);
    assert LengthBytes(|f.payload|) + [] == LengthBytes(|f.payload|);
  }

  /** The bytes of one frame of each kind, and of one too long for two bytes of length. */
  lemma WireExamples(long: bytes)
    requires |long| == 65536
    ensures Encode(Frame(NONE, [108, 115, 10])) == [3, 0, 0, 0, 0, 108, 115, 10]
    ensures Encode(Frame(STDIN, [65])) == [1, 0, 0, 0, 1, 65]
    ensures Encode(Frame(STDOUT, [66])) == [1, 0, 0, 0, 2, 66]
    ensures Encode(Frame(STDERR, [67])) == [1, 0, 0, 0, 4, 67]
    ensures Encode(Frame(STARTED, [])) == [0, 0, 0, 0, 8]
    ensures Encode(Frame(ENDOFFILE, [])) == [0, 0, 0, 0, 16]
    ensures Encode(Frame(STDIN, long)) == [0, 0, 1, 0, 1] + long
  {
  }

  function EncodeAll(fs: seq<Frame>): bytes
    requires AllEncodable(fs)
  {
    if fs == [] then [] else Encode(fs[0]) + EncodeAll(fs[1..])
  }

  lemma {:induction false} EncodeAllConcat(fs: seq<Frame>, gs: seq<Frame>)
    requires AllEncodable(fs)
    requires AllEncodable(gs)
    ensures EncodeAll(fs + gs) == EncodeAll(fs) + EncodeAll(gs)
  {
    if fs == [] {
      assert fs + gs == gs;
    } else {
      assert (fs + gs)[1..] == fs[1..] + gs;
      EncodeAllConcat(fs[1..], gs);
    }
  }

  // ------------------------------------------------------ reference parser

  /** Who reads: the server refuses every frame of length zero, the client only those that
      have no type either. */
  datatype Reader = Server | Client

  predicate Refused(reader: Reader, length: uint32, kind: byte) {
    length == 0 && (reader == Server || kind == NONE)
  }

  /** Frames the reader can receive. */
  predicate Acceptable(reader: Reader, f: Frame) {
    Encodable(f) && !Refused(reader, |f.payload|, f.kind)
  }

  predicate AllAcceptable(reader: Reader, fs: seq<Frame>)
    ensures AllAcceptable(reader, fs) ==> AllEncodable(fs)
  {
    forall i :: 0 <= i < |fs| ==> Acceptable(reader, fs[i])
  }

  /** Is there a whole frame at the front of the buffer? */
  predicate Complete(b: bytes) {
    |b| >= HEADERSIZE && |b| >= HEADERSIZE + LengthOf(b)
  }

  predicate RefusedFront(reader: Reader, b: bytes) {
    |b| >= HEADERSIZE && Refused(reader, LengthOf(b), b[4])
  }

  /** What is refused on the wire: by the server four bytes of zero and a type, by the client
      five bytes of zero. */
  lemma RefusedIff(b: bytes)
    ensures RefusedFront(Server, b) <==> |b| >= 5 && b[..4] == [0, 0, 0, 0]
    ensures RefusedFront(Client, b) <==> |b| >= 5 && b[..5] == [0, 0, 0, 0, 0]
  {
    if |b| >= 5 && LengthOf(b) == 0 {
      assert b[0] == 0 && b[1] == 0 && b[2] == 0 && b[3] == 0;
    }
  }

  function FrontFrame(b: bytes): Frame
    requires Complete(b)
  {
    Frame(b[4], b[HEADERSIZE..HEADERSIZE + LengthOf(b)])
  }

  function AfterFront(b: bytes): (r: bytes)
    requires Complete(b)
    ensures |r| < |b|
  {
    b[HEADERSIZE + LengthOf(b)..]
  }

  /** What the whole stream means, read in one piece: its frames, the bytes left over, and
      whether those start with a header that is refused. */
  datatype Parsed = Parsed(frames: seq<Frame>, rest: bytes, refused: bool)

  function Prepend(f: Frame, p: Parsed): Parsed {
    p.(frames := [f] + p.frames)
  }

  function Parse(reader: Reader, b: bytes): Parsed
    decreases |b|
  {
    if RefusedFront(reader, b) then Parsed([], b, true)
    else if Complete(b) then
      Prepend(FrontFrame(b), Parse(reader, AfterFront(b)))
    else Parsed([], b, false)
  }

  lemma ParseOne(reader: Reader, b: bytes)
    requires Complete(b) && !RefusedFront(reader, b)
    ensures Parse(reader, b) == Prepend(FrontFrame(b), Parse(reader, AfterFront(b)))
  {
  }

  lemma ParseNone(reader: Reader, b: bytes)
    requires !Complete(b) || RefusedFront(reader, b)
    ensures Parse(reader, b) == Parsed([], b, RefusedFront(reader, b))
  {
  }

  /** Parsing inverts encoding, whatever bytes follow. */
  lemma FrontOfEncoded(f: Frame, more: bytes)
    requires Encodable(f)
    ensures var b := Encode(f) + more;
      && Complete(b) && LengthOf(b) == |f.payload| && b[4] == f.kind
      && FrontFrame(b) == f && AfterFront(b) == more
  {
    var b := Encode(f) + more;
    assert b == LengthBytes(|f.payload|) + ([f.kind] + f.payload + more);
    LengthRoundTrip(|f.payload|, [f.kind] + f.payload + more);
  }

  lemma ParseFront(reader: Reader, f: Frame, more: bytes)
    requires Acceptable(reader, f)
    ensures Parse(reader, Encode(f) + more) == Prepend(f, Parse(reader, more))
  {
    FrontOfEncoded(f, more);
    hide Encode, LengthOf;
  }

  lemma {:induction false} ParseEncoded(reader: Reader, fs: seq<Frame>, more: bytes)
    requires AllAcceptable(reader, fs)
    ensures var p := Parse(reader, more);
            Parse(reader, EncodeAll(fs) + more) == p.(frames := fs + p.frames)
  {
    hide Parse, Encode;
    var p := Parse(reader, more);
    if fs == [] {
      assert EncodeAll(fs) + more == more;
      assert fs + p.frames == p.frames;
    } else {
      var tail := EncodeAll(fs[1..]) + more;
      ParseEncoded(reader, fs[1..], more);
      assert EncodeAll(fs) + more == Encode(fs[0]) + tail;
      ParseFront(reader, fs[0], tail);
      assert fs + p.frames == [fs[0]] + (fs[1..] + p.frames);
    }
  }

  /** A whole frame at the front, taken off and encoded again. */
  lemma FrontAndRest(b: bytes)
    requires Complete(b)
    ensures Encodable(FrontFrame(b))
    ensures b == Encode(FrontFrame(b)) + AfterFront(b)
  {
    LengthBytesOf(b);
    assert b[..HEADERSIZE] == LengthBytes(LengthOf(b)) + [b[4]];
  }

  lemma EncodeOne(f: Frame, fs: seq<Frame>, rest: bytes)
    requires Encodable(f) && AllEncodable(fs)
    ensures AllEncodable([f] + fs)
    ensures EncodeAll([f] + fs) + rest == Encode(f) + (EncodeAll(fs) + rest)
  {
    hide Encode;
    assert ([f] + fs)[1..] == fs;
  }

  lemma AcceptOne(reader: Reader, f: Frame, fs: seq<Frame>)
    requires Acceptable(reader, f) && AllAcceptable(reader, fs)
    ensures AllAcceptable(reader, [f] + fs)
  {
  }

  lemma FrontAcceptable(reader: Reader, b: bytes)
    requires Complete(b) && !RefusedFront(reader, b)
    ensures Acceptable(reader, FrontFrame(b))
  {
    hide LengthOf;
  }

  /** Encoding inverts parsing: the frames and the rest are the stream. */
  lemma {:induction false} EncodeParsed(reader: Reader, b: bytes)
    ensures var p := Parse(reader, b);
            AllAcceptable(reader, p.frames) && EncodeAll(p.frames) + p.rest == b
    decreases |b|
  {
    hide Parse, Encode, LengthOf, FrontFrame, AfterFront, Acceptable;
    if !RefusedFront(reader, b) && Complete(b) {
      var f := FrontFrame(b);
      var q := Parse(reader, AfterFront(b));
      ParseOne(reader, b);
      EncodeParsed(reader, AfterFront(b));
      FrontAndRest(b);
      FrontAcceptable(reader, b);
      hide *;
      AcceptOne(reader, f, q.frames);
      EncodeOne(f, q.frames, q.rest);
    } else {
      ParseNone(reader, b);
    }
  }

  lemma LengthBytesOf(b: bytes)
    requires |b| >= 4
    ensures LengthBytes(LengthOf(b)) == b[..4]
  {
    var n := LengthOf(b);
    assert n / 0x100 == b[1] as int + 0x100 * (b[2] as int) + 0x1_0000 * (b[3] as int);
    assert n / 0x1_0000 == b[2] as int + 0x100 * (b[3] as int);
  }

  lemma FrontExtends(a: bytes, b: bytes)
    requires Complete(a)
    ensures Complete(a + b) && LengthOf(a + b) == LengthOf(a) && (a + b)[4] == a[4]
    ensures FrontFrame(a + b) == FrontFrame(a)
    ensures AfterFront(a + b) == AfterFront(a) + b
  {
  }

  /** Reading a stream in two pieces: continue with what the first piece left over. */
  lemma {:induction false} ParseContinues(reader: Reader, a: bytes, b: bytes)
    requires !Parse(reader, a).refused
    ensures Parse(reader, a + b) == Continued(reader, Parse(reader, a), b)
    decreases |a|
  {
    if RefusedFront(reader, a) || !Complete(a) {
      ParseNone(reader, a);
      hide *;
      ContinuedNone(reader, a, b);
    } else {
      FrontExtends(a, b);
      assert !RefusedFront(reader, a + b);
      ParseOne(reader, a);
      ParseOne(reader, a + b);
      hide *;
      ParseContinues(reader, AfterFront(a), b);
      ContinuedPrepend(reader, FrontFrame(a), Parse(reader, AfterFront(a)), b);
    }
  }

  function Continued(reader: Reader, p: Parsed, b: bytes): Parsed {
    var q := Parse(reader, p.rest + b);
    q.(frames := p.frames + q.frames)
  }

  lemma ContinuedNone(reader: Reader, a: bytes, b: bytes)
    ensures Continued(reader, Parsed([], a, false), b) == Parse(reader, a + b)
  {
    hide Parse;
    var q := Parse(reader, a + b);
    assert [] + q.frames == q.frames;
  }

  lemma ContinuedPrepend(reader: Reader, f: Frame, p: Parsed, b: bytes)
    ensures Continued(reader, Prepend(f, p), b) == Prepend(f, Continued(reader, p, b))
  {
    hide Parse;
    var q := Parse(reader, p.rest + b);
    assert ([f] + p.frames) + q.frames == [f] + (p.frames + q.frames);
  }

  /** What parsing left over parses to nothing. */
  lemma {:induction false} ParsedRest(reader: Reader, b: bytes)
    ensures var p := Parse(reader, b); Parse(reader, p.rest) == p.(frames := [])
    decreases |b|
  {
    if RefusedFront(reader, b) || !Complete(b) {
      ParseNone(reader, b);
    } else {
      ParseOne(reader, b);
      hide *;
      ParsedRest(reader, AfterFront(b));
    }
  }

  /** Cutting a stream short only loses frames at the end. */
  lemma ParsePrefix(reader: Reader, a: bytes, b: bytes)
    requires !Parse(reader, a + b).refused
    ensures !Parse(reader, a).refused
    ensures Parse(reader, a).frames <= Parse(reader, a + b).frames
  {
    if Parse(reader, a).refused {
      RefusalStays(reader, a, b);
    } else {
      ParseContinues(reader, a, b);
    }
  }

  lemma {:induction false} RefusalStays(reader: Reader, a: bytes, b: bytes)
    requires Parse(reader, a).refused
    ensures Parse(reader, a + b).refused
    ensures Parse(reader, a + b).frames == Parse(reader, a).frames
    decreases |a|
  {
    if !RefusedFront(reader, a) {
      FrontExtends(a, b);
      RefusalStays(reader, AfterFront(a), b);
    }
  }
}
