/**
 * The wire framing of every emitted frame: one body part of a
 * `multipart/x-mixed-replace; boundary=frame` response, written as the
 * multipart syntax of section 5.1.1 of RFC 2046 lays it out.
 */
module Multipart {
  import opened Common

  const Crlf: seq<byte> := [13, 10]
  const DashDash: seq<byte> := [45, 45]

  /** The boundary parameter, `frame`. */
  const Boundary: seq<byte> := [102, 114, 97, 109, 101]

  /** `--frame\r\n` followed by `Content-Type: image/jpeg\r\n\r\n`, as the generators spell it. */
  function PartHead(): (h: seq<byte>)
    ensures |h| == 37
  {
    AsciiBytes("--frame\r\n") + AsciiBytes("Content-Type: image/jpeg\r\n\r\n")
  }

  /** The chunk a generator yields for one encoded image. */
  function Chunk(jpeg: seq<byte>): seq<byte>
  {
    PartHead() + jpeg + AsciiBytes("\r\n")
  }

  /** A header field line of a MIME part: `name: value` CRLF. */
  function HeaderLine(name: seq<byte>, value: seq<byte>): seq<byte>
  {
    name + [58, 32] + value + Crlf
  }

  /**
   * A body part and the delimiter line before it (RFC 2046, section 5.1.1):
   * dash-boundary CRLF, the header lines, an empty line, the body, then the
   * CRLF that opens the next delimiter.
   */
  function BodyPart(boundary: seq<byte>, headers: seq<(seq<byte>, seq<byte>)>, body: seq<byte>): seq<byte>
  {
    DashDash + boundary + Crlf + HeaderLines(headers) + Crlf + body + Crlf
  }

  function HeaderLines(headers: seq<(seq<byte>, seq<byte>)>): seq<byte>
  {
    if headers == [] then [] else HeaderLine(headers[0].0, headers[0].1) + HeaderLines(headers[1..])
  }

  const ContentType: seq<byte> := AsciiBytes("Content-Type")
  const ImageJpeg: seq<byte> := AsciiBytes("image/jpeg")

  /** The chunk is exactly an RFC 2046 body part with boundary `frame` and one Content-Type header. */
  lemma ChunkIsBodyPart(jpeg: seq<byte>)
    ensures Chunk(jpeg) == BodyPart(Boundary, [(ContentType, ImageJpeg)], jpeg)
  {
    var head := PartHead();
    var expected := DashDash + Boundary + Crlf + HeaderLines([(ContentType, ImageJpeg)]) + Crlf;
    assert HeaderLines([(ContentType, ImageJpeg)]) == HeaderLine(ContentType, ImageJpeg) + HeaderLines([]);
    assert |expected| == |head|;
    forall i | 0 <= i < |head| ensures head[i] == expected[i] {
    }
    assert head == expected;
    assert AsciiBytes("\r\n") == Crlf;
  }

  /** Recovers the image bytes from a chunk, if it is one. */
  function Unframe(chunk: seq<byte>): (r: Option<seq<byte>>)
  {
    var h := PartHead();
    if |chunk| >= |h| + 2 && chunk[..|h|] == h && chunk[|chunk| - 2..] == Crlf
    then Some(chunk[|h|..|chunk| - 2])
    else None
  }

  /** Framing loses nothing: the image is recovered from its chunk ... */
  lemma UnframeChunk(jpeg: seq<byte>)
    ensures Unframe(Chunk(jpeg)) == Some(jpeg)
  {
    var c := Chunk(jpeg);
    var h := PartHead();
    assert AsciiBytes("\r\n") == Crlf;
    assert c[..|h|] == h;
    assert c[|c| - 2..] == Crlf;
    assert c[|h|..|c| - 2] == jpeg;
  }

  /** ... and whatever unframes to an image is that image's chunk. */
  lemma ChunkUnframe(chunk: seq<byte>, jpeg: seq<byte>)
    requires Unframe(chunk) == Some(jpeg)
    ensures Chunk(jpeg) == chunk
  {
    var h := PartHead();
    assert AsciiBytes("\r\n") == Crlf;
    assert chunk == chunk[..|h|] + chunk[|h|..|chunk| - 2] + chunk[|chunk| - 2..];
  }

  /** The response body: the yielded chunks, back to back. */
  function Concat(chunks: seq<seq<byte>>): seq<byte>
  {
    if chunks == [] then [] else chunks[0] + Concat(chunks[1..])
  }

  /** The MIME part behind each delimiter: the Content-Type header line, an empty line, the image. */
  function MimePart(jpeg: seq<byte>): seq<byte>
  {
    HeaderLines([(ContentType, ImageJpeg)]) + Crlf + jpeg
  }

  /**
   * The body of a multipart entity as far as it has been sent (RFC 2046,
   * section 5.1.1, with empty preamble): dash-boundary CRLF and the first part,
   * then for each further part the delimiter CRLF dash-boundary, CRLF, the part.
   * An x-mixed-replace stream never sends the close-delimiter.
   */
  function Delimited(boundary: seq<byte>, parts: seq<seq<byte>>): seq<byte>
    requires |parts| > 0
    decreases |parts|
  {
    if |parts| == 1 then DashDash + boundary + Crlf + parts[0]
    else Delimited(boundary, parts[..|parts| - 1]) + Crlf + DashDash + boundary + Crlf + parts[|parts| - 1]
  }

  function Chunks(jpegs: seq<seq<byte>>): (cs: seq<seq<byte>>)
    ensures |cs| == |jpegs| && forall i :: 0 <= i < |jpegs| ==> cs[i] == Chunk(jpegs[i])
  {
    seq(|jpegs|, i requires 0 <= i < |jpegs| => Chunk(jpegs[i]))
  }

  function MimeParts(jpegs: seq<seq<byte>>): (ps: seq<seq<byte>>)
    ensures |ps| == |jpegs| && forall i :: 0 <= i < |jpegs| ==> ps[i] == MimePart(jpegs[i])
  {
    seq(|jpegs|, i requires 0 <= i < |jpegs| => MimePart(jpegs[i]))
  }

  lemma {:induction false} ConcatSnoc(cs: seq<seq<byte>>, c: seq<byte>)
    ensures Concat(cs + [c]) == Concat(cs) + c
    decreases |cs|
  {
    if cs == [] {
      assert cs + [c] == [c];
    } else {
      assert (cs + [c])[1..] == cs[1..] + [c];
      ConcatSnoc(cs[1..], c);
    }
  }

  /**
   * The stream of n >= 1 chunks is a well-formed multipart body of n parts
   * with boundary `frame`, each part typed image/jpeg and carrying one image,
   * followed by the CRLF that begins the next delimiter.
   */
  lemma {:induction false} StreamIsMultipartBody(jpegs: seq<seq<byte>>)
    requires |jpegs| > 0
    ensures Concat(Chunks(jpegs)) == Delimited(Boundary, MimeParts(jpegs)) + Crlf
    decreases |jpegs|
  {
    var n := |jpegs|;
    var last := jpegs[n - 1];
    ChunkIsBodyPart(last);
    assert Chunk(last) == DashDash + Boundary + Crlf + MimePart(last) + Crlf;
    if n == 1 {
      assert Chunks(jpegs) == [Chunk(last)];
      assert Concat([Chunk(last)]) == Chunk(last) + Concat([]);
    } else {
      var init := jpegs[..n - 1];
      assert Chunks(jpegs) == Chunks(init) + [Chunk(last)];
      assert MimeParts(jpegs)[..n - 1] == MimeParts(init);
      ConcatSnoc(Chunks(init), Chunk(last));
      StreamIsMultipartBody(init);
    }
  }

  /** The image a chunk carries, or nothing if it is not a chunk. */
  function Payload(chunk: seq<byte>): seq<byte>
  {
    match Unframe(chunk)
    case Some(j) => j
    case None => []
  }

  /** The images carried by a sequence of chunks. */
  function Payloads(chunks: seq<seq<byte>>): (jpegs: seq<seq<byte>>)
    ensures |jpegs| == |chunks| && forall i :: 0 <= i < |chunks| ==> jpegs[i] == Payload(chunks[i])
  {
    seq(|chunks|, i requires 0 <= i < |chunks| => Payload(chunks[i]))
  }

  lemma PayloadFrames(chunk: seq<byte>)
    requires Unframe(chunk).Some?
    ensures Chunk(Payload(chunk)) == chunk
  {
    ChunkUnframe(chunk, Unframe(chunk).value);
  }

  /** Chunks that are all framed images are the framing of their payloads. */
  lemma ChunksOfPayloads(chunks: seq<seq<byte>>)
    requires forall i :: 0 <= i < |chunks| ==> Unframe(chunks[i]).Some?
    ensures Chunks(Payloads(chunks)) == chunks
  {
    var cs := Chunks(Payloads(chunks));
    forall i | 0 <= i < |chunks| ensures cs[i] == chunks[i] {
      PayloadFrames(chunks[i]);
    }
  }

  /** Back-to-back framed chunks are a multipart body whose parts carry the chunks' images. */
  lemma FramedConcat(chunks: seq<seq<byte>>)
    requires |chunks| > 0
    requires forall i :: 0 <= i < |chunks| ==> Unframe(chunks[i]).Some?
    ensures Concat(chunks) == Delimited(Boundary, MimeParts(Payloads(chunks))) + Crlf
  {
    ChunksOfPayloads(chunks);
    StreamIsMultipartBody(Payloads(chunks));
  }
}
