/**
 * `generate()` of the prototype react server: open the capture, read once,
 * then while the last read reported success read again, skip a read without
 * a frame or whose encoding failed, and send every other frame as a
 * multipart body part; release the capture when the loop ends. There is no
 * pacing and no registry.
 */
module ReactServer {
  import opened Common
  import opened Multipart

  /** What `vc.read()` returned: the success flag and the frame, if any. */
  datatype Grab = Grab(ok: bool, frame: Option<seq<byte>>)

  /** `cv2.imencode(".jpg", frame)`: the encoded image, or `None` when its flag is false. */
  type FrameEncoder = seq<byte> -> Option<seq<byte>>

  /**
   * How the generator ends: the loop ended and the capture was released, or
   * the trace ran out while the loop was still running (the client went away
   * and the suspended generator was closed, so the release never ran).
   */
  datatype UnpacedEnd = Released | Disconnected

  datatype UnpacedRun = UnpacedRun(chunks: seq<seq<byte>>, end: UnpacedEnd)

  /** The loop from the `k`-th read inside it on; the loop is entered only after a successful read. */
  function Loop(grabs: seq<Grab>, k: nat, encode: FrameEncoder): UnpacedRun
    requires k <= |grabs|
    decreases |grabs| - k
  {
    if k == |grabs| then UnpacedRun([], Disconnected)
    else
      var g := grabs[k];
      var rest := if g.ok then Loop(grabs, k + 1, encode) else UnpacedRun([], Released);
      match g.frame
      case None => rest
      case Some(f) =>
        match encode(f)
        case None => rest
        case Some(jpeg) => UnpacedRun([Chunk(jpeg)] + rest.chunks, rest.end)
  }

  /**
   * The whole generator: `isOpened` is `vc.isOpened()`, `first` the read before
   * the loop (not taken when the capture did not open), `grabs` the reads
   * inside the loop.
   */
  function Unpaced(isOpened: bool, first: Grab, grabs: seq<Grab>, encode: FrameEncoder): UnpacedRun
  {
    if isOpened && first.ok then Loop(grabs, 0, encode) else UnpacedRun([], Released)
  }

  // ---------------------------------------------------------------------------
  // An independent picture: the reads the loop takes, filtered and encoded
  // ---------------------------------------------------------------------------

  /** How many reads the loop takes: up to and including the first failed one, or all of them. */
  function Taken(grabs: seq<Grab>): (n: nat)
    ensures n <= |grabs|
    ensures forall i :: 0 <= i < n - 1 ==> grabs[i].ok
    ensures n < |grabs| ==> n > 0 && !grabs[n - 1].ok
  {
    if grabs == [] then 0 else if !grabs[0].ok then 1 else 1 + Taken(grabs[1..])
  }

  /** Some read of the trace failed. */
  predicate SomeReadFails(grabs: seq<Grab>)
  {
    exists i :: 0 <= i < |grabs| && !grabs[i].ok
  }

  /** The images of the reads that had a frame whose encoding succeeded, in read order. */
  function Images(grabs: seq<Grab>, encode: FrameEncoder): seq<seq<byte>>
  {
    if grabs == [] then []
    else
      var tail := Images(grabs[1..], encode);
      match grabs[0].frame
      case None => tail
      case Some(f) =>
        match encode(f)
        case None => tail
        case Some(jpeg) => [jpeg] + tail
  }

  lemma {:induction false} ChunksCons(jpeg: seq<byte>, jpegs: seq<seq<byte>>)
    ensures Chunks([jpeg] + jpegs) == [Chunk(jpeg)] + Chunks(jpegs)
  {
    assert |Chunks([jpeg] + jpegs)| == |[Chunk(jpeg)] + Chunks(jpegs)|;
  }

  /**
   * The loop from read `k` sends, in order, the framed images of the reads it
   * takes from `k` on, and ends with a release exactly when one of them fails.
   */
  lemma {:induction false} LoopIsFilterMap(grabs: seq<Grab>, k: nat, encode: FrameEncoder)
    requires k <= |grabs|
    ensures Loop(grabs, k, encode).chunks == Chunks(Images(grabs[k..][..Taken(grabs[k..])], encode))
    ensures Loop(grabs, k, encode).end == Released <==> SomeReadFails(grabs[k..])
    decreases |grabs| - k
  {
    var gs := grabs[k..];
    if k < |grabs| {
      var g := grabs[k];
      assert gs[0] == g && gs[1..] == grabs[k + 1..];
      var taken := gs[..Taken(gs)];
      if g.ok {
        LoopIsFilterMap(grabs, k + 1, encode);
        assert taken == [g] + grabs[k + 1..][..Taken(grabs[k + 1..])];
        assert taken[1..] == grabs[k + 1..][..Taken(grabs[k + 1..])];
        if SomeReadFails(grabs[k + 1..]) {
          var i :| 0 <= i < |grabs[k + 1..]| && !grabs[k + 1..][i].ok;
          assert !gs[i + 1].ok;
        }
        if SomeReadFails(gs) {
          var i :| 0 <= i < |gs| && !gs[i].ok;
          assert i > 0 && !grabs[k + 1..][i - 1].ok;
        }
      } else {
        assert taken == [g];
        assert taken[1..] == [];
        assert !gs[0].ok;
      }
      match g.frame
      case None =>
      case Some(f) =>
        match encode(f)
        case None =>
        case Some(jpeg) => ChunksCons(jpeg, Images(taken[1..], encode));
    }
  }

  /**
   * The generator sends, in read order, the framed images of the reads
   * inside the loop up to and including the first failed one; the read
   * before the loop is never sent. It releases the capture exactly when the
   * loop ends: the capture did not open, the read before the loop failed, or
   * a read inside it failed.
   */
  lemma UnpacedIsFilterMap(isOpened: bool, first: Grab, grabs: seq<Grab>, encode: FrameEncoder)
    ensures var r := Unpaced(isOpened, first, grabs, encode);
      && r.chunks == (if isOpened && first.ok then Chunks(Images(grabs[..Taken(grabs)], encode)) else [])
      && (r.end == Released <==> !isOpened || !first.ok || SomeReadFails(grabs))
  {
    LoopIsFilterMap(grabs, 0, encode);
    assert grabs[0..] == grabs;
  }

  /** A capture that does not open sends nothing and is released. */
  lemma NotOpenedSendsNothing(first: Grab, grabs: seq<Grab>, encode: FrameEncoder)
    ensures Unpaced(false, first, grabs, encode) == UnpacedRun([], Released)
  {
  }

  /** The frame of the read before the loop never reaches the client: only its success flag matters. */
  lemma FirstFrameNeverSent(isOpened: bool, first: Grab, other: Option<seq<byte>>, grabs: seq<Grab>, encode: FrameEncoder)
    ensures Unpaced(isOpened, first, grabs, encode) == Unpaced(isOpened, first.(frame := other), grabs, encode)
  {
  }

  /**
   * A read without a frame, or whose encoding fails, sends nothing and does
   * not end the loop by itself: the stream is the one without that read.
   */
  lemma {:induction false} SkippedReadContinues(grabs: seq<Grab>, k: nat, encode: FrameEncoder)
    requires k < |grabs| && grabs[k].ok
    requires grabs[k].frame.None? || encode(grabs[k].frame.value).None?
    ensures Loop(grabs, 0, encode) == Loop(grabs[..k] + grabs[k + 1..], 0, encode)
  {
    SkipFrom(grabs, k, 0, encode);
  }

  lemma {:induction false} SkipFrom(grabs: seq<Grab>, k: nat, m: nat, encode: FrameEncoder)
    requires m <= k < |grabs| && grabs[k].ok
    requires grabs[k].frame.None? || encode(grabs[k].frame.value).None?
    ensures Loop(grabs, m, encode) == Loop(grabs[..k] + grabs[k + 1..], m, encode)
    decreases k - m
  {
    var without := grabs[..k] + grabs[k + 1..];
    if m < k {
      assert without[m] == grabs[m];
      SkipFrom(grabs, k, m + 1, encode);
    } else {
      ShiftBack(grabs, k, k + 1, encode);
    }
  }

  /** Dropping read `k` moves every later read one place down. */
  lemma {:induction false} ShiftBack(grabs: seq<Grab>, k: nat, m: nat, encode: FrameEncoder)
    requires k < m <= |grabs|
    ensures Loop(grabs, m, encode) == Loop(grabs[..k] + grabs[k + 1..], m - 1, encode)
    decreases |grabs| - m
  {
    var without := grabs[..k] + grabs[k + 1..];
    assert |without| == |grabs| - 1;
    if m < |grabs| {
      assert without[m - 1] == grabs[m];
      ShiftBack(grabs, k, m + 1, encode);
    }
  }

  /** The response body is a multipart body with boundary `frame` whose parts are the encoded images. */
  lemma UnpacedBodyIsMultipart(first: Grab, grabs: seq<Grab>, encode: FrameEncoder)
    requires first.ok
    requires |Images(grabs[..Taken(grabs)], encode)| > 0
    ensures Concat(Unpaced(true, first, grabs, encode).chunks)
      == Delimited(Boundary, MimeParts(Images(grabs[..Taken(grabs)], encode))) + Crlf
  {
    UnpacedIsFilterMap(true, first, grabs, encode);
    StreamIsMultipartBody(Images(grabs[..Taken(grabs)], encode));
  }

  // ---------------------------------------------------------------------------
  // The generator as the source writes it
  // ---------------------------------------------------------------------------

  /**
   * `generate()`: returns the chunks yielded and how many times the capture
   * was released.
   */
  method GenerateUnpaced(isOpened: bool, first: Grab, grabs: seq<Grab>, encode: FrameEncoder)
    returns (chunks: seq<seq<byte>>, releases: nat)
    ensures chunks == Unpaced(isOpened, first, grabs, encode).chunks
    ensures releases == if Unpaced(isOpened, first, grabs, encode).end == Released then 1 else 0
  {
    var rval: bool;
    if isOpened {
      rval := first.ok;
    } else {
      rval := false;
    }
    chunks := [];
    releases := 0;
    var k := 0;
    while rval
      invariant k <= |grabs|
      invariant rval ==> isOpened && first.ok
      invariant rval ==> Unpaced(isOpened, first, grabs, encode).chunks == chunks + Loop(grabs, k, encode).chunks
      invariant rval ==> Unpaced(isOpened, first, grabs, encode).end == Loop(grabs, k, encode).end
      invariant !rval ==> Unpaced(isOpened, first, grabs, encode) == UnpacedRun(chunks, Released)
      decreases |grabs| - k, if rval then 1 else 0
    {
      if k == |grabs| {
        return chunks, 0;
      }
      var g := grabs[k];
      k := k + 1;
      rval := g.ok;
      if g.frame.None? {
        continue;
      }
      var jpeg := encode(g.frame.value);
      if jpeg.None? {
        continue;
      }
      chunks := chunks + [Chunk(jpeg.value)];
    }
    releases := releases + 1;
  }
}
