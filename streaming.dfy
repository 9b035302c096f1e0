/**
 * `generate_frames` and `fps_to_ms` of both API copies: the paced MJPEG
 * generator. It marks the camera running, then on every pass re-reads the
 * running flag and the fps, reads a frame, stops on a failed read, and sends
 * the frame only when strictly more than the wait has passed since the last
 * frame it sent.
 *
 * The capture, the clock and the other routes are a trace of `Tick`s: the
 * registry calls the other routes made before the pass, then what `cap.read()`
 * returned and the two clock readings of the pass.
 */
module FrameStreamer {
  import opened Common
  import opened Multipart
  import opened CameraRegistry

  /** `fps_to_ms`: the wait between frames in milliseconds; fps 0 divides by zero. */
  function FpsToMs(fps: int): (r: Result<real>)
    ensures r == Err(ZeroDivisionError) <==> fps == 0
    ensures r.Ok? ==> r.value * fps as real == 1000.0
  {
    if fps == 0 then Err(ZeroDivisionError) else Ok(1000.0 / fps as real)
  }

  /** A higher frame rate means a shorter wait. */
  lemma WaitShrinks(slower: int, faster: int)
    requires 0 < slower < faster
    ensures FpsToMs(faster).value < FpsToMs(slower).value
  {
    DivShrinks(slower as real, faster as real);
  }

  lemma DivShrinks(s: real, f: real)
    requires 0.0 < s < f
    ensures 1000.0 / f < 1000.0 / s
  {
    var a, b := 1000.0 / s, 1000.0 / f;
    assert a * s == 1000.0 && b * f == 1000.0;
    assert b > 0.0;
    assert b * s < b * f;
  }

  lemma MulStrict(a: real, b: real, c: real)
    requires a > b && c > 0.0
    ensures a * c > b * c
  {
  }

  lemma MulMono(a: real, b: real, c: real)
    requires a <= b && c > 0.0
    ensures a * c <= b * c
  {
  }

  /** A negative fps, which the setter accepts, gives a negative wait: no read is ever held back. */
  lemma NegativeFpsNoWait(fps: int)
    requires fps < 0
    ensures FpsToMs(fps).value < 0.0
  {
    var w := FpsToMs(fps).value;
    assert w * fps as real == 1000.0;
  }

  /** `cv2.imencode('.jpg', frame, params)` followed by `tobytes()`; its success flag is ignored. */
  type Encoder = (seq<byte>, seq<int>) -> seq<byte>

  /**
   * One pass's view of the outside: `cap.read()` gave `ok` and `frame`, the
   * clock read `now` milliseconds at the pacing test, and `resumedAt` when the
   * generator came back from `yield` (the value stored as the last frame's time).
   */
  datatype CaptureRead = CaptureRead(ok: bool, frame: seq<byte>, now: real, resumedAt: real)

  /** The registry calls other routes made before a pass, and that pass's read. */
  datatype Tick = Tick(requests: seq<Request>, read: CaptureRead)

  /**
   * How the generator stops: the camera was no longer running, a read
   * failed (`break`), the trace ran out (the client went away), or an
   * exception escaped.
   */
  datatype StreamEnd = NotRunning | ReadFailed | Disconnected | Raised(error: Error)

  /** What the generator needs besides the trace: which copy, which fps getter it calls, the camera, the encoder. */
  datatype Config = Config(edition: Edition, getter: FpsGetter, name: string, encode: Encoder)

  /**
   * The outcome of a stream: the chunks sent, the trace positions of the
   * reads they came from, the position of the pass that ended the loop
   * (`|ticks|` if the trace ran out), how it ended, and the registry after it.
   */
  datatype Stream = Stream(chunks: seq<seq<byte>>, emitted: seq<nat>, stop: nat, end: StreamEnd, cameras: seq<Camera>)

  /** The wait of a pass: the current fps through the getter the loop calls, then `fps_to_ms`. */
  function Wait(cfg: Config, cams: seq<Camera>): Result<real>
  {
    match FpsVia(cfg.edition, cfg.getter, cams, cfg.name)
    case Err(e) => Err(e)
    case Ok(fps) => FpsToMs(fps)
  }

  datatype Pass = Stop(end: StreamEnd) | Discard | Emit(chunk: seq<byte>)

  /** One pass of the loop body in the registry state `cams`, with `last` the time of the last frame sent. */
  function OnePass(cfg: Config, cams: seq<Camera>, rd: CaptureRead, last: real): Pass
  {
    match RunningOf(cfg.edition, cams, cfg.name)
    case Err(e) => Stop(Raised(e))
    case Ok(running) =>
      if !running then Stop(NotRunning)
      else match Wait(cfg, cams)
      case Err(e) => Stop(Raised(e))
      case Ok(wait) =>
        if !rd.ok then Stop(ReadFailed)
        else if rd.now - last > wait then
          match ParamsOf(cfg.edition, cams, cfg.name)
          case Err(e) => Stop(Raised(e))
          case Ok(p) => Emit(Chunk(cfg.encode(rd.frame, AsList(p))))
        else Discard
  }

  /**
   * The loop from trace position `k` on. At most one chunk per read: each
   * chunk has the position of its read, positions increase strictly and lie
   * before the pass that ended the loop; the stream is cut off exactly when
   * the trace runs out.
   */
  function Run(cfg: Config, ticks: seq<Tick>, k: nat, last: real, cams: seq<Camera>): (r: Stream)
    requires k <= |ticks|
    ensures k <= r.stop <= |ticks|
    ensures |r.chunks| == |r.emitted|
    ensures forall i :: 0 <= i < |r.emitted| ==> k <= r.emitted[i] < r.stop
    ensures forall a, b :: 0 <= a < b < |r.emitted| ==> r.emitted[a] < r.emitted[b]
    ensures r.end == Disconnected <==> r.stop == |ticks|
    decreases |ticks| - k
  {
    if k == |ticks| then Stream([], [], k, Disconnected, cams)
    else
      var now := ServeAll(cams, ticks[k].requests);
      match OnePass(cfg, now, ticks[k].read, last)
      case Stop(e) => Stream([], [], k, e, now)
      case Discard => Run(cfg, ticks, k + 1, last, now)
      case Emit(c) =>
        var rest := Run(cfg, ticks, k + 1, ticks[k].read.resumedAt, now);
        Stream([c] + rest.chunks, [k] + rest.emitted, rest.stop, rest.end, rest.cameras)
  }

  /**
   * The whole generator: `start_video_capture` (which raises for an unknown
   * name and otherwise marks the camera running), then the loop with the
   * last-frame time starting at 0.
   */
  function Generate(cfg: Config, ticks: seq<Tick>, cams: seq<Camera>): (r: Stream)
    ensures r.stop <= |ticks|
    ensures |r.chunks| == |r.emitted|
    ensures forall i :: 0 <= i < |r.emitted| ==> r.emitted[i] < r.stop
  {
    match PathOf(cfg.edition, cams, cfg.name)
    case Err(e) => Stream([], [], 0, Raised(e), cams)
    case Ok(_) => Run(cfg, ticks, 0, 0.0, WithRunning(cams, cfg.name, true))
  }

  /** The registry as pass `j` sees it: the requests of passes `k` to `j` served on `cams`. */
  function RegistryAt(cams: seq<Camera>, ticks: seq<Tick>, k: nat, j: nat): seq<Camera>
    requires j < |ticks|
    decreases j + 1 - k
  {
    if k > j then cams else RegistryAt(ServeAll(cams, ticks[k].requests), ticks, k + 1, j)
  }

  /**
   * The time of the last frame sent before pass `j`: the `resumedAt` of the
   * latest position of `e` below `j`, or `last` if there is none.
   */
  function LastSent(ticks: seq<Tick>, e: seq<nat>, j: nat, last: real): real
    decreases |e|
  {
    if e == [] || e[0] >= j || e[0] >= |ticks| then last
    else LastSent(ticks, e[1..], j, ticks[e[0]].read.resumedAt)
  }

  /** Pass `k` sees the registry after its own requests; later passes see the same as a run from `k + 1`. */
  lemma RegistryAtStep(cams: seq<Camera>, ticks: seq<Tick>, k: nat)
    requires k < |ticks|
    ensures RegistryAt(cams, ticks, k, k) == ServeAll(cams, ticks[k].requests)
    ensures forall j :: k < j < |ticks| ==>
      RegistryAt(cams, ticks, k, j) == RegistryAt(ServeAll(cams, ticks[k].requests), ticks, k + 1, j)
  {
  }

  /** A frame sent at pass `k` becomes the last-frame time of every later pass. */
  lemma LastSentStep(ticks: seq<Tick>, k: nat, rest: seq<nat>, last: real)
    requires k < |ticks|
    ensures LastSent(ticks, [k] + rest, k, last) == last
    ensures forall j :: k < j ==> LastSent(ticks, [k] + rest, j, last) == LastSent(ticks, rest, j, ticks[k].read.resumedAt)
  {
    assert ([k] + rest)[1..] == rest;
  }

  /** The passes of a run that sent nothing before the stop discarded their read. */
  lemma {:induction false} RunDiscards(cfg: Config, ticks: seq<Tick>, k: nat, last: real, cams: seq<Camera>)
    requires k <= |ticks|
    ensures Discarded(cfg, ticks, k, last, cams)
    decreases |ticks| - k, 1
  {
    if k < |ticks| {
      var now := ServeAll(cams, ticks[k].requests);
      match OnePass(cfg, now, ticks[k].read, last)
      case Stop(e) =>
      case Discard => RunDiscardsOnDiscard(cfg, ticks, k, last, cams);
      case Emit(c) => RunDiscardsOnEmit(cfg, ticks, k, last, cams);
    }
  }

  ghost predicate Discarded(cfg: Config, ticks: seq<Tick>, k: nat, last: real, cams: seq<Camera>)
    requires k <= |ticks|
  {
    var s := Run(cfg, ticks, k, last, cams);
    forall j :: k <= j < s.stop && j !in s.emitted ==>
      OnePass(cfg, RegistryAt(cams, ticks, k, j), ticks[j].read, LastSent(ticks, s.emitted, j, last)) == Discard
  }

  lemma {:induction false} RunDiscardsOnDiscard(cfg: Config, ticks: seq<Tick>, k: nat, last: real, cams: seq<Camera>)
    requires k < |ticks|
    requires OnePass(cfg, ServeAll(cams, ticks[k].requests), ticks[k].read, last) == Discard
    ensures Discarded(cfg, ticks, k, last, cams)
    decreases |ticks| - k, 0
  {
    var s := Run(cfg, ticks, k, last, cams);
    var now := ServeAll(cams, ticks[k].requests);
    RegistryAtStep(cams, ticks, k);
    RunDiscards(cfg, ticks, k + 1, last, now);
    assert s.emitted == [] || s.emitted[0] > k;
  }

  lemma {:induction false} RunDiscardsOnEmit(cfg: Config, ticks: seq<Tick>, k: nat, last: real, cams: seq<Camera>)
    requires k < |ticks|
    requires OnePass(cfg, ServeAll(cams, ticks[k].requests), ticks[k].read, last).Emit?
    ensures Discarded(cfg, ticks, k, last, cams)
    decreases |ticks| - k, 0
  {
    var s := Run(cfg, ticks, k, last, cams);
    var now := ServeAll(cams, ticks[k].requests);
    RegistryAtStep(cams, ticks, k);
    var r := ticks[k].read.resumedAt;
    var rest := Run(cfg, ticks, k + 1, r, now);
    RunDiscards(cfg, ticks, k + 1, r, now);
    assert s.emitted == [k] + rest.emitted;
    LastSentStep(ticks, k, rest.emitted, last);
  }

  ghost predicate Sent(cfg: Config, ticks: seq<Tick>, k: nat, last: real, cams: seq<Camera>)
    requires k <= |ticks|
  {
    var s := Run(cfg, ticks, k, last, cams);
    forall i :: 0 <= i < |s.emitted| ==>
      OnePass(cfg, RegistryAt(cams, ticks, k, s.emitted[i]), ticks[s.emitted[i]].read,
        LastSent(ticks, s.emitted, s.emitted[i], last)) == Emit(s.chunks[i])
  }

  /** Each chunk of a run is what its pass emitted, in the registry state and with the last-frame time of that pass. */
  lemma {:induction false} RunSends(cfg: Config, ticks: seq<Tick>, k: nat, last: real, cams: seq<Camera>)
    requires k <= |ticks|
    ensures Sent(cfg, ticks, k, last, cams)
    decreases |ticks| - k, 1
  {
    if k < |ticks| {
      var now := ServeAll(cams, ticks[k].requests);
      match OnePass(cfg, now, ticks[k].read, last)
      case Stop(e) =>
      case Discard => RunSendsOnDiscard(cfg, ticks, k, last, cams);
      case Emit(c) => RunSendsOnEmit(cfg, ticks, k, last, cams);
    }
  }

  lemma {:induction false} RunSendsOnDiscard(cfg: Config, ticks: seq<Tick>, k: nat, last: real, cams: seq<Camera>)
    requires k < |ticks|
    requires OnePass(cfg, ServeAll(cams, ticks[k].requests), ticks[k].read, last) == Discard
    ensures Sent(cfg, ticks, k, last, cams)
    decreases |ticks| - k, 0
  {
    var now := ServeAll(cams, ticks[k].requests);
    RegistryAtStep(cams, ticks, k);
    RunSends(cfg, ticks, k + 1, last, now);
  }

  lemma {:induction false} RunSendsOnEmit(cfg: Config, ticks: seq<Tick>, k: nat, last: real, cams: seq<Camera>)
    requires k < |ticks|
    requires OnePass(cfg, ServeAll(cams, ticks[k].requests), ticks[k].read, last).Emit?
    ensures Sent(cfg, ticks, k, last, cams)
    decreases |ticks| - k, 0
  {
    var s := Run(cfg, ticks, k, last, cams);
    var now := ServeAll(cams, ticks[k].requests);
    RegistryAtStep(cams, ticks, k);
    var r := ticks[k].read.resumedAt;
    var rest := Run(cfg, ticks, k + 1, r, now);
    RunSends(cfg, ticks, k + 1, r, now);
    assert s.emitted == [k] + rest.emitted;
    LastSentStep(ticks, k, rest.emitted, last);
    forall i | 0 <= i < |s.emitted|
      ensures OnePass(cfg, RegistryAt(cams, ticks, k, s.emitted[i]), ticks[s.emitted[i]].read,
        LastSent(ticks, s.emitted, s.emitted[i], last)) == Emit(s.chunks[i])
    {
      if i > 0 {
        assert s.emitted[i] == rest.emitted[i - 1] && s.chunks[i] == rest.chunks[i - 1];
      }
    }
  }

  ghost predicate Stopped(cfg: Config, ticks: seq<Tick>, k: nat, last: real, cams: seq<Camera>)
    requires k <= |ticks|
  {
    var s := Run(cfg, ticks, k, last, cams);
    s.stop < |ticks| ==>
      && s.cameras == RegistryAt(cams, ticks, k, s.stop)
      && OnePass(cfg, s.cameras, ticks[s.stop].read, LastSent(ticks, s.emitted, s.stop, last)) == Stop(s.end)
  }

  /** The pass that ended a run stopped it for the reason the run reports, in the registry state of that pass. */
  lemma {:induction false} RunStops(cfg: Config, ticks: seq<Tick>, k: nat, last: real, cams: seq<Camera>)
    requires k <= |ticks|
    ensures Stopped(cfg, ticks, k, last, cams)
    decreases |ticks| - k, 1
  {
    if k < |ticks| {
      var now := ServeAll(cams, ticks[k].requests);
      match OnePass(cfg, now, ticks[k].read, last)
      case Stop(e) =>
        assert RegistryAt(cams, ticks, k, k) == now;
      case Discard => RunStopsOnDiscard(cfg, ticks, k, last, cams);
      case Emit(c) => RunStopsOnEmit(cfg, ticks, k, last, cams);
    }
  }

  lemma {:induction false} RunStopsOnDiscard(cfg: Config, ticks: seq<Tick>, k: nat, last: real, cams: seq<Camera>)
    requires k < |ticks|
    requires OnePass(cfg, ServeAll(cams, ticks[k].requests), ticks[k].read, last) == Discard
    ensures Stopped(cfg, ticks, k, last, cams)
    decreases |ticks| - k, 0
  {
    var now := ServeAll(cams, ticks[k].requests);
    RegistryAtStep(cams, ticks, k);
    RunStops(cfg, ticks, k + 1, last, now);
  }

  lemma {:induction false} RunStopsOnEmit(cfg: Config, ticks: seq<Tick>, k: nat, last: real, cams: seq<Camera>)
    requires k < |ticks|
    requires OnePass(cfg, ServeAll(cams, ticks[k].requests), ticks[k].read, last).Emit?
    ensures Stopped(cfg, ticks, k, last, cams)
    decreases |ticks| - k, 0
  {
    var s := Run(cfg, ticks, k, last, cams);
    var now := ServeAll(cams, ticks[k].requests);
    RegistryAtStep(cams, ticks, k);
    var r := ticks[k].read.resumedAt;
    var rest := Run(cfg, ticks, k + 1, r, now);
    RunStops(cfg, ticks, k + 1, r, now);
    assert s.emitted == [k] + rest.emitted;
    LastSentStep(ticks, k, rest.emitted, last);
  }

  // ---------------------------------------------------------------------------
  // What a stream promises
  // ---------------------------------------------------------------------------

  /** A pass sends exactly when the camera runs, the wait is defined, the read succeeded and strictly more than the wait has passed. */
  lemma EmitMeans(cfg: Config, cams: seq<Camera>, rd: CaptureRead, last: real, c: seq<byte>)
    requires OnePass(cfg, cams, rd, last) == Emit(c)
    ensures rd.ok && RunningOf(cfg.edition, cams, cfg.name) == Ok(true)
    ensures Wait(cfg, cams).Ok? && rd.now - last > Wait(cfg, cams).value
    ensures ParamsOf(cfg.edition, cams, cfg.name).Ok?
    ensures c == Chunk(cfg.encode(rd.frame, AsList(ParamsOf(cfg.edition, cams, cfg.name).value)))
  {
  }

  /** A pass that neither sends nor stops had a successful read held back by the pacing test. */
  lemma DiscardMeans(cfg: Config, cams: seq<Camera>, rd: CaptureRead, last: real)
    requires OnePass(cfg, cams, rd, last) == Discard
    ensures rd.ok && RunningOf(cfg.edition, cams, cfg.name) == Ok(true)
    ensures Wait(cfg, cams).Ok? && rd.now - last <= Wait(cfg, cams).value
  {
  }

  /** The registry pass `j` of a stream sees: the camera marked running, then the requests up to pass `j`. */
  function StateAt(cfg: Config, ticks: seq<Tick>, cams: seq<Camera>, j: nat): seq<Camera>
    requires j < |ticks|
  {
    RegistryAt(WithRunning(cams, cfg.name, true), ticks, 0, j)
  }

  lemma {:induction false} RegistryAtNames(cams: seq<Camera>, ticks: seq<Tick>, k: nat, j: nat)
    requires j < |ticks|
    ensures Names(RegistryAt(cams, ticks, k, j)) == Names(cams)
    ensures Registry(cams) ==> Registry(RegistryAt(cams, ticks, k, j))
    decreases j + 1 - k
  {
    if k <= j {
      ServeAllKeeps(cams, ticks[k].requests);
      RegistryAtNames(ServeAll(cams, ticks[k].requests), ticks, k + 1, j);
    }
  }

  /** A camera that was listed stays listed in every state of its stream. */
  lemma StateAtKnows(cfg: Config, ticks: seq<Tick>, cams: seq<Camera>, j: nat)
    requires IndexOf(cams, cfg.name).Some? && j < |ticks|
    ensures IndexOf(StateAt(cfg, ticks, cams, j), cfg.name).Some?
  {
    var started := WithRunning(cams, cfg.name, true);
    WithRunningEffect(cfg.edition, cams, cfg.name, true);
    RegistryAtNames(started, ticks, 0, j);
    IndexOfSameNames(StateAt(cfg, ticks, cams, j), cams, cfg.name);
  }

  /** With strictly increasing positions, the last-frame time at a sent pass is the previous sent pass's. */
  lemma {:induction false} LastSentAt(ticks: seq<Tick>, e: seq<nat>, i: nat, last: real)
    requires i < |e|
    requires forall m :: 0 <= m < |e| ==> e[m] < |ticks|
    requires forall a, b :: 0 <= a < b < |e| ==> e[a] < e[b]
    ensures LastSent(ticks, e, e[i], last) == if i == 0 then last else ticks[e[i - 1]].read.resumedAt
    decreases i
  {
    if i > 0 {
      assert e[0] < e[i];
      LastSentAt(ticks, e[1..], i - 1, ticks[e[0]].read.resumedAt);
    }
  }

  /** What the pass behind the `i`-th chunk of a stream saw and did. */
  ghost predicate SentAt(cfg: Config, ticks: seq<Tick>, cams: seq<Camera>, s: Stream, i: nat)
    requires |s.chunks| == |s.emitted| && forall m :: 0 <= m < |s.emitted| ==> s.emitted[m] < |ticks|
    requires i < |s.emitted|
  {
    var j := s.emitted[i];
    var reg := StateAt(cfg, ticks, cams, j);
    && ticks[j].read.ok
    && RunningOf(cfg.edition, reg, cfg.name) == Ok(true)
    && Wait(cfg, reg).Ok?
    && ticks[j].read.now - (if i == 0 then 0.0 else ticks[s.emitted[i - 1]].read.resumedAt) > Wait(cfg, reg).value
    && ParamsOf(cfg.edition, reg, cfg.name).Ok?
    && s.chunks[i] == Chunk(cfg.encode(ticks[j].read.frame, AsList(ParamsOf(cfg.edition, reg, cfg.name).value)))
  }

  lemma SentChunk(cfg: Config, ticks: seq<Tick>, cams: seq<Camera>, i: nat)
    requires IndexOf(cams, cfg.name).Some?
    requires i < |Generate(cfg, ticks, cams).emitted|
    ensures SentAt(cfg, ticks, cams, Generate(cfg, ticks, cams), i)
  {
    var started := WithRunning(cams, cfg.name, true);
    var s := Generate(cfg, ticks, cams);
    assert s == Run(cfg, ticks, 0, 0.0, started);
    RunSends(cfg, ticks, 0, 0.0, started);
    var j := s.emitted[i];
    LastSentAt(ticks, s.emitted, i, 0.0);
    EmitMeans(cfg, StateAt(cfg, ticks, cams, j), ticks[j].read, LastSent(ticks, s.emitted, j, 0.0), s.chunks[i]);
  }

  /**
   * Every chunk comes from a successful read taken while the camera was
   * running; it was sent because strictly more than the wait computed from
   * the fps of that pass had passed since the previous chunk's resume time
   * (since time 0 for the first); and it is the multipart body part of the
   * image encoded with the camera's encoding params of that pass.
   */
  lemma StreamSends(cfg: Config, ticks: seq<Tick>, cams: seq<Camera>)
    requires IndexOf(cams, cfg.name).Some?
    ensures var s := Generate(cfg, ticks, cams);
      forall i :: 0 <= i < |s.emitted| ==> SentAt(cfg, ticks, cams, s, i)
  {
    forall i | 0 <= i < |Generate(cfg, ticks, cams).emitted| ensures SentAt(cfg, ticks, cams, Generate(cfg, ticks, cams), i) {
      SentChunk(cfg, ticks, cams, i);
    }
  }

  /**
   * Every pass before the stop that sent nothing had a successful read, a
   * running camera and a last-frame time less than or equal to one wait
   * ago: a read is held back only by the pacing test, and holding it back
   * leaves the last-frame time as it was.
   */
  lemma StreamDiscards(cfg: Config, ticks: seq<Tick>, cams: seq<Camera>)
    requires IndexOf(cams, cfg.name).Some?
    ensures var s := Generate(cfg, ticks, cams);
      forall j :: 0 <= j < s.stop && j !in s.emitted ==>
        && ticks[j].read.ok
        && RunningOf(cfg.edition, StateAt(cfg, ticks, cams, j), cfg.name) == Ok(true)
        && Wait(cfg, StateAt(cfg, ticks, cams, j)).Ok?
        && ticks[j].read.now - LastSent(ticks, s.emitted, j, 0.0) <= Wait(cfg, StateAt(cfg, ticks, cams, j)).value
  {
    var started := WithRunning(cams, cfg.name, true);
    var s := Generate(cfg, ticks, cams);
    assert s == Run(cfg, ticks, 0, 0.0, started);
    RunDiscards(cfg, ticks, 0, 0.0, started);
    forall j | 0 <= j < s.stop && j !in s.emitted
      ensures && ticks[j].read.ok
        && RunningOf(cfg.edition, StateAt(cfg, ticks, cams, j), cfg.name) == Ok(true)
        && Wait(cfg, StateAt(cfg, ticks, cams, j)).Ok?
        && ticks[j].read.now - LastSent(ticks, s.emitted, j, 0.0) <= Wait(cfg, StateAt(cfg, ticks, cams, j)).value
    {
      DiscardMeans(cfg, StateAt(cfg, ticks, cams, j), ticks[j].read, LastSent(ticks, s.emitted, j, 0.0));
    }
  }

  /** Why a pass on a listed camera stops the loop. */
  lemma StopMeans(cfg: Config, cams: seq<Camera>, rd: CaptureRead, last: real, e: StreamEnd)
    requires IndexOf(cams, cfg.name).Some?
    requires OnePass(cfg, cams, rd, last) == Stop(e)
    ensures e == ReadFailed ==> !rd.ok && RunningOf(cfg.edition, cams, cfg.name) == Ok(true)
    ensures e == NotRunning ==> RunningOf(cfg.edition, cams, cfg.name) == Ok(false)
    ensures e.Raised? ==> Wait(cfg, cams) == Err(e.error)
    ensures e != Disconnected
  {
  }

  /** Every read before the pass that ended the stream succeeded. */
  lemma ReadsBeforeStop(cfg: Config, ticks: seq<Tick>, cams: seq<Camera>, j: nat)
    requires IndexOf(cams, cfg.name).Some?
    requires j < Generate(cfg, ticks, cams).stop
    ensures ticks[j].read.ok
  {
    var s := Generate(cfg, ticks, cams);
    if j in s.emitted {
      var i :| 0 <= i < |s.emitted| && s.emitted[i] == j;
      SentChunk(cfg, ticks, cams, i);
    } else {
      StreamDiscards(cfg, ticks, cams);
    }
  }

  /**
   * The loop ends at its first failed read or when the camera is found not
   * running; every read before the stop succeeded. A failed read leaves the
   * camera marked running. An exception comes from the fps step (the getter
   * or `fps_to_ms`).
   */
  lemma StreamStops(cfg: Config, ticks: seq<Tick>, cams: seq<Camera>)
    requires IndexOf(cams, cfg.name).Some?
    ensures var s := Generate(cfg, ticks, cams);
      && (forall j :: 0 <= j < s.stop ==> ticks[j].read.ok)
      && (s.end == Disconnected <==> s.stop == |ticks|)
      && (s.stop < |ticks| ==> s.cameras == StateAt(cfg, ticks, cams, s.stop))
      && (s.end == ReadFailed ==>
            s.stop < |ticks| && !ticks[s.stop].read.ok && RunningOf(cfg.edition, s.cameras, cfg.name) == Ok(true))
      && (s.end == NotRunning ==> s.stop < |ticks| && RunningOf(cfg.edition, s.cameras, cfg.name) == Ok(false))
      && (s.end.Raised? ==> s.stop < |ticks| && Wait(cfg, s.cameras) == Err(s.end.error))
  {
    var started := WithRunning(cams, cfg.name, true);
    var s := Generate(cfg, ticks, cams);
    assert s == Run(cfg, ticks, 0, 0.0, started);
    RunStops(cfg, ticks, 0, 0.0, started);
    forall j | 0 <= j < s.stop ensures ticks[j].read.ok {
      ReadsBeforeStop(cfg, ticks, cams, j);
    }
    if s.stop < |ticks| {
      StateAtKnows(cfg, ticks, cams, s.stop);
      StopMeans(cfg, s.cameras, ticks[s.stop].read, LastSent(ticks, s.emitted, s.stop, 0.0), s.end);
    }
  }

  // ---------------------------------------------------------------------------
  // The generator as the source writes it
  // ---------------------------------------------------------------------------

  /** The registry calls the other routes make while the generator is suspended. */
  method ServeRequests(mgr: CameraManager, reqs: seq<Request>)
    modifies mgr
    requires mgr.Valid()
    ensures mgr.Valid()
    ensures mgr.cameras == ServeAll(old(mgr.cameras), reqs)
  {
    for i := 0 to |reqs|
      invariant mgr.Valid()
      invariant ServeAll(old(mgr.cameras), reqs) == ServeAll(mgr.cameras, reqs[i..])
    {
      assert reqs[i..][1..] == reqs[i + 1..];
      mgr.ServeRequest(reqs[i]);
    }
  }

  /**
   * One pass of the `while` body after the running check's lookup: the
   * running check, the fps getter, `fps_to_ms`, the read, the pacing test,
   * and on success the params, the encoder and the framing.
   */
  method LoopPass(mgr: CameraManager, getter: FpsGetter, name: string, encode: Encoder, read: CaptureRead, timeSinceLastFrame: real)
    returns (p: Pass)
    requires mgr.Valid()
    ensures p == OnePass(Config(mgr.edition, getter, name, encode), mgr.cameras, read, timeSinceLastFrame)
  {
    var running := mgr.CameraIsRunning(name);
    if running.Err? {
      return Stop(Raised(running.error));
    }
    if !running.value {
      return Stop(NotRunning);
    }
    var fps := mgr.CallFpsGetter(getter, name);
    if fps.Err? {
      return Stop(Raised(fps.error));
    }
    var waitTime := FpsToMs(fps.value);
    if waitTime.Err? {
      return Stop(Raised(waitTime.error));
    }
    if !read.ok {
      return Stop(ReadFailed);
    }
    if read.now - timeSinceLastFrame > waitTime.value {
      // the running check of this pass found the camera
      var params := mgr.GetCameraEncodingParams(name);
      var jpeg := encode(read.frame, AsList(params.value));
      return Emit(Chunk(jpeg));
    }
    return Discard;
  }

  /** One step of `Run`: what pass `k` contributes and where the run goes on. */
  lemma RunUnfolds(cfg: Config, ticks: seq<Tick>, k: nat, last: real, cams: seq<Camera>)
    requires k < |ticks|
    ensures var now := ServeAll(cams, ticks[k].requests);
      var r := Run(cfg, ticks, k, last, cams);
      match OnePass(cfg, now, ticks[k].read, last)
      case Stop(e) => r.chunks == [] && r.end == e && r.cameras == now
      case Discard => r == Run(cfg, ticks, k + 1, last, now)
      case Emit(c) =>
        var after := Run(cfg, ticks, k + 1, ticks[k].read.resumedAt, now);
        r.chunks == [c] + after.chunks && r.end == after.end && r.cameras == after.cameras
  {
  }

  /**
   * The `while` loop of `generate_frames` from pass `k`, after the capture
   * has started: yields the chunks of `Run` and ends as it does.
   */
  method PassLoop(mgr: CameraManager, getter: FpsGetter, name: string, encode: Encoder, ticks: seq<Tick>)
    returns (chunks: seq<seq<byte>>, end: StreamEnd)
    modifies mgr
    requires mgr.Valid()
    ensures mgr.Valid()
    ensures chunks == Run(Config(mgr.edition, getter, name, encode), ticks, 0, 0.0, old(mgr.cameras)).chunks
    ensures end == Run(Config(mgr.edition, getter, name, encode), ticks, 0, 0.0, old(mgr.cameras)).end
    ensures mgr.cameras == Run(Config(mgr.edition, getter, name, encode), ticks, 0, 0.0, old(mgr.cameras)).cameras
  {
    ghost var cfg := Config(mgr.edition, getter, name, encode);
    ghost var whole := Run(cfg, ticks, 0, 0.0, mgr.cameras);
    var timeSinceLastFrame: real := 0.0;
    chunks := [];
    var k := 0;
    while k < |ticks|
      invariant k <= |ticks| && mgr.Valid() && mgr.edition == cfg.edition
      invariant whole.chunks == chunks + Run(cfg, ticks, k, timeSinceLastFrame, mgr.cameras).chunks
      invariant whole.end == Run(cfg, ticks, k, timeSinceLastFrame, mgr.cameras).end
      invariant whole.cameras == Run(cfg, ticks, k, timeSinceLastFrame, mgr.cameras).cameras
      decreases |ticks| - k
    {
      RunUnfolds(cfg, ticks, k, timeSinceLastFrame, mgr.cameras);
      ServeRequests(mgr, ticks[k].requests);
      var pass := LoopPass(mgr, getter, name, encode, ticks[k].read, timeSinceLastFrame);
      match pass {
        case Stop(e) =>
          return chunks, e;
        case Discard =>
        case Emit(c) =>
          chunks := chunks + [c];
          timeSinceLastFrame := ticks[k].read.resumedAt;
      }
      k := k + 1;
    }
    return chunks, Disconnected;
  }

  /**
   * `generate_frames(camera_name)`: start the capture, then loop while the
   * camera is running, re-reading the fps through `getter` and the quality
   * on every pass. Returns the chunks yielded and how the generator ended.
   */
  method GenerateFrames(mgr: CameraManager, getter: FpsGetter, name: string, encode: Encoder, ticks: seq<Tick>)
    returns (chunks: seq<seq<byte>>, end: StreamEnd)
    modifies mgr
    requires mgr.Valid()
    ensures mgr.Valid()
    ensures chunks == Generate(Config(mgr.edition, getter, name, encode), ticks, old(mgr.cameras)).chunks
    ensures end == Generate(Config(mgr.edition, getter, name, encode), ticks, old(mgr.cameras)).end
    ensures mgr.cameras == Generate(Config(mgr.edition, getter, name, encode), ticks, old(mgr.cameras)).cameras
  {
    var cap := mgr.StartVideoCapture(name);
    if cap.Err? {
      return [], Raised(cap.error);
    }
    chunks, end := PassLoop(mgr, getter, name, encode, ticks);
  }
}
