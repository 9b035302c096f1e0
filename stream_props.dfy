/**
 * What a stream of `generate_frames` promises across passes: when it starts,
 * why it ends, that registry changes made between passes reach the next
 * pass, that the sent frames are paced by the fps, and that the response
 * body is a multipart body.
 */
module StreamProperties {
  import opened Common
  import opened Multipart
  import opened CameraRegistry
  import opened FrameStreamer

  /** An unknown camera raises from `start_video_capture` before any read: nothing is sent and nothing changes. */
  lemma UnknownCameraStream(cfg: Config, ticks: seq<Tick>, cams: seq<Camera>)
    requires IndexOf(cams, cfg.name).None?
    ensures Generate(cfg, ticks, cams) == Stream([], [], 0, Raised(Missing(cfg.edition, cfg.name, "path")), cams)
  {
  }

  /** A listed camera is marked running before the first pass, whatever its flag was. */
  lemma StartMarksRunning(cfg: Config, ticks: seq<Tick>, cams: seq<Camera>)
    requires IndexOf(cams, cfg.name).Some?
    ensures RunningOf(cfg.edition, WithRunning(cams, cfg.name, true), cfg.name) == Ok(true)
    ensures Generate(cfg, ticks, cams) == Run(cfg, ticks, 0, 0.0, WithRunning(cams, cfg.name, true))
  {
    WithRunningEffect(cfg.edition, cams, cfg.name, true);
  }

  /** The registry pass `j` sees is the one pass `j - 1` saw, with pass `j`'s requests served. */
  lemma {:induction false} RegistryAtLast(cams: seq<Camera>, ticks: seq<Tick>, k: nat, j: nat)
    requires k <= j < |ticks|
    ensures RegistryAt(cams, ticks, k, j)
      == ServeAll(if j == k then cams else RegistryAt(cams, ticks, k, j - 1), ticks[j].requests)
    decreases j - k
  {
    if k < j {
      RegistryAtLast(ServeAll(cams, ticks[k].requests), ticks, k + 1, j);
    }
  }

  /** The registry just before pass `j` serves its requests. */
  function Before(cfg: Config, ticks: seq<Tick>, cams: seq<Camera>, j: nat): seq<Camera>
    requires j < |ticks|
  {
    if j == 0 then WithRunning(cams, cfg.name, true) else StateAt(cfg, ticks, cams, j - 1)
  }

  lemma BeforeKnows(cfg: Config, ticks: seq<Tick>, cams: seq<Camera>, j: nat)
    requires IndexOf(cams, cfg.name).Some? && j < |ticks|
    ensures StateAt(cfg, ticks, cams, j) == ServeAll(Before(cfg, ticks, cams, j), ticks[j].requests)
    ensures IndexOf(Before(cfg, ticks, cams, j), cfg.name).Some?
    ensures Registry(cams) ==> Registry(Before(cfg, ticks, cams, j))
  {
    var started := WithRunning(cams, cfg.name, true);
    WithRunningEffect(cfg.edition, cams, cfg.name, true);
    RegistryAtLast(started, ticks, 0, j);
    if j == 0 {
      IndexOfSameNames(started, cams, cfg.name);
    } else {
      StateAtKnows(cfg, ticks, cams, j - 1);
      RegistryAtNames(started, ticks, 0, j - 1);
    }
  }

  /**
   * Every pass before the one that ended the loop found the camera running
   * and computed its wait: the running check comes before every read.
   */
  lemma RunningBeforeStop(cfg: Config, ticks: seq<Tick>, cams: seq<Camera>, j: nat)
    requires IndexOf(cams, cfg.name).Some?
    requires j < Generate(cfg, ticks, cams).stop
    ensures RunningOf(cfg.edition, StateAt(cfg, ticks, cams, j), cfg.name) == Ok(true)
    ensures Wait(cfg, StateAt(cfg, ticks, cams, j)).Ok?
  {
    var s := Generate(cfg, ticks, cams);
    if j in s.emitted {
      var i :| 0 <= i < |s.emitted| && s.emitted[i] == j;
      SentChunk(cfg, ticks, cams, i);
    } else {
      StreamDiscards(cfg, ticks, cams);
    }
  }

  /** The pass that ended the loop, seen in its registry state. */
  lemma StopPass(cfg: Config, ticks: seq<Tick>, cams: seq<Camera>)
    requires IndexOf(cams, cfg.name).Some?
    requires Generate(cfg, ticks, cams).stop < |ticks|
    ensures var s := Generate(cfg, ticks, cams);
      && s.cameras == StateAt(cfg, ticks, cams, s.stop)
      && OnePass(cfg, s.cameras, ticks[s.stop].read, LastSent(ticks, s.emitted, s.stop, 0.0)) == Stop(s.end)
  {
    var started := WithRunning(cams, cfg.name, true);
    assert Generate(cfg, ticks, cams) == Run(cfg, ticks, 0, 0.0, started);
    RunStops(cfg, ticks, 0, 0.0, started);
  }

  /** The sent frames are successful reads, in read order, at most one chunk per read. */
  lemma SentInReadOrder(cfg: Config, ticks: seq<Tick>, cams: seq<Camera>)
    requires IndexOf(cams, cfg.name).Some?
    ensures var s := Generate(cfg, ticks, cams);
      && (forall i :: 0 <= i < |s.emitted| ==> s.emitted[i] < |ticks| && ticks[s.emitted[i]].read.ok)
      && (forall a, b :: 0 <= a < b < |s.emitted| ==> s.emitted[a] < s.emitted[b])
  {
    var started := WithRunning(cams, cfg.name, true);
    var s := Generate(cfg, ticks, cams);
    assert s == Run(cfg, ticks, 0, 0.0, started);
    forall i | 0 <= i < |s.emitted| ensures s.emitted[i] < |ticks| && ticks[s.emitted[i]].read.ok {
      SentChunk(cfg, ticks, cams, i);
    }
  }

  /**
   * When the last of pass `j`'s calls that names the streamed camera is
   * `req`, the camera's fps, params and running flag in pass `j` are the
   * ones `req` leaves in the registry the earlier calls produced.
   */
  lemma LastCallDecides(cfg: Config, ticks: seq<Tick>, cams: seq<Camera>, j: nat,
                        pre: seq<Request>, req: Request, post: seq<Request>)
    requires IndexOf(cams, cfg.name).Some?
    requires j < |ticks| && ticks[j].requests == pre + [req] + post
    requires forall i :: 0 <= i < |post| ==> Target(post[i]) != cfg.name
    ensures var mid := ServeAll(Before(cfg, ticks, cams, j), pre);
      && IndexOf(mid, cfg.name).Some?
      && (Registry(cams) ==> Registry(mid))
      && FpsOf(cfg.edition, StateAt(cfg, ticks, cams, j), cfg.name) == FpsOf(cfg.edition, Serve(mid, req), cfg.name)
      && ParamsOf(cfg.edition, StateAt(cfg, ticks, cams, j), cfg.name) == ParamsOf(cfg.edition, Serve(mid, req), cfg.name)
      && RunningOf(cfg.edition, StateAt(cfg, ticks, cams, j), cfg.name) == RunningOf(cfg.edition, Serve(mid, req), cfg.name)
  {
    var prev := Before(cfg, ticks, cams, j);
    var mid := ServeAll(prev, pre);
    BeforeKnows(cfg, ticks, cams, j);
    ServeAllConcat(prev, pre + [req], post);
    ServeAllConcat(prev, pre, [req]);
    assert ServeAll(mid, [req]) == Serve(mid, req);
    ServeAllKeeps(prev, pre);
    IndexOfSameNames(mid, prev, cfg.name);
    ServeOthers(cfg.edition, Serve(mid, req), cfg.name, post);
  }

  /** After `end_video_capture` as the last call naming the camera, pass `j` sees it not running. */
  lemma EndClearsRunning(cfg: Config, ticks: seq<Tick>, cams: seq<Camera>, j: nat,
                         pre: seq<Request>, post: seq<Request>)
    requires IndexOf(cams, cfg.name).Some?
    requires j < |ticks| && ticks[j].requests == pre + [EndCapture(cfg.name)] + post
    requires forall i :: 0 <= i < |post| ==> Target(post[i]) != cfg.name
    ensures RunningOf(cfg.edition, StateAt(cfg, ticks, cams, j), cfg.name) == Ok(false)
  {
    LastCallDecides(cfg, ticks, cams, j, pre, EndCapture(cfg.name), post);
    EndCaptureClears(cfg.edition, ServeAll(Before(cfg, ticks, cams, j), pre), cfg.name);
  }

  /**
   * `end_video_capture` on the streamed camera as the last call naming it
   * before pass `j`: the loop does not go past pass `j`, and if it gets
   * there it ends because the camera is not running.
   */
  lemma EndStopsStream(cfg: Config, ticks: seq<Tick>, cams: seq<Camera>, j: nat,
                       pre: seq<Request>, post: seq<Request>)
    requires IndexOf(cams, cfg.name).Some?
    requires j < |ticks| && ticks[j].requests == pre + [EndCapture(cfg.name)] + post
    requires forall i :: 0 <= i < |post| ==> Target(post[i]) != cfg.name
    ensures Generate(cfg, ticks, cams).stop <= j
    ensures Generate(cfg, ticks, cams).stop == j ==> Generate(cfg, ticks, cams).end == NotRunning
  {
    var s := Generate(cfg, ticks, cams);
    EndClearsRunning(cfg, ticks, cams, j, pre, post);
    if j < s.stop {
      RunningBeforeStop(cfg, ticks, cams, j);
      assert false;
    }
    if s.stop == j {
      StopPass(cfg, ticks, cams);
    }
  }

  /**
   * `set_camera_encoding_params` as the last call naming the streamed camera
   * before a sending pass reaches that pass's frame: the chunk sent there is
   * the image encoded with the quality flag and the new quality.
   */
  lemma QualityChangeApplies(cfg: Config, ticks: seq<Tick>, cams: seq<Camera>, i: nat, q: int,
                             pre: seq<Request>, post: seq<Request>)
    requires Registry(cams) && IndexOf(cams, cfg.name).Some?
    requires i < |Generate(cfg, ticks, cams).emitted|
    requires Generate(cfg, ticks, cams).emitted[i] < |ticks|
    requires ticks[Generate(cfg, ticks, cams).emitted[i]].requests == pre + [SetQuality(cfg.name, q)] + post
    requires forall k :: 0 <= k < |post| ==> Target(post[k]) != cfg.name
    ensures Generate(cfg, ticks, cams).chunks[i]
      == Chunk(cfg.encode(ticks[Generate(cfg, ticks, cams).emitted[i]].read.frame, [ImwriteJpegQuality, q]))
  {
    var s := Generate(cfg, ticks, cams);
    var j := s.emitted[i];
    SentChunk(cfg, ticks, cams, i);
    LastCallDecides(cfg, ticks, cams, j, pre, SetQuality(cfg.name, q), post);
    var mid := ServeAll(Before(cfg, ticks, cams, j), pre);
    WithQualityEffect(cfg.edition, mid, cfg.name, q);
    var p := IndexOf(mid, cfg.name).value;
    assert ParamsOf(cfg.edition, mid, cfg.name).value.flag == mid[p].encodingParams.flag == ImwriteJpegQuality;
  }

  /**
   * `set_camera_fps` as the last call naming the streamed camera before
   * pass `j` sets the wait of pass `j`, when the loop calls the registry's
   * own fps getter.
   */
  lemma FpsChangeApplies(cfg: Config, ticks: seq<Tick>, cams: seq<Camera>, j: nat, f: int,
                         pre: seq<Request>, post: seq<Request>)
    requires IndexOf(cams, cfg.name).Some? && cfg.getter == FpsGetterName(cfg.edition)
    requires j < |ticks| && ticks[j].requests == pre + [SetFps(cfg.name, f)] + post
    requires forall k :: 0 <= k < |post| ==> Target(post[k]) != cfg.name
    ensures Wait(cfg, StateAt(cfg, ticks, cams, j)) == FpsToMs(f)
  {
    LastCallDecides(cfg, ticks, cams, j, pre, SetFps(cfg.name, f), post);
    var mid := ServeAll(Before(cfg, ticks, cams, j), pre);
    WithFpsEffect(cfg.edition, mid, cfg.name, f);
  }

  lemma {:induction false} NoRequestsNoChange(cams: seq<Camera>, ticks: seq<Tick>, k: nat, j: nat)
    requires j < |ticks| && forall m :: 0 <= m < |ticks| ==> ticks[m].requests == []
    ensures RegistryAt(cams, ticks, k, j) == cams
    decreases j + 1 - k
  {
    if k <= j {
      NoRequestsNoChange(cams, ticks, k + 1, j);
    }
  }

  /**
   * Pacing: with no registry calls during the stream, the registry's own fps
   * getter, an fps `f > 0`, and a clock that does not go back within a pass,
   * the `n`-th chunk (from 1) comes from a read taken more than `n` waits of
   * `1000 / f` milliseconds after time 0. So in the first `t` milliseconds at
   * most `t * f / 1000` frames go out.
   */
  lemma {:induction false} Paced(cfg: Config, ticks: seq<Tick>, cams: seq<Camera>, f: int, i: nat)
    requires IndexOf(cams, cfg.name).Some? && cfg.getter == FpsGetterName(cfg.edition)
    requires FpsOf(cfg.edition, cams, cfg.name) == Ok(f) && f > 0
    requires forall m :: 0 <= m < |ticks| ==> ticks[m].requests == []
    requires forall m :: 0 <= m < |ticks| ==> ticks[m].read.now <= ticks[m].read.resumedAt
    requires i < |Generate(cfg, ticks, cams).emitted|
    ensures Generate(cfg, ticks, cams).emitted[i] < |ticks|
    ensures ticks[Generate(cfg, ticks, cams).emitted[i]].read.now * f as real > (i + 1) as real * 1000.0
    decreases i
  {
    var s := Generate(cfg, ticks, cams);
    var started := WithRunning(cams, cfg.name, true);
    var j := s.emitted[i];
    SentChunk(cfg, ticks, cams, i);
    NoRequestsNoChange(started, ticks, 0, j);
    WithRunningEffect(cfg.edition, cams, cfg.name, true);
    var w := FpsToMs(f).value;
    assert Wait(cfg, StateAt(cfg, ticks, cams, j)) == Ok(w);
    var prev := if i == 0 then 0.0 else ticks[s.emitted[i - 1]].read.resumedAt;
    var now := ticks[j].read.now;
    assert now - prev > w;
    MulStrict(now - prev, w, f as real);
    if i > 0 {
      Paced(cfg, ticks, cams, f, i - 1);
      var before := ticks[s.emitted[i - 1]].read.now;
      assert before <= prev;
      MulMono(before, prev, f as real);
    }
  }

  /**
   * With the registry's own fps getter, a listed camera whose first pass has
   * a successful read more than one wait after time 0 sends that frame
   * first, encoded with the camera's params.
   */
  lemma IntendedSendsFirstFrame(cfg: Config, ticks: seq<Tick>, cams: seq<Camera>, f: int)
    requires IndexOf(cams, cfg.name).Some? && cfg.getter == FpsGetterName(cfg.edition)
    requires FpsOf(cfg.edition, cams, cfg.name) == Ok(f) && f > 0
    requires |ticks| > 0 && ticks[0].requests == [] && ticks[0].read.ok
    requires ticks[0].read.now > 1000.0 / f as real
    ensures var s := Generate(cfg, ticks, cams);
      && |s.chunks| > 0 && s.emitted[0] == 0
      && s.chunks[0] == Chunk(cfg.encode(ticks[0].read.frame, AsList(ParamsOf(cfg.edition, cams, cfg.name).value)))
  {
    var started := WithRunning(cams, cfg.name, true);
    var s := Generate(cfg, ticks, cams);
    assert s == Run(cfg, ticks, 0, 0.0, started);
    WithRunningEffect(cfg.edition, cams, cfg.name, true);
    var rd := ticks[0].read;
    var w := FpsToMs(f).value;
    assert Wait(cfg, started) == Ok(w);
    var c := Chunk(cfg.encode(rd.frame, AsList(ParamsOf(cfg.edition, cams, cfg.name).value)));
    assert OnePass(cfg, started, rd, 0.0) == Emit(c);
    assert ServeAll(started, ticks[0].requests) == started;
    var rest := Run(cfg, ticks, 1, rd.resumedAt, started);
    assert s == Stream([c] + rest.chunks, [0] + rest.emitted, rest.stop, rest.end, rest.cameras);
  }

  /** The backend loop as written: it calls `get_camrea_fps`, a name the backend registry does not define. */
  function AsWritten(name: string, encode: Encoder): Config
  {
    Config(Backend, GetCamreaFpsName, name, encode)
  }

  /**
   * So the backend stream of a listed camera never sends a frame: the first
   * pass that finds the camera running raises AttributeError on the
   * manager, before the read.
   */
  lemma AsWrittenBackendSendsNothing(name: string, encode: Encoder, ticks: seq<Tick>, cams: seq<Camera>)
    requires IndexOf(cams, name).Some?
    ensures var s := Generate(AsWritten(name, encode), ticks, cams);
      && s.chunks == []
      && s.stop == 0
      && (|ticks| > 0 && ticks[0].requests == [] ==> s.end == Raised(AttributeError("CameraManger", "get_camrea_fps")))
  {
    var cfg := AsWritten(name, encode);
    var s := Generate(cfg, ticks, cams);
    if 0 < s.stop {
      RunningBeforeStop(cfg, ticks, cams, 0);
      assert false;
    }
    if |ticks| > 0 && ticks[0].requests == [] {
      StopPass(cfg, ticks, cams);
      BeforeKnows(cfg, ticks, cams, 0);
      WithRunningEffect(cfg.edition, cams, name, true);
      assert s.cameras == WithRunning(cams, name, true);
    }
  }

  /**
   * The response body: the chunks, back to back, are a multipart body with
   * boundary `frame` whose parts are the images that were encoded.
   */
  lemma StreamBodyIsMultipart(cfg: Config, ticks: seq<Tick>, cams: seq<Camera>)
    requires IndexOf(cams, cfg.name).Some?
    requires |Generate(cfg, ticks, cams).chunks| > 0
    ensures var s := Generate(cfg, ticks, cams);
      Concat(s.chunks) == Delimited(Boundary, MimeParts(Payloads(s.chunks))) + Crlf
  {
    var s := Generate(cfg, ticks, cams);
    forall i | 0 <= i < |s.chunks| ensures Unframe(s.chunks[i]).Some? {
      SentChunk(cfg, ticks, cams, i);
      var j := s.emitted[i];
      var reg := StateAt(cfg, ticks, cams, j);
      UnframeChunk(cfg.encode(ticks[j].read.frame, AsList(ParamsOf(cfg.edition, reg, cfg.name).value)));
    }
    FramedConcat(s.chunks);
  }
}
