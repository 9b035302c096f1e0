/**
 * The camera registry (`CameraManger`): one `Camera` record per entry of the
 * device listing, looked up by name, with per-camera fps, JPEG quality and
 * running flag that the stream routes change in place.
 *
 * Both copies of the registry are covered; `Edition` selects the default
 * quality and what an unknown name does (the backend raises
 * `CameraNotFoundError`; the legacy lookup returns `None` and the accessor
 * then fails on attribute access).
 */
module CameraRegistry {
  import opened Common
  import opened DeviceListing
  import opened ListingProperties

  /**
   * `encoding_params`: the two-element list `[cv2.IMWRITE_JPEG_QUALITY, q]`
   * that OpenCV reads as a key and its value. The source only ever writes
   * index 1, so the list keeps its two elements.
   */
  datatype EncodingParams = EncodingParams(flag: int, quality: int)

  /** The list handed to `cv2.imencode`. */
  function AsList(p: EncodingParams): (l: seq<int>)
    ensures |l| == 2 && l[0] == p.flag && l[1] == p.quality
  {
    [p.flag, p.quality]
  }

  datatype Camera = Camera(name: string, path: string, fps: int, isRunning: bool, encodingParams: EncodingParams)

  /** The quality slot of a fresh camera: 90 in the backend, 50 in the legacy copy. */
  function DefaultQuality(edition: Edition): int
  {
    if edition == Backend then 90 else 50
  }

  const DefaultFps: int := 30

  /** `Camera(camera_name, camera_path)`, with the default `camera_fps = 30`. */
  function NewCamera(edition: Edition, name: string, path: string): (c: Camera)
    ensures c.name == name && c.path == path
    ensures c.fps == 30 && !c.isRunning
    ensures AsList(c.encodingParams) == [ImwriteJpegQuality, if edition == Backend then 90 else 50]
  {
    Camera(name, path, DefaultFps, false, EncodingParams(ImwriteJpegQuality, DefaultQuality(edition)))
  }

  function Names(cams: seq<Camera>): (ns: seq<string>)
    ensures |ns| == |cams| && forall i :: 0 <= i < |cams| ==> ns[i] == cams[i].name
  {
    seq(|cams|, i requires 0 <= i < |cams| => cams[i].name)
  }

  predicate NamesUnique(cams: seq<Camera>)
  {
    forall i, j :: 0 <= i < j < |cams| ==> cams[i].name != cams[j].name
  }

  /**
   * What every registry state satisfies: names are unique (they are the keys
   * of a dict) and every quality list starts with the quality flag.
   */
  predicate Registry(cams: seq<Camera>)
  {
    && NamesUnique(cams)
    && forall i :: 0 <= i < |cams| ==> cams[i].encodingParams.flag == ImwriteJpegQuality
  }

  // ---------------------------------------------------------------------------
  // Building the registry from the listing
  // ---------------------------------------------------------------------------

  /** `__create_cameras`: one camera per dict item, in the dict's order. */
  function CamerasOf(edition: Edition, entries: Dict): (cams: seq<Camera>)
    ensures |cams| == |entries|
    ensures forall i :: 0 <= i < |entries| ==> cams[i] == NewCamera(edition, entries[i].0, entries[i].1)
  {
    seq(|entries|, i requires 0 <= i < |entries| => NewCamera(edition, entries[i].0, entries[i].1))
  }

  /** The loop of `__create_cameras` that appends a camera per item. */
  method CreateCameras(edition: Edition, entries: Dict) returns (cams: seq<Camera>)
    ensures cams == CamerasOf(edition, entries)
  {
    cams := [];
    for i := 0 to |entries|
      invariant cams == CamerasOf(edition, entries[..i])
    {
      assert entries[..i + 1] == entries[..i] + [entries[i]];
      cams := cams + [NewCamera(edition, entries[i].0, entries[i].1)];
    }
    assert entries[..|entries|] == entries;
  }

  /** The cameras of a fresh registry are all available. */
  lemma {:induction false} FreshAllAvailable(cams: seq<Camera>)
    requires forall i :: 0 <= i < |cams| ==> !cams[i].isRunning
    ensures AvailableNames(cams) == Names(cams)
    decreases |cams|
  {
    if cams != [] {
      var init := cams[..|cams| - 1];
      FreshAllAvailable(init);
      assert Names(cams) == Names(init) + [cams[|cams| - 1].name];
    }
  }

  /**
   * From listing to registry: for the text the command prints for
   * well-formed devices, the manager holds one
   * camera per distinct name, each opening the first node of the last device
   * of that name, and all of them available.
   */
  lemma RegistryOfListing(edition: Edition, ds: seq<Device>)
    requires AllListed(ds) && AllPrintable(ds)
    ensures CameraNamesAndPaths(edition, Completed(RawListing(ds))).Ok?
    ensures Registry(CamerasOf(edition, CameraNamesAndPaths(edition, Completed(RawListing(ds))).value))
    ensures forall name :: (PathOf(edition, CamerasOf(edition, CameraNamesAndPaths(edition, Completed(RawListing(ds))).value), name)
      == (match LastPath(ds, name)
          case None => Err(Missing(edition, name, "path"))
          case Some(p) => Ok(p)))
    ensures AvailableNames(CamerasOf(edition, CameraNamesAndPaths(edition, Completed(RawListing(ds))).value))
      == Names(CamerasOf(edition, CameraNamesAndPaths(edition, Completed(RawListing(ds))).value))
  {
    RawListingParse(edition, ds);
    ListingLinesParse(ds);
    var d := CameraNamesAndPaths(edition, Completed(RawListing(ds))).value;
    var cams := CamerasOf(edition, d);
    CamerasOfRegistry(edition, d);
    forall name ensures PathOf(edition, cams, name)
      == (match LastPath(ds, name)
          case None => Err(Missing(edition, name, "path"))
          case Some(p) => Ok(p))
    {
      CamerasOfLookup(edition, d, name);
    }
    FreshAllAvailable(cams);
  }

  /** `CameraManger()`: list the devices, then build the registry; a listing error propagates. */
  method NewCameraManager(edition: Edition, out: CommandOutput) returns (r: Result<CameraManager>)
    ensures CameraNamesAndPaths(edition, out).Err? ==> r == Err(CameraNamesAndPaths(edition, out).error)
    ensures CameraNamesAndPaths(edition, out).Ok? ==>
      && r.Ok? && fresh(r.value) && r.value.edition == edition && r.value.Valid()
      && r.value.cameras == CamerasOf(edition, CameraNamesAndPaths(edition, out).value)
  {
    var entries := GetCameraNamesAndPaths(edition, out);
    if entries.Err? {
      return Err(entries.error);
    }
    NamesAndPathsKeysUnique(edition, out);
    var m := new CameraManager(edition, entries.value);
    return Ok(m);
  }

  // ---------------------------------------------------------------------------
  // Lookup
  // ---------------------------------------------------------------------------

  /** The position `__get_camera` stops at: the first camera of that name. */
  function IndexOf(cams: seq<Camera>, name: string): (r: Option<nat>)
    ensures r.Some? ==> r.value < |cams| && cams[r.value].name == name
    ensures r.Some? ==> forall j :: 0 <= j < r.value ==> cams[j].name != name
    ensures r.None? ==> forall j :: 0 <= j < |cams| ==> cams[j].name != name
  {
    if cams == [] then None
    else if cams[0].name == name then Some(0)
    else match IndexOf(cams[1..], name)
      case None => None
      case Some(i) => Some(i + 1)
  }

  /**
   * What a public operation raises for an unknown name: the backend re-raises
   * `CameraNotFoundError`; in the legacy copy `__get_camera` returns `None` and
   * the first attribute the operation touches on it fails.
   */
  function Missing(edition: Edition, name: string, attribute: string): Error
  {
    if edition == Backend then CameraNotFoundError(name) else AttributeError("NoneType", attribute)
  }

  /** `get_camera_fps` (backend) / `get_camrea_fps` (legacy). */
  function FpsOf(edition: Edition, cams: seq<Camera>, name: string): Result<int>
  {
    match IndexOf(cams, name)
    case None => Err(Missing(edition, name, "fps"))
    case Some(i) => Ok(cams[i].fps)
  }

  /** `get_camera_encoding_params`. */
  function ParamsOf(edition: Edition, cams: seq<Camera>, name: string): Result<EncodingParams>
  {
    match IndexOf(cams, name)
    case None => Err(Missing(edition, name, "encoding_params"))
    case Some(i) => Ok(cams[i].encodingParams)
  }

  /** `camera_is_running`. */
  function RunningOf(edition: Edition, cams: seq<Camera>, name: string): Result<bool>
  {
    match IndexOf(cams, name)
    case None => Err(Missing(edition, name, "is_running"))
    case Some(i) => Ok(cams[i].isRunning)
  }

  /** `start_video_capture`: the device path it opens. */
  function PathOf(edition: Edition, cams: seq<Camera>, name: string): Result<string>
  {
    match IndexOf(cams, name)
    case None => Err(Missing(edition, name, "path"))
    case Some(i) => Ok(cams[i].path)
  }

  /** The two spellings of the fps getter that the streaming loops call: `get_camera_fps` and `get_camrea_fps`. */
  datatype FpsGetter = GetCameraFpsName | GetCamreaFpsName

  function AttributeName(getter: FpsGetter): string
  {
    match getter
    case GetCameraFpsName => "get_camera_fps"
    case GetCamreaFpsName => "get_camrea_fps"
  }

  /** The spelling each copy of the registry defines. */
  function FpsGetterName(edition: Edition): FpsGetter
  {
    if edition == Backend then GetCameraFpsName else GetCamreaFpsName
  }

  /**
   * `camera_manager.<getter>(camera_name)`: Python resolves the method by
   * name, so the spelling the registry does not define raises
   * AttributeError on the manager object.
   */
  function FpsVia(edition: Edition, getter: FpsGetter, cams: seq<Camera>, name: string): Result<int>
  {
    if getter == FpsGetterName(edition) then FpsOf(edition, cams, name)
    else Err(AttributeError("CameraManger", AttributeName(getter)))
  }

  // ---------------------------------------------------------------------------
  // The in-place updates, as the new registry state
  // ---------------------------------------------------------------------------

  /** `camera.fps = fps` on the camera found; an unknown name raises before any change. */
  function WithFps(cams: seq<Camera>, name: string, fps: int): seq<Camera>
  {
    match IndexOf(cams, name)
    case None => cams
    case Some(i) => cams[i := cams[i].(fps := fps)]
  }

  /** `camera.encoding_params[1] = encoding_quality`. */
  function WithQuality(cams: seq<Camera>, name: string, quality: int): seq<Camera>
  {
    match IndexOf(cams, name)
    case None => cams
    case Some(i) => cams[i := cams[i].(encodingParams := cams[i].encodingParams.(quality := quality))]
  }

  /** `camera.is_running = running` (start sets true, end sets false). */
  function WithRunning(cams: seq<Camera>, name: string, running: bool): seq<Camera>
  {
    match IndexOf(cams, name)
    case None => cams
    case Some(i) => cams[i := cams[i].(isRunning := running)]
  }

  /** `get_available_cameras`: the names of the cameras not running, in registry order. */
  function AvailableNames(cams: seq<Camera>): seq<string>
    decreases |cams|
  {
    if cams == [] then []
    else
      var last := cams[|cams| - 1];
      AvailableNames(cams[..|cams| - 1]) + (if !last.isRunning then [last.name] else [])
  }

  // ---------------------------------------------------------------------------
  // The registry calls other routes make while a stream runs
  // ---------------------------------------------------------------------------

  /**
   * A state-changing call on the registry: the fps and quality routes, the
   * start of another stream and the end route. A call naming an unknown
   * camera raises and changes nothing.
   */
  datatype Request =
    | SetFps(fpsCamera: string, fps: int)
    | SetQuality(qualityCamera: string, quality: int)
    | StartCapture(startCamera: string)
    | EndCapture(endCamera: string)

  function Serve(cams: seq<Camera>, req: Request): seq<Camera>
  {
    match req
    case SetFps(n, f) => WithFps(cams, n, f)
    case SetQuality(n, q) => WithQuality(cams, n, q)
    case StartCapture(n) => WithRunning(cams, n, true)
    case EndCapture(n) => WithRunning(cams, n, false)
  }

  function ServeAll(cams: seq<Camera>, reqs: seq<Request>): seq<Camera>
    decreases |reqs|
  {
    if reqs == [] then cams else ServeAll(Serve(cams, reqs[0]), reqs[1..])
  }

  // ---------------------------------------------------------------------------
  // The manager object
  // ---------------------------------------------------------------------------

  class CameraManager {
    const edition: Edition
    var cameras: seq<Camera>

    ghost predicate Valid()
      reads this
    {
      Registry(cameras)
    }

    /** `CameraManger()` given the dict the listing parser returned. */
    constructor (edition: Edition, entries: Dict)
      requires KeysUnique(entries)
      ensures this.edition == edition && cameras == CamerasOf(edition, entries)
      ensures Valid()
    {
      this.edition := edition;
      var cams := CreateCameras(edition, entries);
      cameras := cams;
      new;
      CamerasOfRegistry(edition, entries);
    }

    /** `__get_camera`: the loop over `self.cameras` that stops at the first name match. */
    method GetCamera(name: string) returns (r: Option<nat>)
      ensures r == IndexOf(cameras, name)
    {
      var i := 0;
      while i < |cameras|
        invariant i <= |cameras|
        invariant forall j :: 0 <= j < i ==> cameras[j].name != name
      {
        if cameras[i].name == name {
          return Some(i);
        }
        i := i + 1;
      }
      return None;
    }

    /** `get_camera_fps` (backend) / `get_camrea_fps` (legacy). */
    method GetCameraFps(name: string) returns (r: Result<int>)
      ensures r == FpsOf(edition, cameras, name)
    {
      var i := GetCamera(name);
      if i.None? {
        return Err(Missing(edition, name, "fps"));
      }
      return Ok(cameras[i.value].fps);
    }

    /** A call `camera_manager.<getter>(camera_name)` for the fps. */
    method CallFpsGetter(getter: FpsGetter, name: string) returns (r: Result<int>)
      ensures r == FpsVia(edition, getter, cameras, name)
    {
      if getter != FpsGetterName(edition) {
        return Err(AttributeError("CameraManger", AttributeName(getter)));
      }
      r := GetCameraFps(name);
    }

    method SetCameraFps(name: string, fps: int) returns (r: Result<()>)
      modifies this
      requires Valid()
      ensures Valid()
      ensures r == Found(edition, old(cameras), name, "fps")
      ensures cameras == WithFps(old(cameras), name, fps)
    {
      var i := GetCamera(name);
      if i.None? {
        return Err(Missing(edition, name, "fps"));
      }
      cameras := cameras[i.value := cameras[i.value].(fps := fps)];
      WithFpsEffect(edition, old(cameras), name, fps);
      return Ok(());
    }

    method GetCameraEncodingParams(name: string) returns (r: Result<EncodingParams>)
      ensures r == ParamsOf(edition, cameras, name)
    {
      var i := GetCamera(name);
      if i.None? {
        return Err(Missing(edition, name, "encoding_params"));
      }
      return Ok(cameras[i.value].encodingParams);
    }

    method SetCameraEncodingParams(name: string, quality: int) returns (r: Result<()>)
      modifies this
      requires Valid()
      ensures Valid()
      ensures r == Found(edition, old(cameras), name, "encoding_params")
      ensures cameras == WithQuality(old(cameras), name, quality)
    {
      var i := GetCamera(name);
      if i.None? {
        return Err(Missing(edition, name, "encoding_params"));
      }
      var c := cameras[i.value];
      cameras := cameras[i.value := c.(encodingParams := c.encodingParams.(quality := quality))];
      WithQualityEffect(edition, old(cameras), name, quality);
      return Ok(());
    }

    method CameraIsRunning(name: string) returns (r: Result<bool>)
      ensures r == RunningOf(edition, cameras, name)
    {
      var i := GetCamera(name);
      if i.None? {
        return Err(Missing(edition, name, "is_running"));
      }
      return Ok(cameras[i.value].isRunning);
    }

    /**
     * `start_video_capture`: the path the capture is opened on; the camera is
     * marked running whether or not it already was.
     */
    method StartVideoCapture(name: string) returns (r: Result<string>)
      modifies this
      requires Valid()
      ensures Valid()
      ensures r == PathOf(edition, old(cameras), name)
      ensures cameras == WithRunning(old(cameras), name, true)
    {
      var i := GetCamera(name);
      if i.None? {
        return Err(Missing(edition, name, "path"));
      }
      var path := cameras[i.value].path;
      cameras := cameras[i.value := cameras[i.value].(isRunning := true)];
      WithRunningEffect(edition, old(cameras), name, true);
      return Ok(path);
    }

    method EndVideoCapture(name: string) returns (r: Result<()>)
      modifies this
      requires Valid()
      ensures Valid()
      ensures r == Found(edition, old(cameras), name, "is_running")
      ensures cameras == WithRunning(old(cameras), name, false)
    {
      var i := GetCamera(name);
      if i.None? {
        return Err(Missing(edition, name, "is_running"));
      }
      cameras := cameras[i.value := cameras[i.value].(isRunning := false)];
      WithRunningEffect(edition, old(cameras), name, false);
      return Ok(());
    }

    /** `get_available_cameras`: the loop appending each non-running camera's name. */
    method GetAvailableCameras() returns (names: seq<string>)
      ensures names == AvailableNames(cameras)
    {
      names := [];
      for i := 0 to |cameras|
        invariant names == AvailableNames(cameras[..i])
      {
        assert cameras[..i + 1][..i] == cameras[..i];
        if cameras[i].isRunning == false {
          names := names + [cameras[i].name];
        }
      }
      assert cameras[..|cameras|] == cameras;
    }

    /** A call another route makes; what it returns to that route is dropped. */
    method ServeRequest(req: Request)
      modifies this
      requires Valid()
      ensures Valid()
      ensures cameras == Serve(old(cameras), req)
    {
      match req {
        case SetFps(n, f) =>
          var _ := SetCameraFps(n, f);
        case SetQuality(n, q) =>
          var _ := SetCameraEncodingParams(n, q);
        case StartCapture(n) =>
          var _ := StartVideoCapture(n);
        case EndCapture(n) =>
          var _ := EndVideoCapture(n);
      }
    }
  }

  /** A state-changing call either finds the camera or raises. */
  function Found(edition: Edition, cams: seq<Camera>, name: string, attribute: string): Result<()>
  {
    if IndexOf(cams, name).Some? then Ok(()) else Err(Missing(edition, name, attribute))
  }

  // ---------------------------------------------------------------------------
  // What the operations promise
  // ---------------------------------------------------------------------------

  /** The registry holds one fresh camera per listing entry, named by the entry's key, in order. */
  lemma CamerasOfRegistry(edition: Edition, entries: Dict)
    requires KeysUnique(entries)
    ensures Names(CamerasOf(edition, entries)) == Keys(entries)
    ensures Registry(CamerasOf(edition, entries))
  {
    var cams := CamerasOf(edition, entries);
    assert forall i :: 0 <= i < |cams| ==> cams[i].name == entries[i].0;
  }

  /** Looking a camera up by name finds the path the listing gave that name. */
  lemma CamerasOfLookup(edition: Edition, entries: Dict, name: string)
    ensures PathOf(edition, CamerasOf(edition, entries), name)
      == match Get(entries, name)
         case None => Err(Missing(edition, name, "path"))
         case Some(p) => Ok(p)
  {
    var cams := CamerasOf(edition, entries);
    assert forall i :: 0 <= i < |cams| ==> cams[i].name == entries[i].0;
    match IndexOf(cams, name)
    case None =>
    case Some(i) =>
      assert Find(entries, name) == Some(i);
  }

  /** Lookup depends on the names alone. */
  lemma IndexOfSameNames(a: seq<Camera>, b: seq<Camera>, m: string)
    requires Names(a) == Names(b)
    ensures IndexOf(a, m) == IndexOf(b, m)
  {
    assert forall i :: 0 <= i < |a| ==> a[i].name == Names(a)[i] == b[i].name;
  }

  /**
   * `set_camera_fps` stores the fps exactly as given (no range check) on the
   * named camera; every other camera, and every other field, is unchanged.
   */
  lemma WithFpsEffect(edition: Edition, cams: seq<Camera>, name: string, fps: int)
    ensures Names(WithFps(cams, name, fps)) == Names(cams)
    ensures Registry(cams) ==> Registry(WithFps(cams, name, fps))
    ensures forall m :: (FpsOf(edition, WithFps(cams, name, fps), m)
      == if m == name && IndexOf(cams, name).Some? then Ok(fps) else FpsOf(edition, cams, m))
    ensures forall m :: ParamsOf(edition, WithFps(cams, name, fps), m) == ParamsOf(edition, cams, m)
    ensures forall m :: RunningOf(edition, WithFps(cams, name, fps), m) == RunningOf(edition, cams, m)
    ensures forall m :: PathOf(edition, WithFps(cams, name, fps), m) == PathOf(edition, cams, m)
  {
    var after := WithFps(cams, name, fps);
    assert Names(after) == Names(cams);
    forall m ensures IndexOf(after, m) == IndexOf(cams, m) {
      IndexOfSameNames(after, cams, m);
    }
  }

  /**
   * `set_camera_encoding_params` overwrites the quality slot of the named
   * camera and keeps the flag in slot 0; nothing else changes.
   */
  lemma WithQualityEffect(edition: Edition, cams: seq<Camera>, name: string, quality: int)
    ensures Names(WithQuality(cams, name, quality)) == Names(cams)
    ensures Registry(cams) ==> Registry(WithQuality(cams, name, quality))
    ensures forall m :: (ParamsOf(edition, WithQuality(cams, name, quality), m)
      == if m == name && IndexOf(cams, name).Some?
         then Ok(EncodingParams(ParamsOf(edition, cams, name).value.flag, quality))
         else ParamsOf(edition, cams, m))
    ensures forall m :: FpsOf(edition, WithQuality(cams, name, quality), m) == FpsOf(edition, cams, m)
    ensures forall m :: RunningOf(edition, WithQuality(cams, name, quality), m) == RunningOf(edition, cams, m)
    ensures forall m :: PathOf(edition, WithQuality(cams, name, quality), m) == PathOf(edition, cams, m)
  {
    var after := WithQuality(cams, name, quality);
    assert Names(after) == Names(cams);
    forall m ensures IndexOf(after, m) == IndexOf(cams, m) {
      IndexOfSameNames(after, cams, m);
    }
  }

  /** Start and end set the named camera's flag and nothing else. */
  lemma WithRunningEffect(edition: Edition, cams: seq<Camera>, name: string, running: bool)
    ensures Names(WithRunning(cams, name, running)) == Names(cams)
    ensures Registry(cams) ==> Registry(WithRunning(cams, name, running))
    ensures forall m :: (RunningOf(edition, WithRunning(cams, name, running), m)
      == if m == name && IndexOf(cams, name).Some? then Ok(running) else RunningOf(edition, cams, m))
    ensures forall m :: FpsOf(edition, WithRunning(cams, name, running), m) == FpsOf(edition, cams, m)
    ensures forall m :: ParamsOf(edition, WithRunning(cams, name, running), m) == ParamsOf(edition, cams, m)
    ensures forall m :: PathOf(edition, WithRunning(cams, name, running), m) == PathOf(edition, cams, m)
  {
    var after := WithRunning(cams, name, running);
    assert Names(after) == Names(cams);
    forall m ensures IndexOf(after, m) == IndexOf(cams, m) {
      IndexOfSameNames(after, cams, m);
    }
  }

  /** `end_video_capture` on a known camera leaves it not running. */
  lemma EndCaptureClears(edition: Edition, cams: seq<Camera>, name: string)
    requires IndexOf(cams, name).Some?
    ensures RunningOf(edition, Serve(cams, EndCapture(name)), name) == Ok(false)
  {
    WithRunningEffect(edition, cams, name, false);
  }

  /** An unknown name: every accessor raises the edition's error and no request changes anything. */
  lemma UnknownName(edition: Edition, cams: seq<Camera>, name: string)
    requires forall i :: 0 <= i < |cams| ==> cams[i].name != name
    ensures edition == Backend ==> FpsOf(edition, cams, name) == Err(CameraNotFoundError(name))
    ensures edition == Legacy ==> FpsOf(edition, cams, name) == Err(AttributeError("NoneType", "fps"))
    ensures ParamsOf(edition, cams, name) == Err(Missing(edition, name, "encoding_params"))
    ensures RunningOf(edition, cams, name) == Err(Missing(edition, name, "is_running"))
    ensures PathOf(edition, cams, name) == Err(Missing(edition, name, "path"))
    ensures forall f :: Serve(cams, SetFps(name, f)) == cams
    ensures forall q :: Serve(cams, SetQuality(name, q)) == cams
    ensures Serve(cams, StartCapture(name)) == cams && Serve(cams, EndCapture(name)) == cams
  {
    assert IndexOf(cams, name).None?;
  }

  /** Every request keeps the names, and so the registry invariant. */
  lemma ServeKeeps(cams: seq<Camera>, req: Request)
    ensures Names(Serve(cams, req)) == Names(cams)
    ensures Registry(cams) ==> Registry(Serve(cams, req))
  {
    match req
    case SetFps(n, f) => WithFpsEffect(Backend, cams, n, f);
    case SetQuality(n, q) => WithQualityEffect(Backend, cams, n, q);
    case StartCapture(n) => WithRunningEffect(Backend, cams, n, true);
    case EndCapture(n) => WithRunningEffect(Backend, cams, n, false);
  }

  lemma {:induction false} ServeAllKeeps(cams: seq<Camera>, reqs: seq<Request>)
    ensures Names(ServeAll(cams, reqs)) == Names(cams)
    ensures Registry(cams) ==> Registry(ServeAll(cams, reqs))
    decreases |reqs|
  {
    if reqs != [] {
      ServeKeeps(cams, reqs[0]);
      ServeAllKeeps(Serve(cams, reqs[0]), reqs[1..]);
    }
  }

  /** The camera a request names. */
  function Target(req: Request): string
  {
    match req
    case SetFps(n, _) => n
    case SetQuality(n, _) => n
    case StartCapture(n) => n
    case EndCapture(n) => n
  }

  lemma {:induction false} ServeAllConcat(cams: seq<Camera>, a: seq<Request>, b: seq<Request>)
    ensures ServeAll(cams, a + b) == ServeAll(ServeAll(cams, a), b)
    decreases |a|
  {
    if a == [] {
      assert a + b == b;
    } else {
      assert (a + b)[0] == a[0] && (a + b)[1..] == a[1..] + b;
      ServeAllConcat(Serve(cams, a[0]), a[1..], b);
    }
  }

  /** A call naming another camera leaves a camera's fps, params and running flag as they were. */
  lemma ServeOther(edition: Edition, cams: seq<Camera>, name: string, req: Request)
    requires Target(req) != name
    ensures FpsOf(edition, Serve(cams, req), name) == FpsOf(edition, cams, name)
    ensures ParamsOf(edition, Serve(cams, req), name) == ParamsOf(edition, cams, name)
    ensures RunningOf(edition, Serve(cams, req), name) == RunningOf(edition, cams, name)
  {
    match req {
      case SetFps(n, f) => WithFpsEffect(edition, cams, n, f);
      case SetQuality(n, q) => WithQualityEffect(edition, cams, n, q);
      case StartCapture(n) => WithRunningEffect(edition, cams, n, true);
      case EndCapture(n) => WithRunningEffect(edition, cams, n, false);
    }
  }

  /** The same for any sequence of calls none of which names the camera. */
  lemma {:induction false} ServeOthers(edition: Edition, cams: seq<Camera>, name: string, reqs: seq<Request>)
    requires forall i :: 0 <= i < |reqs| ==> Target(reqs[i]) != name
    ensures FpsOf(edition, ServeAll(cams, reqs), name) == FpsOf(edition, cams, name)
    ensures ParamsOf(edition, ServeAll(cams, reqs), name) == ParamsOf(edition, cams, name)
    ensures RunningOf(edition, ServeAll(cams, reqs), name) == RunningOf(edition, cams, name)
    decreases |reqs|
  {
    if reqs != [] {
      ServeOther(edition, cams, name, reqs[0]);
      assert forall i :: 0 <= i < |reqs[1..]| ==> reqs[1..][i] == reqs[i + 1];
      ServeOthers(edition, Serve(cams, reqs[0]), name, reqs[1..]);
    }
  }

  /** Setting the flag twice is setting it once: the last write wins, and nothing counts the streams. */
  lemma RunningLastWriteWins(cams: seq<Camera>, name: string, first: bool, second: bool)
    ensures WithRunning(WithRunning(cams, name, first), name, second) == WithRunning(cams, name, second)
  {
    var mid := WithRunning(cams, name, first);
    WithRunningEffect(Backend, cams, name, first);
    IndexOfSameNames(mid, cams, name);
  }

  /** The available names are exactly the names of the cameras not running. */
  lemma {:induction false} AvailableIff(cams: seq<Camera>, n: string)
    ensures n in AvailableNames(cams) <==> exists i :: 0 <= i < |cams| && cams[i].name == n && !cams[i].isRunning
    decreases |cams|
  {
    if cams != [] {
      AvailableIff(cams[..|cams| - 1], n);
      FreeSnoc(cams, cams[..|cams| - 1], n);
    }
  }

  /** A camera named `n` that is not running is the last one or one before it. */
  lemma FreeSnoc(cams: seq<Camera>, init: seq<Camera>, n: string)
    requires cams != [] && init == cams[..|cams| - 1]
    ensures (exists i :: 0 <= i < |cams| && cams[i].name == n && !cams[i].isRunning) <==>
      (exists i :: 0 <= i < |init| && init[i].name == n && !init[i].isRunning)
      || (cams[|cams| - 1].name == n && !cams[|cams| - 1].isRunning)
  {
    if exists i :: 0 <= i < |init| && init[i].name == n && !init[i].isRunning {
      var i :| 0 <= i < |init| && init[i].name == n && !init[i].isRunning;
      assert cams[i] == init[i];
    }
    if exists i :: 0 <= i < |cams| && cams[i].name == n && !cams[i].isRunning {
      var i :| 0 <= i < |cams| && cams[i].name == n && !cams[i].isRunning;
      if i < |init| {
        assert init[i] == cams[i];
      }
    }
  }

  /** Registry order is kept: the available names of a concatenation are concatenated. */
  lemma {:induction false} AvailableConcat(a: seq<Camera>, b: seq<Camera>)
    ensures AvailableNames(a + b) == AvailableNames(a) + AvailableNames(b)
    decreases |b|
  {
    if b == [] {
      assert a + b == a;
    } else {
      var b' := b[..|b| - 1];
      assert (a + b)[..|a + b| - 1] == a + b';
      assert (a + b)[|a + b| - 1] == b[|b| - 1];
      AvailableConcat(a, b');
    }
  }

  /** After a stream starts on a camera it is no longer offered; the other names are unaffected. */
  lemma StartHides(cams: seq<Camera>, name: string)
    requires NamesUnique(cams)
    ensures name !in AvailableNames(WithRunning(cams, name, true))
    ensures forall m :: m != name ==> (m in AvailableNames(WithRunning(cams, name, true)) <==> m in AvailableNames(cams))
  {
    var after := WithRunning(cams, name, true);
    AvailableIff(after, name);
    forall m | m != name
      ensures m in AvailableNames(after) <==> m in AvailableNames(cams)
    {
      AvailableIff(after, m);
      AvailableIff(cams, m);
      if IndexOf(cams, name).Some? {
        var i := IndexOf(cams, name).value;
        assert forall j :: 0 <= j < |cams| && j != i ==> after[j] == cams[j];
        assert after[i].name == name && cams[i].name == name;
      }
    }
  }

  /** After the end route a listed camera is offered again, however many streams started it. */
  lemma EndShows(cams: seq<Camera>, name: string)
    requires IndexOf(cams, name).Some?
    ensures name in AvailableNames(WithRunning(cams, name, false))
    ensures forall m :: m != name ==> (m in AvailableNames(WithRunning(cams, name, false)) <==> m in AvailableNames(cams))
  {
    var after := WithRunning(cams, name, false);
    var i := IndexOf(cams, name).value;
    AvailableIff(after, name);
    assert after[i].name == name && !after[i].isRunning;
    forall m | m != name
      ensures m in AvailableNames(after) <==> m in AvailableNames(cams)
    {
      AvailableIff(after, m);
      AvailableIff(cams, m);
      if IndexOf(cams, name).Some? {
        var i := IndexOf(cams, name).value;
        assert forall j :: 0 <= j < |cams| && j != i ==> after[j] == cams[j];
        assert after[i].name == name && cams[i].name == name;
      }
    }
  }
}
