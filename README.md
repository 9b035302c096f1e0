# RoverGUI camera registry and MJPEG streamers, in Dafny

This project models the Python core of the RoverGUI rover interface:

- the camera registry (`CameraManger`), in its current copy
  (`backend/src/backend/managers/camera_manager.py`) and in the older copy at
  the repository root (`camera_manager.py`);
- the `v4l2-ctl --list-devices` text parser. Each copy has its own, and the
  two are line for line the same, except that the root copy also prints each
  entry inside its loop;
- the paced MJPEG generator `generate_frames` and its helper `fps_to_ms`, in
  both API copies (`backend/src/backend/api.py`, `api.py`);
- the unpaced prototype generator `generate()` of `react-server/index.py`.

The two registry copies are one model with an `Edition` parameter:
`Backend` for the current copy and `Legacy` for the root copy. They differ in
four ways:

- the default quality is 90 in `Backend` and 50 in `Legacy`;
- an unknown name raises `CameraNotFoundError` in `Backend`, while in `Legacy`
  the lookup returns `None` and the first attribute access on it raises
  `AttributeError`;
- a failing listing command gives an empty listing in `Backend` and
  propagates in `Legacy`;
- the fps getter is spelled `get_camera_fps` in `Backend`
  (backend/src/backend/managers/camera_manager.py:108) and `get_camrea_fps` in
  `Legacy` (camera_manager.py:86). `FpsGetterName` picks the spelling by
  edition, and each API copy must call its own registry's spelling.

Files:

- `common.dfy`: bytes, `Option`/`Result`, the Python exceptions that can escape,
  `Edition`.
- `listing.dfy`: the string operations the parser uses (`strip`, `split`,
  tab removal, dropping empty lines, `split(":")[0]`). Also the
  insertion-ordered dictionary, the cursor loop as a method with nested
  `while` loops, proved against a recursive specification, and the listing
  command's failure path.
- `listing_props.dfy`: the parser against an independent picture of the
  listing, a sequence of devices each with a header line and its nodes,
  and the text the command prints for it: each node on a tab-indented line,
  an empty line after each device.
- `registry.dfy`: `Camera`, the `CameraManager` class over a `seq<Camera>`
  field with one method per registry operation, the specification functions
  those methods are proved against, and the lemmas about them.
- `multipart.dfy`: the chunk each generator yields and the multipart body
  syntax of section 5.1.1 of RFC 2046 with boundary `frame`.
- `streaming.dfy`: `fps_to_ms`, and `generate_frames` over a trace of passes.
  Each pass holds the registry calls other routes made while the generator
  was suspended and what `cap.read()` and the two `time.time()` calls
  returned. It has the recursive specification `Generate`, the method
  `GenerateFrames` driving a `CameraManager`, and the per-pass facts of the
  stream.
- `stream_props.dfy`: the stream's properties across passes: start, stop,
  mid-stream setter calls, pacing, multipart body, and the getter-name finding.
- `react_stream.dfy`: `generate()` of the react server, as a method with
  `continue`s and as a specification function, the latter proved equal to a
  filter-and-encode of the reads.

## Model

| member | source | states |
|---|---|---|
| DeviceListing.Strip | backend/src/backend/managers/camera_manager.py:26 | `strip()`: the result neither starts nor ends with whitespace |
| DeviceListing.Split | backend/src/backend/managers/camera_manager.py:26 | `str.split` with one separator: the pieces contain no separator and joined with it give back the input |
| DeviceListing.SplitJoin | backend/src/backend/managers/camera_manager.py:26 | splitting the separator-join of separator-free pieces gives the pieces back |
| DeviceListing.JoinConcat | backend/src/backend/managers/camera_manager.py:26 | joining two runs of pieces is joining each with a separator between |
| DeviceListing.StripTrailingSpace | backend/src/backend/managers/camera_manager.py:26 | `strip()` removes exactly the whitespace after the last visible character |
| DeviceListing.RemoveTabs | backend/src/backend/managers/camera_manager.py:27 | `replace('\t', '')` leaves no tab, never lengthens a line, and keeps a tab-free line as it is (its full meaning is `RemoveTabsConcat` with `RemoveTabsChar`) |
| DeviceListing.RemoveTabsConcat | backend/src/backend/managers/camera_manager.py:27 | tab removal commutes with concatenation, so it works character by character |
| DeviceListing.RemoveTabsChar | backend/src/backend/managers/camera_manager.py:27 | a tab is removed and any other character kept |
| DeviceListing.RemoveTabsAllConcat | backend/src/backend/managers/camera_manager.py:27 | the per-line removal of a concatenation of line lists is the concatenation |
| DeviceListing.DropEmpty | backend/src/backend/managers/camera_manager.py:28 | no kept line is empty, every non-empty input line is kept, and a list without empty lines is kept whole (its full meaning is `DropEmptyConcat` with `DropEmptyLine`) |
| DeviceListing.DropEmptyConcat | backend/src/backend/managers/camera_manager.py:28 | the filter commutes with concatenation, so it keeps the non-empty lines in order and with their repetitions |
| DeviceListing.DropEmptyLine | backend/src/backend/managers/camera_manager.py:28 | an empty line is dropped and any other line kept |
| DeviceListing.CleanLines | backend/src/backend/managers/camera_manager.py:26-28 | the lines the loop reads are never empty and hold no tab (what they are for the command's real output is `ListingProperties.RawListingClean`) |
| DeviceListing.HeaderName | backend/src/backend/managers/camera_manager.py:33 | the camera name is the prefix of the header line before its first colon, or the whole line if it has none |
| DeviceListing.HeaderNameOfColonLine | backend/src/backend/managers/camera_manager.py:33 | for a header `name:rest` with a colon-free `name`, the camera name is `name` |
| DeviceListing.Put | backend/src/backend/managers/camera_manager.py:41 | `cameras[name] = path` on an insertion-ordered dictionary: the size grows by one exactly for a new key |
| DeviceListing.Find | backend/src/backend/managers/camera_manager.py:41 | the position of a key in the dictionary, the first if several, or none when no item has it |
| DeviceListing.PutLookup | backend/src/backend/managers/camera_manager.py:41 | after the assignment the name maps to the new path, every other name is unchanged, an existing key keeps its position, a new key is appended, and keys stay unique |
| DeviceListing.SkipsDevicePaths | backend/src/backend/managers/camera_manager.py:44-45 | the inner loop passes exactly the run of lines starting with `/dev/` and stops at the first other line or at the end |
| DeviceListing.ParseLines | backend/src/backend/managers/camera_manager.py:29-46 | the nested cursor loops compute the recursive specification `ParseFrom`, including the IndexError of a header on the last line |
| DeviceListing.ParseKeysUnique | backend/src/backend/managers/camera_manager.py:30-46 | the dictionary the loop returns never holds a name twice |
| DeviceListing.GetCameraNamesAndPaths | backend/src/backend/managers/camera_manager.py:5-46 | `get_camera_name_and_paths` over a given command result computes `CameraNamesAndPaths`: the parse of the cleaned listing, or the legacy copy's command error |
| DeviceListing.CleanEmpty | backend/src/backend/managers/camera_manager.py:26-28 | the empty output cleans to no line at all |
| DeviceListing.CommandFailure | backend/src/backend/managers/camera_manager.py:17-28 | when the command fails the backend returns an empty dictionary and the legacy copy raises |
| DeviceListing.StripAllSpace | backend/src/backend/managers/camera_manager.py:26 | `strip()` of whitespace-only text is empty |
| DeviceListing.BlankListing | backend/src/backend/managers/camera_manager.py:26-28 | output made only of whitespace yields no entry, in both copies |
| DeviceListing.NamesAndPathsKeysUnique | backend/src/backend/managers/camera_manager.py:25-46 | whatever dictionary the parser returns has each name once |
| DeviceListing.SameParserBothEditions | camera_manager.py:10-34 | on the same output the root copy's parser builds the same dictionary as the backend's. It holds by construction, because the model shares one parser; it records that the two copies agree |
| ListingProperties.LastPath | backend/src/backend/managers/camera_manager.py:41 | reference meaning of overwriting: a name has no path if and only if no device carries it |
| ListingProperties.SkipRun | backend/src/backend/managers/camera_manager.py:44-45 | a run of `/dev/` lines ended by another line or the end is skipped as a whole |
| ListingProperties.SkipShift | backend/src/backend/managers/camera_manager.py:44-45 | skipping is unaffected by lines before the cursor |
| ListingProperties.ParseAt | backend/src/backend/managers/camera_manager.py:30-45 | one outer pass: the header and the next line make an entry, then the further `/dev/` lines are skipped |
| ListingProperties.ParseShift | backend/src/backend/managers/camera_manager.py:30-45 | parsing from a cursor is unaffected by lines before it |
| ListingProperties.ParseRendered | backend/src/backend/managers/camera_manager.py:30-45 | a listing of well-formed devices never fails and performs exactly one assignment per device, its name to its first node |
| ListingProperties.PutAllLookup | backend/src/backend/managers/camera_manager.py:41 | after the assignments, each name maps to the first node of the last device carrying it |
| ListingProperties.PutAllKeysUnique | backend/src/backend/managers/camera_manager.py:41 | the assignments keep keys unique |
| ListingProperties.GetSomeIffKey | backend/src/backend/managers/camera_manager.py:41 | a name has a value if and only if it is a key |
| ListingProperties.ListingLinesParse | backend/src/backend/managers/camera_manager.py:30-46 | a listing of well-formed devices parses, with one key per distinct name, each mapped to the first node of the last device of that name, and no other key |
| ListingProperties.SameNameBeforeColonCollide | backend/src/backend/managers/camera_manager.py:33-41 | two devices whose headers agree before the first colon give one entry holding the later device's node |
| ListingProperties.TrailingHeaderRaises | backend/src/backend/managers/camera_manager.py:37 | a header on the last line raises IndexError |
| ListingProperties.TrailingHeaderFrom | backend/src/backend/managers/camera_manager.py:37 | the IndexError holds whatever the dictionary built so far |
| ListingProperties.RawLinesShape | backend/src/backend/managers/camera_manager.py:16-26 | the lines the command prints start with the first header, end in a visible character and hold no newline |
| ListingProperties.IndentedClean | backend/src/backend/managers/camera_manager.py:27 | removing tabs from the tab-indented node lines gives the nodes |
| ListingProperties.CleanBlock | backend/src/backend/managers/camera_manager.py:27-28 | one device's printed lines clean to its header and its nodes |
| ListingProperties.CleanSeparated | backend/src/backend/managers/camera_manager.py:27-28 | the empty line between two devices leaves nothing behind |
| ListingProperties.CleanRawLines | backend/src/backend/managers/camera_manager.py:27-28 | tab removal and the empty-line filter turn the printed lines of every device into its header and node lines, in order |
| ListingProperties.RawListingClean | backend/src/backend/managers/camera_manager.py:26-28 | the cleaned lines of the text the command prints are exactly the devices' header and node lines: trailing newlines stripped, indenting tabs removed, separating empty lines dropped |
| ListingProperties.RawListingParse | backend/src/backend/managers/camera_manager.py:5-46 | `get_camera_name_and_paths` on the command's output for well-formed devices returns, in either copy, a dictionary with unique keys mapping each name to the first node of the last device of that name |
| CameraRegistry.NewCamera | backend/src/backend/managers/camera_manager.py:54-66 | a new camera has the given name and path, fps 30, is not running, and params `[IMWRITE_JPEG_QUALITY, 90]` (50 in the root copy, camera_manager.py:42-53) |
| CameraRegistry.CreateCameras | backend/src/backend/managers/camera_manager.py:86-95 | the append loop of `__create_cameras` builds `CamerasOf` |
| CameraRegistry.FreshAllAvailable | backend/src/backend/managers/camera_manager.py:184-192 | with no camera running, every camera is available, in order |
| CameraRegistry.RegistryOfListing | backend/src/backend/managers/camera_manager.py:5-95 | from the text the command prints for well-formed devices: the registry has unique names and flags, each listed name opens the first node of its last device, an unlisted one raises, and all are available |
| CameraRegistry.NewCameraManager | backend/src/backend/managers/camera_manager.py:82-84 | `CameraManger()` lists the devices and builds a valid registry of `CamerasOf` the dictionary; the root copy's command failure propagates |
| CameraRegistry.IndexOf | backend/src/backend/managers/camera_manager.py:97-106 | the lookup finds the first camera of that name, or reports that none has it |
| CameraRegistry.CameraManager.constructor | backend/src/backend/managers/camera_manager.py:82-84 | the manager holds `CamerasOf` the dictionary and is valid |
| CameraRegistry.CameraManager.GetCamera | backend/src/backend/managers/camera_manager.py:97-106 | the search loop returns the position of the first match, or none |
| CameraRegistry.CameraManager.GetCameraFps | backend/src/backend/managers/camera_manager.py:108-116 | the fps of the named camera, or the edition's not-found error (camera_manager.py:86-92) |
| CameraRegistry.CameraManager.CallFpsGetter | backend/src/backend/api.py:37 | of the two getter spellings the api copies call, `get_camera_fps` and `get_camrea_fps`, the one the registry copy defines gives the fps and the other raises AttributeError on the manager |
| CameraRegistry.CameraManager.SetCameraFps | backend/src/backend/managers/camera_manager.py:118-126 | the fps is stored as given on the named camera only; an unknown name raises and changes nothing; the registry stays valid |
| CameraRegistry.CameraManager.GetCameraEncodingParams | backend/src/backend/managers/camera_manager.py:128-136 | the params of the named camera, or the not-found error |
| CameraRegistry.CameraManager.SetCameraEncodingParams | backend/src/backend/managers/camera_manager.py:138-148 | slot 1 of the named camera's params is overwritten; an unknown name raises and changes nothing |
| CameraRegistry.CameraManager.CameraIsRunning | backend/src/backend/managers/camera_manager.py:150-158 | the running flag of the named camera, or the not-found error |
| CameraRegistry.CameraManager.StartVideoCapture | backend/src/backend/managers/camera_manager.py:160-172 | returns the path the capture opens and marks the camera running, with no check that it already was; an unknown name raises and changes nothing |
| CameraRegistry.CameraManager.EndVideoCapture | backend/src/backend/managers/camera_manager.py:174-182 | marks the named camera not running; an unknown name raises and changes nothing |
| CameraRegistry.CameraManager.GetAvailableCameras | backend/src/backend/managers/camera_manager.py:184-192 | the append loop returns `AvailableNames` of the registry |
| CameraRegistry.CameraManager.ServeRequest | backend/src/backend/managers/camera_manager.py:118-182 | a setter, start or end call from another route changes the registry as `Serve` says and keeps it valid |
| CameraRegistry.CamerasOfRegistry | backend/src/backend/managers/camera_manager.py:91-95 | the cameras built from a dictionary with unique keys have the keys as names and form a valid registry |
| CameraRegistry.CamerasOfLookup | backend/src/backend/managers/camera_manager.py:91-106 | looking up a camera built from the dictionary gives the dictionary's path for that name |
| CameraRegistry.IndexOfSameNames | backend/src/backend/managers/camera_manager.py:101-103 | lookup depends only on the names, so field updates never move a camera |
| CameraRegistry.WithFpsEffect | backend/src/backend/managers/camera_manager.py:118-126 | after `set_camera_fps` the named camera's fps is the given value, and every other camera's fps and every other field are unchanged |
| CameraRegistry.WithQualityEffect | backend/src/backend/managers/camera_manager.py:138-148 | after `set_camera_encoding_params` the named camera's params are its old flag and the new quality; nothing else changes |
| CameraRegistry.WithRunningEffect | backend/src/backend/managers/camera_manager.py:160-182 | start and end set the named camera's flag and nothing else |
| CameraRegistry.EndCaptureClears | backend/src/backend/managers/camera_manager.py:174-182 | after `end_video_capture` on a listed camera, its running flag reads false |
| CameraRegistry.UnknownName | backend/src/backend/managers/camera_manager.py:97-182 | for an unknown name each accessor raises `CameraNotFoundError` (root copy: AttributeError on `None`, camera_manager.py:77-144) and no setter, start or end changes anything |
| CameraRegistry.ServeKeeps | backend/src/backend/managers/camera_manager.py:118-182 | no call changes the names, and each keeps the registry valid |
| CameraRegistry.ServeAllKeeps | backend/src/backend/managers/camera_manager.py:118-182 | the same for any sequence of calls |
| CameraRegistry.ServeAllConcat | backend/src/backend/managers/camera_manager.py:118-182 | serving two runs of calls is serving the first, then the second |
| CameraRegistry.ServeOther | backend/src/backend/managers/camera_manager.py:97-182 | a call naming another camera leaves a camera's fps, params and running flag unchanged |
| CameraRegistry.ServeOthers | backend/src/backend/managers/camera_manager.py:97-182 | the same for any sequence of calls none of which names the camera |
| CameraRegistry.RunningLastWriteWins | backend/src/backend/managers/camera_manager.py:160-182 | start and end do not accumulate: the last one decides the flag |
| CameraRegistry.AvailableIff | backend/src/backend/managers/camera_manager.py:184-192 | a name is reported available if and only if some camera of that name is not running |
| CameraRegistry.AvailableConcat | backend/src/backend/managers/camera_manager.py:188-192 | the report keeps registry order: that of a concatenation is the concatenation of the reports |
| CameraRegistry.StartHides | backend/src/backend/managers/camera_manager.py:160-192 | after start the camera is not reported available; every other name's availability is unchanged |
| CameraRegistry.EndShows | backend/src/backend/managers/camera_manager.py:174-192 | after end a listed camera is reported available; every other name's availability is unchanged |
| Multipart.ChunkIsBodyPart | backend/src/backend/api.py:50-51 | each chunk is exactly an RFC 2046 body part with boundary `frame`, one `Content-Type: image/jpeg` header line, the empty line and the image, followed by CRLF |
| Multipart.UnframeChunk | backend/src/backend/api.py:50-51 | the image is recovered from its chunk |
| Multipart.ChunkUnframe | backend/src/backend/api.py:50-51 | whatever unframes to an image is that image's chunk |
| Multipart.ConcatSnoc | backend/src/backend/api.py:50-51 | sending one more chunk appends it to the body |
| Multipart.StreamIsMultipartBody | backend/src/backend/api.py:50-51 | the chunks of n >= 1 images back to back are a multipart body of n image/jpeg parts with boundary `frame`, followed by the CRLF that starts the next delimiter |
| Multipart.PayloadFrames | backend/src/backend/api.py:50-51 | a framed chunk is the chunk of its payload |
| Multipart.ChunksOfPayloads | backend/src/backend/api.py:50-51 | chunks that are all framed are the framing of their payloads |
| Multipart.FramedConcat | backend/src/backend/api.py:50-51 | framed chunks back to back are a multipart body whose parts carry their payloads |
| FrameStreamer.FpsToMs | backend/src/backend/api.py:15-19 | the wait is the number that times fps gives 1000 ms; fps 0 raises ZeroDivisionError, and only fps 0 does (api.py:24-28 alike) |
| FrameStreamer.WaitShrinks | backend/src/backend/api.py:15-19 | a larger positive fps gives a strictly smaller wait |
| FrameStreamer.DivShrinks | backend/src/backend/api.py:15-19 | 1000 divided by a larger positive number is strictly smaller |
| FrameStreamer.NegativeFpsNoWait | backend/src/backend/api.py:15-19 | a negative fps, which the setter stores unchecked, gives a negative wait |
| FrameStreamer.Run | backend/src/backend/api.py:35-52 | the loop from a pass on: at most one chunk per read, chunk positions strictly increase and lie before the stopping pass, and the stream is cut off exactly when the trace runs out |
| FrameStreamer.Generate | backend/src/backend/api.py:22-52 | the generator's stream: one position per chunk, all before the stopping pass |
| FrameStreamer.RegistryAtStep | backend/src/backend/api.py:35-37 | pass k sees the registry after its own requests; later passes see it as a run from k + 1 |
| FrameStreamer.LastSentStep | backend/src/backend/api.py:52 | a frame sent at pass k sets the last-frame time of the passes after it |
| FrameStreamer.RunDiscards | backend/src/backend/api.py:40-45 | each pass before the stop that sent nothing was a discard in its registry state and with its last-frame time |
| FrameStreamer.RunSends | backend/src/backend/api.py:40-52 | each chunk is what its pass emitted in that pass's registry state and last-frame time |
| FrameStreamer.RunStops | backend/src/backend/api.py:35-42 | the stopping pass stopped the loop for the reason reported, in its registry state, which is the final registry |
| FrameStreamer.EmitMeans | backend/src/backend/api.py:35-51 | a pass sends only when the camera runs, the wait is defined, the read succeeded and strictly more than the wait has passed; the chunk is the frame encoded with the current params |
| FrameStreamer.DiscardMeans | backend/src/backend/api.py:35-45 | a pass that neither sends nor stops had a successful read held back by the pacing test |
| FrameStreamer.RegistryAtNames | backend/src/backend/api.py:35 | the calls served during a stream keep the names and a valid registry |
| FrameStreamer.StateAtKnows | backend/src/backend/api.py:35 | a listed camera stays listed in every pass of its stream |
| FrameStreamer.LastSentAt | backend/src/backend/api.py:34-52 | at a sent pass the last-frame time is the resume time of the previous sent pass, or 0 for the first |
| FrameStreamer.SentChunk | backend/src/backend/api.py:35-52 | the i-th chunk comes from a successful read with the camera running, strictly more than the current wait after the previous chunk (time 0 for the first), encoded with the params of that pass |
| FrameStreamer.StreamSends | backend/src/backend/api.py:35-52 | the same for every chunk |
| FrameStreamer.StreamDiscards | backend/src/backend/api.py:40-45 | every pass before the stop that sent nothing read successfully with the camera running and was held back because no more than the wait had passed since the last sent frame |
| FrameStreamer.StopMeans | backend/src/backend/api.py:35-42 | a pass on a listed camera stops on a failed read while running, on a cleared running flag, or on an error from the fps step |
| FrameStreamer.ReadsBeforeStop | backend/src/backend/api.py:40-42 | every read before the stopping pass succeeded |
| FrameStreamer.StreamStops | backend/src/backend/api.py:35-42 | the loop ends at the first failed read or when the camera is found not running, with the reason and final registry as stated; an exception comes from the fps step |
| FrameStreamer.ServeRequests | backend/src/backend/managers/camera_manager.py:118-182 | serving other routes' calls in order changes the registry as `ServeAll` says |
| FrameStreamer.LoopPass | backend/src/backend/api.py:35-51 | one pass of the loop body over a `CameraManager`: the running check, the fps getter, `fps_to_ms`, the read, the strict pacing test, then the params, the encoder and the framing, with the outcome `OnePass` gives |
| FrameStreamer.PassLoop | backend/src/backend/api.py:34-52 | the `while` loop with `time_since_last_frame` starting at 0 and set only after a sent frame yields exactly the chunks of `Run`, ends as it does and leaves its registry |
| FrameStreamer.GenerateFrames | backend/src/backend/api.py:22-52 | the generator loop over a `CameraManager` yields exactly the chunks of `Generate`, ends as it says and leaves the registry it describes (api.py:30-54 alike) |
| StreamProperties.UnknownCameraStream | backend/src/backend/api.py:26-30 | an unknown camera raises from `start_video_capture` before any read; nothing is sent and the registry is unchanged |
| StreamProperties.StartMarksRunning | backend/src/backend/managers/camera_manager.py:171 | a listed camera is marked running before the first pass, that is before pass 0's calls are served, whatever its flag was |
| StreamProperties.RegistryAtLast | backend/src/backend/api.py:35 | the registry of pass j is that of pass j - 1 with pass j's calls served |
| StreamProperties.BeforeKnows | backend/src/backend/api.py:35 | before each pass's calls the camera is listed and the registry valid |
| StreamProperties.RunningBeforeStop | backend/src/backend/api.py:35-37 | every pass before the stop found the camera running and computed a wait |
| StreamProperties.StopPass | backend/src/backend/api.py:35-42 | the stopping pass, in its registry state, stopped for the reason reported |
| StreamProperties.SentInReadOrder | backend/src/backend/api.py:40-52 | the sent frames are successful reads in read order, at most one chunk per read |
| StreamProperties.LastCallDecides | backend/src/backend/api.py:35-48 | the fps, params and running flag a pass sees are those left by the last call naming the camera before it |
| StreamProperties.EndClearsRunning | backend/src/backend/api.py:35 | `end_video_capture` as the last call naming the camera before pass j: the registry the loop checks at pass j reports the camera not running |
| StreamProperties.EndStopsStream | backend/src/backend/api.py:35 | `end_video_capture` as the last call naming the camera before pass j: the loop does not go past pass j, and if it reaches it, it ends because the camera is not running |
| StreamProperties.QualityChangeApplies | backend/src/backend/api.py:46-48 | a quality change that is the last call naming the camera before a sending pass is used for that pass's frame, with the flag intact |
| StreamProperties.FpsChangeApplies | backend/src/backend/api.py:37 | an fps change that is the last call naming the camera before a pass sets that pass's wait |
| StreamProperties.NoRequestsNoChange | backend/src/backend/api.py:35 | with no calls from other routes the registry stays as it was |
| StreamProperties.Paced | backend/src/backend/api.py:34-52 | with a fixed fps f > 0 and a clock that does not go back within a pass, the n-th chunk comes from a read more than n times 1000/f ms after time 0 |
| StreamProperties.IntendedSendsFirstFrame | backend/src/backend/api.py:34-51 | with the registry's own fps getter, a successful first read more than one wait after time 0 is sent first, encoded with the camera's params |
| StreamProperties.AsWrittenBackendSendsNothing | backend/src/backend/api.py:37 | the backend loop as written sends nothing for a listed camera; with no call before the first pass it raises AttributeError for `get_camrea_fps` |
| StreamProperties.StreamBodyIsMultipart | backend/src/backend/api.py:50-51 | the sent chunks back to back are a multipart body with boundary `frame` |
| ReactServer.Taken | react-server/index.py:20-22 | the loop reads up to and including the first failed read: all reads before it succeeded |
| ReactServer.ChunksCons | react-server/index.py:34-35 | framing a leading image puts its chunk first |
| ReactServer.LoopIsFilterMap | react-server/index.py:20-35 | from any read on, the loop sends the framed images of the reads it takes that have a frame and encode, in order, and ends with a release exactly when one of them fails |
| ReactServer.UnpacedIsFilterMap | react-server/index.py:9-37 | the generator sends the framed, successfully encoded frames of the reads inside the loop up to the first failed one, and nothing when the capture did not open or the first read failed; it releases exactly when the loop ends |
| ReactServer.NotOpenedSendsNothing | react-server/index.py:14-17 | a capture that does not open sends nothing and is released |
| ReactServer.FirstFrameNeverSent | react-server/index.py:15-22 | the frame of the read before the loop never reaches the client |
| ReactServer.SkippedReadContinues | react-server/index.py:23-31 | a successful read without a frame, or whose encoding fails, sends nothing and leaves the rest of the stream as if it had not happened |
| ReactServer.SkipFrom | react-server/index.py:23-31 | the same from any loop position up to the skipped read |
| ReactServer.ShiftBack | react-server/index.py:20-22 | dropping a read moves the later reads one place down |
| ReactServer.UnpacedBodyIsMultipart | react-server/index.py:34-35 | the body is a multipart body with boundary `frame` whose parts are the encoded images |
| ReactServer.GenerateUnpaced | react-server/index.py:9-37 | the `while rval` loop with its `continue`s yields exactly the chunks of `Unpaced`, and releases the capture once if the loop ends and never if the trace ends first |

## Left out

- The `v4l2-ctl` subprocess call: the parser takes the command's result as a parameter. The backend's `print` of the exception and the legacy copy's `print` inside the loop are left out too, and so is the `print("Made it here")` of `generate_frames` (backend/src/backend/api.py:29), which only writes to the console.
- OpenCV is not modelled: `cv2.VideoCapture`, `cap.set(CAP_PROP_BUFFERSIZE)`, `cap.read`, `cv2.imencode`, `tobytes` and `vc.release` are abstract. Reads are a trace, and the encoder is an uninterpreted function of the frame and the params list. Its success flag is ignored by `generate_frames`, as the source ignores `ret`.
- `time.time()`: each pass carries the two clock readings in milliseconds as reals, with no float rounding. `fps_to_ms` is real division, so it does not model float rounding either.
- FastAPI and Flask routes, `StreamingResponse`, and the routes that only forward to the registry. Calls those routes make while a stream runs appear in the trace, served between passes.
- Concurrency: the routes run sequentially. A call from another route takes effect only between two passes of the generator, never inside one.
- Aliasing: `get_camera_encoding_params` returns the camera's own list object, and `cv2.imencode` could see later writes to it. The model copies the params as a value at the call.
- CameraRegistry.EncodingParams: the two-element list `[IMWRITE_JPEG_QUALITY, quality]` is a pair. Slot 0 is never written by the source, and `Registry` keeps it equal to the flag.
- CameraRegistry.NewCamera: the `camera_fps` argument is always its default of 30 at every call site, so the constructor takes no fps.
- Several streams of the same camera at once, and streams of several cameras at once: one generator runs against the registry.
- `backend-rs`, `backend/src/main.rs` and `react-app` are not part of this model.
- FrameStreamer.GenerateFrames: the closing of a suspended generator by the server is modelled as the trace running out (`Disconnected`).
- ReactServer.GenerateUnpaced: the same for the react server. The release after the loop then never runs, and the method reports 0 releases.
- IntendedSendsFirstFrame: the pacing test is stated with `1000 / f`, not with the product `now * f`, to keep the real arithmetic linear.

## Findings

| source | as written | input that shows it | evidently intended | confidence | as-written member | corrected member |
|---|---|---|---|---|---|---|
| backend/src/backend/api.py:37 | the loop calls `camera_manager.get_camrea_fps`, but the backend registry defines only `get_camera_fps` (backend/src/backend/managers/camera_manager.py:108) | any listed camera, first pass with no other call: `start_video_capture` marks it running, then the getter lookup raises AttributeError on the manager before the first read | read the current fps through `get_camera_fps`, as the root copy does with its own spelling (api.py:40, camera_manager.py:86) | not executed | StreamProperties.AsWrittenBackendSendsNothing | StreamProperties.IntendedSendsFirstFrame |
