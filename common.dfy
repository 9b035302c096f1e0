/**
 * Shared vocabulary of the camera-streaming core: bytes, the Python
 * exceptions the core raises, and which copy of the code is meant.
 */
module Common {

  newtype byte = x: int | 0 <= x < 256

  datatype Option<T> = None | Some(value: T)

  /** A Python call either returns a value or raises one of the exceptions below. */
  datatype Result<T> = Ok(value: T) | Err(error: Error)

  /** The exceptions the modelled code can raise. */
  datatype Error =
    | CameraNotFoundError(cameraName: string)
      // raised by the lookup of the backend registry for an unknown name
    | AttributeError(typeName: string, attribute: string)
      // `'<typeName>' object has no attribute '<attribute>'`
    | IndexError
      // the listing parser indexed past the last line
    | ZeroDivisionError
      // fps_to_ms(0)
    | ListingCommandError
      // `v4l2-ctl --list-devices` failed and the failure was not caught

  /**
   * The repository carries two copies of the registry: the packaged backend
   * (backend/src/backend/...) and the older copy at the repository root.
   */
  datatype Edition = Backend | Legacy

  /** OpenCV's `cv2.IMWRITE_JPEG_QUALITY` flag. */
  const ImwriteJpegQuality: int := 1

  /** The bytes of an ASCII string literal. */
  function AsciiBytes(s: string): (b: seq<byte>)
    requires forall i :: 0 <= i < |s| ==> s[i] as int < 128
    ensures |b| == |s|
    ensures forall i :: 0 <= i < |s| ==> b[i] as int == s[i] as int
  {
    seq(|s|, i requires 0 <= i < |s| => s[i] as int as byte)
  }
}
