/** Option and error-carrying results shared by every component.
    A Go pair `(value, err)` with `err != nil` is modelled as `Err(error)`;
    Go returns the zero value ("" or nil) beside such an error. */
module Wrappers {

  datatype Option<+T> = None | Some(value: T) {
    function GetOr(default: T): T {
      match this
      case Some(v) => v
      case None => default
    }
  }

  /** The error kinds the snapshotter reports. */
  datatype Error =
    | MalformedVolume          // a recognised scheme whose payload is missing or ill-formed
    | UnsupportedVolumeType    // no scheme this snapshotter can write into
    | RegionParseError(message: string)

  datatype Result<+T> = Ok(value: T) | Err(error: Error)
}
