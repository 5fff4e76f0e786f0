/** The record shapes shared by the whole browser shell (types.ts), plus the
    small Option/Result wrappers used for absent values and thrown errors. */
module Types {

  datatype Option<T> = None | Some(value: T) {
    /** `x || fallback` on an optional value. */
    function GetOr(fallback: T): T {
      match this
      case Some(v) => v
      case None => fallback
    }
  }

  /** A computation that either returns a value or throws an error carrying a message. */
  datatype Result<T> = Ok(value: T) | Err(message: string)

  /** A JSON value, as `JSON.parse` returns it. Numbers are kept as their source text. */
  datatype Json =
    | JNull
    | JBool(b: bool)
    | JNumber(text: string)
    | JString(s: string)
    | JArray(items: seq<Json>)
    | JObject(members: seq<(string, Json)>)

  /** The synthetic network identity of a tab. */
  datatype VirtualProxy = VirtualProxy(ip: string, country: string, city: string, isp: string, latency: int)

  /** The three-valued `status` of a video. */
  datatype VideoStatus = Playing | Paused | Buffering

  datatype VideoInstance = VideoInstance(id: string, url: string, title: string, status: VideoStatus, ip: string)

  datatype BrowserTab = BrowserTab(
    id: string,
    title: string,
    url: string,
    proxy: VirtualProxy,
    videos: seq<VideoInstance>,
    isActive: bool)
}
