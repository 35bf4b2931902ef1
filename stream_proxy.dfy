/** The decisions `streamAndSaveSong` makes around the proxied audio
    stream: which Range to forward, whether the upstream status is
    accepted, which headers are mirrored, and whether the stream is also
    persisted to the cache. A missing header is the empty string. */
module StreamProxy {

  import opened Wrappers
  import opened JsText
  import opened FileSystem

  /** `isPartial`: a Range header that does not ask for the whole file. */
  predicate IsPartial(range: string) {
    range != "" && !StartsWith(range, "bytes=0-")
  }

  /** The headers sent upstream: `Range` exactly when the client sent one. */
  function UpstreamHeaders(range: string): (h: seq<(string, string)>)
    ensures |h| <= 1
    ensures h == [] <==> range == ""
    ensures forall i :: 0 <= i < |h| ==> h[i] == ("Range", range)
  {
    if range != "" then [("Range", range)] else []
  }

  /** `validateStatus`: any 2xx status. */
  predicate Accepted(status: int) {
    (200 <= status < 300) || status == 206
  }

  /** The response headers copied to the client, in this order. */
  const MirroredKeys: seq<string> := ["content-type", "content-length", "accept-ranges", "content-range"]

  /** The `forEach` over `keys`: copy each key the upstream sent with a
      non-empty value. */
  function Mirror(keys: seq<string>, upstream: map<string, string>): (out: seq<(string, string)>)
    ensures |out| <= |keys|
    ensures forall i :: 0 <= i < |out| ==> out[i].0 in keys && out[i].0 in upstream && upstream[out[i].0] == out[i].1 && out[i].1 != ""
    ensures forall k :: k in keys && k in upstream && upstream[k] != "" ==> (k, upstream[k]) in out
  {
    if keys == [] then []
    else
      var k := keys[0];
      var rest := Mirror(keys[1..], upstream);
      if k in upstream && upstream[k] != "" then [(k, upstream[k])] + rest else rest
  }

  /** What the upstream request produced: a response, or a rejection
      (network failure, or a status `validateStatus` refuses). */
  datatype Upstream = Responded(status: int, headers: map<string, string>) | Unreachable

  /** What the proxy does with the client's response. */
  datatype Plan =
    | Pipe(status: int, headers: seq<(string, string)>, saveTo: Option<Path>)
    | StreamError   // 500 "Stream error"; no headers have been sent at that point

  /** The whole decision of `streamAndSaveSong(req, res, audioUrl, filePath)`. */
  function Decide(range: string, filePath: Option<Path>, upstream: Upstream): Plan {
    match upstream
    case Unreachable => StreamError
    case Responded(status, headers) =>
      if !Accepted(status) then StreamError
      else
        var save := if !IsPartial(range) && status == 200 && filePath.Some? then filePath else None;
        Pipe(status, Mirror(MirroredKeys, headers), save)
  }

  /** A request is partial exactly when it carries a Range header whose
      first eight characters are not `bytes=0-`. */
  lemma PartialExactly(range: string)
    ensures IsPartial(range) <==> range != "" && (|range| < 8 || range[..8] != "bytes=0-")
  {
  }

  /** The stream is persisted exactly when the request is not partial, the
      upstream answered 200, and a target file was given; the status code is
      passed through and only the four named headers are mirrored. */
  lemma DecideSpec(range: string, filePath: Option<Path>, upstream: Upstream)
    ensures var plan := Decide(range, filePath, upstream);
      && (plan.Pipe? <==> upstream.Responded? && Accepted(upstream.status))
      && (plan.Pipe? ==> plan.status == upstream.status)
      && (plan.Pipe? ==> (plan.saveTo.Some? <==> !IsPartial(range) && upstream.status == 200 && filePath.Some?))
      && (plan.Pipe? && plan.saveTo.Some? ==> plan.saveTo == filePath)
      && (plan.Pipe? ==> forall i :: 0 <= i < |plan.headers| ==> plan.headers[i].0 in MirroredKeys)
      && (plan.Pipe? ==> forall k :: k in MirroredKeys && k in upstream.headers && upstream.headers[k] != "" ==>
            (k, upstream.headers[k]) in plan.headers)
  {
  }

  /** A 206 answer, or a Range that starts past byte 0, is never saved. */
  lemma NoPartialSaves(range: string, filePath: Option<Path>, status: int, headers: map<string, string>)
    requires IsPartial(range) || status == 206
    ensures match Decide(range, filePath, Responded(status, headers))
      case Pipe(_, _, saveTo) => saveTo == None
      case StreamError => true
  {
  }

  /** A full request such as "bytes=0-" answered 200 is saved. */
  lemma FullRangeSaves(filePath: Path, headers: map<string, string>)
    ensures Decide("bytes=0-", Some(filePath), Responded(200, headers)).saveTo == Some(filePath)
  {
    assert StartsWith("bytes=0-", "bytes=0-");
  }
}
