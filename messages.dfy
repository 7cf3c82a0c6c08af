/** The control protocol of the transfer agent: one JSON object per line in,
    at most one JSON object per line out. */
module Messages {
  import opened Wrappers

  /** A decoded JSON value. Numbers are kept as integers. */
  datatype Json =
    | JNull
    | JBool(b: bool)
    | JNumber(n: int)
    | JString(s: string)
    | JArray(items: seq<Json>)
    | JObject(fields: map<string, Json>)

  /** One line read from standard input: either it is not JSON at all, or it
      decodes to a value. */
  datatype Line = Unparsable | Parsed(value: Json)

  /** A request the agent acts on, with the fields its handler reads. */
  datatype Request =
    | InitRequest(operation: Json)
    | UploadRequest(oid: string, size: Json, source: string)
    | DownloadRequest(oid: string, destination: Option<string>)
    | UnhandledEvent(event: Json)

  /** A reply line. `Complete` carries a path only for downloads. */
  datatype Reply =
    | InitReply(operation: Json, transfers: seq<string>)
    | Complete(oid: string, path: Option<string>)
    | Error(oid: string, code: int, message: string)
  {
    function Oid(): Option<string> {
      if InitReply? then None else Some(oid)
    }
  }

  /** The fields a line carries when it is a JSON object, or nothing. */
  function Fields(line: Line): Option<map<string, Json>> {
    if line.Parsed? && line.value.JObject? then Some(line.value.fields) else None
  }

  /** What the dispatcher and the handlers read from a line before anything is
      written: None when reading raises (not JSON, not an object, a missing
      key, an OID or path that is not a string). */
  function Decode(line: Line): (r: Option<Request>)
    ensures r.Some? ==> Fields(line).Some? && "event" in Fields(line).value
    ensures r.Some? && r.value.UploadRequest? ==>
      var f := Fields(line).value;
      && f["event"] == JString("upload")
      && "size" in f && f["size"] == r.value.size
      && "oid" in f && f["oid"] == JString(r.value.oid)
      && "path" in f && f["path"] == JString(r.value.source)
    ensures r.Some? && r.value.DownloadRequest? ==>
      var f := Fields(line).value;
      && f["event"] == JString("download")
      && "oid" in f && f["oid"] == JString(r.value.oid)
      && (r.value.destination.None? <==> "path" !in f)
      && (r.value.destination.Some? ==> f["path"] == JString(r.value.destination.value))
    ensures r.Some? && r.value.InitRequest? ==>
      var f := Fields(line).value;
      f["event"] == JString("init") && "operation" in f && f["operation"] == r.value.operation
    ensures r.Some? && r.value.UnhandledEvent? ==>
      Fields(line).value["event"] !in {JString("init"), JString("upload"), JString("download")}
    ensures Fields(line).Some? && "event" in Fields(line).value ==>
      var f := Fields(line).value;
      f["event"] == JString("init") && "operation" in f ==> r == Some(InitRequest(f["operation"]))
    ensures Fields(line).Some? && "event" in Fields(line).value ==>
      var f := Fields(line).value;
      f["event"] == JString("upload") && "oid" in f && "size" in f && "path" in f
      && f["oid"].JString? && f["path"].JString? ==>
      r == Some(UploadRequest(f["oid"].s, f["size"], f["path"].s))
    ensures Fields(line).Some? && "event" in Fields(line).value ==>
      var f := Fields(line).value;
      f["event"] == JString("download") && "oid" in f && f["oid"].JString? ==>
      && ("path" !in f ==> r == Some(DownloadRequest(f["oid"].s, None)))
      && ("path" in f && f["path"].JString? ==> r == Some(DownloadRequest(f["oid"].s, Some(f["path"].s))))
    ensures Fields(line).Some? && "event" in Fields(line).value ==>
      var e := Fields(line).value["event"];
      e !in {JString("init"), JString("upload"), JString("download")} ==> r == Some(UnhandledEvent(e))
  {
    match Fields(line)
    case None => None
    case Some(f) =>
      if "event" !in f then None
      else
        var event := f["event"];
        if event == JString("init") then
          if "operation" in f then Some(InitRequest(f["operation"])) else None
        else if event == JString("upload") then
          if "oid" in f && "size" in f && "path" in f && f["oid"].JString? && f["path"].JString?
          then Some(UploadRequest(f["oid"].s, f["size"], f["path"].s))
          else None
        else if event == JString("download") then
          if "oid" !in f || !f["oid"].JString? then None
          else if "path" !in f then Some(DownloadRequest(f["oid"].s, None))
          else if f["path"].JString? then Some(DownloadRequest(f["oid"].s, Some(f["path"].s)))
          else None
        else Some(UnhandledEvent(event))
  }
}
