/** Properties of the transfer agent that relate several requests or several lines. */
module TransferProperties {
  import opened Wrappers
  import opened Store
  import opened Messages
  import opened Transfer

  /** An `init` line is acknowledged with its operation echoed and the "basic"
      transfer advertised, and nothing on disk changes. */
  lemma InitAcknowledged(files: Files, f: map<string, Json>, fault: CopyFault)
    requires "event" in f && f["event"] == JString("init") && "operation" in f
    ensures Step(files, Parsed(JObject(f)), fault) == Outcome(Some(InitReply(f["operation"], ["basic"])), files)
  {
  }

  /** An `upload` line with a string `oid`, a `size` and a string `path` is handled
      by the upload handler, with exactly those two strings. */
  lemma UploadLineDispatched(files: Files, f: map<string, Json>, fault: CopyFault)
    requires "event" in f && f["event"] == JString("upload")
    requires "oid" in f && f["oid"].JString? && "size" in f && "path" in f && f["path"].JString?
    ensures Step(files, Parsed(JObject(f)), fault) == Upload(files, f["oid"].s, f["path"].s, fault)
  {
  }

  /** A `download` line with a string `oid` is handled by the download handler, with
      the requested path when the line names one and the object cache otherwise. */
  lemma DownloadLineDispatched(files: Files, f: map<string, Json>, fault: CopyFault)
    requires "event" in f && f["event"] == JString("download") && "oid" in f && f["oid"].JString?
    requires "path" in f ==> f["path"].JString?
    ensures Step(files, Parsed(JObject(f)), fault)
         == Download(files, f["oid"].s, if "path" in f then Some(f["path"].s) else None, fault)
  {
  }

  /** The size an upload request gives has no influence on what happens. */
  lemma UploadSizeIgnored(files: Files, f: map<string, Json>, size1: Json, size2: Json, fault: CopyFault)
    requires "event" in f && f["event"] == JString("upload")
    ensures Step(files, Parsed(JObject(f["size" := size1])), fault)
         == Step(files, Parsed(JObject(f["size" := size2])), fault)
  {
    var f1, f2 := f["size" := size1], f["size" := size2];
    var l1, l2 := Parsed(JObject(f1)), Parsed(JObject(f2));
    assert "oid" != "size" && "path" != "size" && "event" != "size";
    assert f1["event"] == f2["event"] == JString("upload");
    if "oid" in f && f["oid"].JString? && "path" in f && f["path"].JString? {
      var request1, request2 := UploadRequest(f["oid"].s, size1, f["path"].s), UploadRequest(f["oid"].s, size2, f["path"].s);
      assert Decode(l1) == Some(request1);
      assert Decode(l2) == Some(request2);
    } else {
      assert Decode(l1) == None;
      assert Decode(l2) == None;
    }
  }

  /** Yet an upload request without a size gets no reply and writes nothing. */
  lemma UploadWithoutSizeIsSilent(files: Files, f: map<string, Json>, fault: CopyFault)
    requires "event" in f && f["event"] == JString("upload") && "size" !in f
    ensures Step(files, Parsed(JObject(f)), fault) == Outcome(None, files)
  {
  }

  /** Repeating a copy that meets no fault changes nothing further. */
  lemma CopyRepeated(files: Files, src: Path, dst: Path)
    ensures var once := Copy(files, src, dst, NoFault);
      Copy(once.files, src, dst, NoFault) == once
  {
    if src in files {
      var once := Copy(files, src, dst, NoFault);
      var data := if src == dst then [] else files[src];
      assert once.files == files[dst := data];
      assert src in once.files;
      assert (if src == dst then [] else once.files[src]) == data;
    }
  }

  /** Repeating a successful upload leaves the disk as a single upload left it. */
  lemma UploadIdempotent(files: Files, oid: string, source: string)
    ensures var once := Upload(files, oid, source, NoFault);
      Upload(once.files, oid, source, NoFault) == once
  {
    CopyRepeated(files, ParsePath(source), StorePath(oid));
  }

  /** Uploading bytes for an OID and then downloading that OID puts exactly those
      bytes at the destination and reports where they went. */
  lemma {:induction false} UploadThenDownload(files: Files, oid: string, source: string, destination: Option<string>)
    requires ParsePath(source) in files
    requires ParsePath(source) != StorePath(oid) && Destination(oid, destination) != StorePath(oid)
    ensures var up := Upload(files, oid, source, NoFault);
      var down := Download(up.files, oid, destination, NoFault);
      var dst := Destination(oid, destination);
      && up.reply == Some(Complete(oid, None))
      && down.reply == Some(Complete(oid, Some(Render(dst))))
      && dst in down.files
      && down.files[dst] == files[ParsePath(source)]
  {
    var up := Upload(files, oid, source, NoFault);
    assert Resolve(up.files, oid) == Some(StorePath(oid));
  }

  /** An OID that is in neither location is answered with 404 "Object not found"
      and no file is written. */
  lemma DownloadMiss(files: Files, oid: string, destination: Option<string>, fault: CopyFault)
    requires StorePath(oid) !in files && FlatPath(oid) !in files
    ensures Download(files, oid, destination, fault) == Outcome(Some(Error(oid, 404, "Object not found")), files)
  {
  }

  /** The path a successful download reports names the file it wrote, holding the
      resolved object's bytes. */
  lemma DeliveredPathNamesCopy(files: Files, oid: string, destination: Option<string>, fault: CopyFault)
    requires Download(files, oid, destination, fault).reply.value.Complete?
    ensures var o := Download(files, oid, destination, fault);
      var written := ParsePath(o.reply.value.path.value);
      var src := Resolve(files, oid).value;
      && src in files
      && written in o.files
      && o.files[written] == (if src == written then [] else files[src])
  {
    RenderParses(Destination(oid, destination));
  }

  /** The loop answers exactly the lines that decode to an init, upload or
      download request: each of them adds one reply, and no other line does. */
  lemma {:induction false} RunAnswersEachRequest(files: Files, lines: seq<Line>, faults: seq<CopyFault>)
    requires |faults| == |lines|
    ensures |Run(files, lines, faults).replies| == AnsweredCount(lines)
    decreases |lines|
  {
    if lines != [] {
      var o := Step(files, lines[0], faults[0]);
      RunAnswersEachRequest(o.files, lines[1..], faults[1..]);
    }
  }

  /** A line the agent does not answer (not JSON, not an object, a missing key or
      an unknown event) neither writes anything nor disturbs the lines after it. */
  lemma SilentLineIsInert(files: Files, line: Line, fault: CopyFault, lines: seq<Line>, faults: seq<CopyFault>)
    requires !Answered(line) && |faults| == |lines|
    ensures Run(files, [line] + lines, [fault] + faults) == Run(files, lines, faults)
  {
    assert ([line] + lines)[1..] == lines && ([fault] + faults)[1..] == faults;
  }

  /** An upload never disturbs the stored object of another OID. */
  lemma UploadKeepsOtherObjects(files: Files, oid: string, other: string, source: string, fault: CopyFault)
    requires PlainName(oid) && PlainName(other) && oid != other
    ensures var o := Upload(files, oid, source, fault);
      && (StorePath(other) in o.files <==> StorePath(other) in files)
      && (StorePath(other) in files ==> o.files[StorePath(other)] == files[StorePath(other)])
  {
    StorePathInjective(oid, other);
    var o := Upload(files, oid, source, fault);
    var p := StorePath(other);
    assert p in files <==> p in files - {StorePath(oid)};
    assert p in o.files <==> p in o.files - {StorePath(oid)};
    if p in files {
      assert (files - {StorePath(oid)})[p] == (o.files - {StorePath(oid)})[p];
    }
  }
}
