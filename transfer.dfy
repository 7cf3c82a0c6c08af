/** The transfer agent: its three request handlers, the dispatcher, and the loop
    that reads request lines until end of input. */
module Transfer {
  import opened Wrappers
  import opened Store
  import opened Messages

  /** How a file copy goes wrong, as decided by the environment. */
  datatype CopyFault =
    | NoFault
      /** An error raised before the destination is opened for writing. */
    | FailsBeforeWrite(message: string)
      /** An error raised after the destination was truncated and `written`
          bytes of the source were written to it. */
    | FailsDuringWrite(written: nat, message: string)

  /** The error text when the file to copy does not exist. */
  const MissingSource: string := "No such file or directory"
  const NotFound: string := "Object not found"
  const UploadFailed: int := 500
  const DownloadFailed: int := 404
  const Transfers: seq<string> := ["basic"]

  datatype Copied = Copied(error: Option<string>, files: Files)
  datatype Outcome = Outcome(reply: Option<Reply>, files: Files)
  datatype Transcript = Transcript(replies: seq<Reply>, files: Files)

  function Min(a: nat, b: nat): nat {
    if a <= b then a else b
  }

  /** A copy as `open(src, "rb")`, `open(dst, "wb")`, `dst.write(src.read())`
      performs it. The destination is truncated before the source is read, so a
      file copied onto itself ends up empty. */
  function Copy(files: Files, src: Path, dst: Path, fault: CopyFault): (c: Copied)
    ensures files - {dst} == c.files - {dst}
    ensures c.error.None? <==> src in files && fault.NoFault?
    ensures c.error.None? ==> dst in c.files && c.files[dst] == (if src == dst then [] else files[src])
    ensures src !in files ==> c == Copied(Some(MissingSource), files)
    ensures src in files && fault.FailsBeforeWrite? ==> c == Copied(Some(fault.message), files)
    ensures src in files && fault.FailsDuringWrite? ==>
      && c.error == Some(fault.message)
      && dst in c.files
      && c.files[dst] <= (if src == dst then [] else files[src])
  {
    if src !in files then Copied(Some(MissingSource), files)
    else
      var data := if src == dst then [] else files[src];
      match fault
      case NoFault => Copied(None, files[dst := data])
      case FailsBeforeWrite(m) => Copied(Some(m), files)
      case FailsDuringWrite(n, m) => Copied(Some(m), files[dst := data[..Min(n, |data|)]])
  }

  /** `handle_upload`: copy the file named by `source` to the store location of `oid`.
      The request's size is read but plays no part. */
  function Upload(files: Files, oid: string, source: string, fault: CopyFault): (o: Outcome)
    ensures o.reply.Some? && o.reply.value.Oid() == Some(oid)
    ensures o.reply.value.Complete? || (o.reply.value.Error? && o.reply.value.code == UploadFailed)
    ensures files - {StorePath(oid)} == o.files - {StorePath(oid)}
    ensures o.reply == Some(Complete(oid, None)) <==> ParsePath(source) in files && fault.NoFault?
    ensures o.reply.value.Complete? ==>
      var src := ParsePath(source);
      && src in files
      && StorePath(oid) in o.files
      && o.files[StorePath(oid)] == (if src == StorePath(oid) then [] else files[src])
    ensures ParsePath(source) !in files ==> o == Outcome(Some(Error(oid, UploadFailed, MissingSource)), files)
  {
    var src, target := ParsePath(source), StorePath(oid);
    var c := Copy(files, src, target, fault);
    assert c.error.None? ==> target in c.files && c.files[target] == (if src == target then [] else files[src]);
    Outcome(Some(if c.error.None? then Complete(oid, None) else Error(oid, UploadFailed, c.error.value)), c.files)
  }

  /** Where a download writes: `Path(path)` when the request names a path, otherwise
      the object's sharded place under the object cache. */
  function Destination(oid: string, destination: Option<string>): (r: Path)
    ensures WellFormed(r)
    ensures destination.Some? ==> r == ParsePath(destination.value)
    ensures destination.None? && '/' !in oid ==> r == ObjectCache + ShardNames(oid)
  {
    if destination.None? then
      assert WellFormed(CachePath(oid)) by {
        assert PlainName(".git") && PlainName("lfs") && PlainName("objects");
        ShardedWellFormed(ObjectCache, oid);
      }
      assert '/' !in oid ==> CachePath(oid) == ObjectCache + ShardNames(oid) by {
        if '/' !in oid {
          SameSharding(oid);
        }
      }
      CachePath(oid)
    else ParsePath(destination.value)
  }

  /** The source a download copies from: the sharded location when it exists,
      otherwise the flat legacy location when that exists. */
  function Resolve(files: Files, oid: string): (r: Option<Path>)
    ensures r.Some? ==> r.value in files && r.value in {StorePath(oid), FlatPath(oid)}
    ensures r.None? <==> StorePath(oid) !in files && FlatPath(oid) !in files
    ensures StorePath(oid) in files ==> r == Some(StorePath(oid))
  {
    if StorePath(oid) in files then Some(StorePath(oid))
    else if FlatPath(oid) in files then Some(FlatPath(oid))
    else None
  }

  /** `handle_download`: copy the resolved object of `oid` to the destination. */
  function Download(files: Files, oid: string, destination: Option<string>, fault: CopyFault): (o: Outcome)
    ensures o.reply.Some? && o.reply.value.Oid() == Some(oid)
    ensures o.reply.value.Complete? || (o.reply.value.Error? && o.reply.value.code == DownloadFailed)
    ensures files - {Destination(oid, destination)} == o.files - {Destination(oid, destination)}
    ensures Resolve(files, oid).None? ==> o == Outcome(Some(Error(oid, DownloadFailed, NotFound)), files)
    ensures o.reply.value.Complete? <==> Resolve(files, oid).Some? && fault.NoFault?
    ensures o.reply.value.Complete? ==>
      var dst, src := Destination(oid, destination), Resolve(files, oid).value;
      && o.reply.value.path == Some(Render(dst))
      && dst in o.files
      && o.files[dst] == (if src == dst then [] else files[src])
  {
    var dst := Destination(oid, destination);
    match Resolve(files, oid)
    case None => Outcome(Some(Error(oid, DownloadFailed, NotFound)), files)
    case Some(src) =>
      var c := Copy(files, src, dst, fault);
      Outcome(Some(if c.error.None? then Complete(oid, Some(Render(dst)))
                   else Error(oid, DownloadFailed, c.error.value)), c.files)
  }

  /** A line the agent answers: it decodes to an init, upload or download request. */
  predicate Answered(line: Line) {
    Decode(line).Some? && !Decode(line).value.UnhandledEvent?
  }

  /** One pass of the loop in `main`: decode the line and dispatch on its event. */
  function Step(files: Files, line: Line, fault: CopyFault): (o: Outcome)
    ensures o.reply.Some? <==> Answered(line)
    ensures o.reply.None? ==> o.files == files
  {
    match Decode(line)
    case None => Outcome(None, files)
    case Some(InitRequest(operation)) => Outcome(Some(InitReply(operation, Transfers)), files)
    case Some(UploadRequest(oid, _, source)) => Upload(files, oid, source, fault)
    case Some(DownloadRequest(oid, destination)) => Download(files, oid, destination, fault)
    case Some(UnhandledEvent(_)) => Outcome(None, files)
  }

  /** The loop in `main` over the lines read before end of input, the i-th copy
      failing as faults[i] says. */
  function Run(files: Files, lines: seq<Line>, faults: seq<CopyFault>): (t: Transcript)
    requires |faults| == |lines|
    ensures |t.replies| <= |lines|
    decreases |lines|
  {
    if lines == [] then Transcript([], files)
    else
      var o := Step(files, lines[0], faults[0]);
      var rest := Run(o.files, lines[1..], faults[1..]);
      Transcript(if o.reply.Some? then [o.reply.value] + rest.replies else rest.replies, rest.files)
  }

  /** The number of lines the agent answers. */
  function AnsweredCount(lines: seq<Line>): nat {
    if lines == [] then 0
    else (if Answered(lines[0]) then 1 else 0) + AnsweredCount(lines[1..])
  }

  /** The state of a running agent: the filesystem its handlers read and write. */
  class TransferAgent {
    var files: Files

    constructor (files: Files)
      ensures this.files == files
    {
      this.files := files;
    }

    method CopyFile(src: Path, dst: Path, fault: CopyFault) returns (error: Option<string>)
      modifies this
      ensures Copied(error, files) == Copy(old(files), src, dst, fault)
    {
      if src !in files {
        return Some(MissingSource);
      }
      if fault.FailsBeforeWrite? {
        return Some(fault.message);
      }
      files := files[dst := []];
      var data := files[src];
      if fault.NoFault? {
        files := files[dst := data];
        error := None;
      } else {
        files := files[dst := data[..Min(fault.written, |data|)]];
        error := Some(fault.message);
      }
    }

    method HandleInit(operation: Json) returns (reply: Reply)
      ensures reply == InitReply(operation, ["basic"])
    {
      reply := InitReply(operation, Transfers);
    }

    method HandleUpload(oid: string, size: Json, source: string, fault: CopyFault) returns (reply: Reply)
      modifies this
      ensures Outcome(Some(reply), files) == Upload(old(files), oid, source, fault)
    {
      var target := StorePath(oid);
      var error := CopyFile(ParsePath(source), target, fault);
      reply := if error.None? then Complete(oid, None) else Error(oid, UploadFailed, error.value);
    }

    method HandleDownload(oid: string, destination: Option<string>, fault: CopyFault) returns (reply: Reply)
      modifies this
      ensures Outcome(Some(reply), files) == Download(old(files), oid, destination, fault)
    {
      var dst := if destination.None? then CachePath(oid) else ParsePath(destination.value);
      var src := StorePath(oid);
      if src !in files {
        src := FlatPath(oid);
        if src !in files {
          return Error(oid, DownloadFailed, NotFound);
        }
      }
      var error := CopyFile(src, dst, fault);
      reply := if error.None? then Complete(oid, Some(Render(dst))) else Error(oid, DownloadFailed, error.value);
    }

    method HandleLine(line: Line, fault: CopyFault) returns (reply: Option<Reply>)
      modifies this
      ensures Outcome(reply, files) == Step(old(files), line, fault)
    {
      match Decode(line)
      case None =>
        reply := None;
      case Some(InitRequest(operation)) =>
        var r := HandleInit(operation);
        reply := Some(r);
      case Some(UploadRequest(oid, size, source)) =>
        var r := HandleUpload(oid, size, source, fault);
        reply := Some(r);
      case Some(DownloadRequest(oid, destination)) =>
        var r := HandleDownload(oid, destination, fault);
        reply := Some(r);
      case Some(UnhandledEvent(_)) =>
        reply := None;
    }

    /** `main`: read and dispatch every line until end of input. */
    method Serve(lines: seq<Line>, faults: seq<CopyFault>) returns (replies: seq<Reply>)
      requires |faults| == |lines|
      modifies this
      ensures Transcript(replies, files) == Run(old(files), lines, faults)
    {
      replies := [];
      var i := 0;
      while i < |lines|
        invariant 0 <= i <= |lines|
        invariant var rest := Run(files, lines[i..], faults[i..]);
          Transcript(replies + rest.replies, rest.files) == Run(old(files), lines, faults)
      {
        assert lines[i..][1..] == lines[i + 1..] && faults[i..][1..] == faults[i + 1..];
        var reply := HandleLine(lines[i], faults[i]);
        if reply.Some? {
          replies := replies + [reply.value];
        }
        i := i + 1;
      }
      assert replies + [] == replies;
    }
  }
}
