# A model of a custom large-file transfer agent and its checkout filter

This project models two small programs that share one on-disk blob store:

- the **transfer agent** (`scripts/transfer.py`). It reads one JSON request per line. An
  `init` request is acknowledged. An `upload` copies a working-tree file into the
  content-addressable store at `/tmp/lfs_storage/<oid[0:2]>/<oid[2:4]>/<oid>`. A `download`
  copies an object out of the store. It looks at the sharded location first and at the
  legacy flat location `/tmp/lfs_storage/<oid>` second. The destination is either the
  requested path or the sharded location under `.git/lfs/objects`;
- the **checkout (smudge) filter** (`smudge.py`). It reads a pointer record and takes the
  OID from its first `oid sha256:` line. It prints the blob found at the *flat* location
  for that OID, or the pointer itself when there is no such blob.

The filesystem is a map from paths to byte strings. A path is the sequence of its pathlib
parts. Python's `/` on paths, `Path(s)` and `str(p)` are written out in `Store`: empty and
`.` components are dropped, a component with `/` in it is split, and an absolute one
replaces what came before. Python's clamped slicing (`oid[:2]`, `oid[2:4]`) is written out
too, so short or odd OIDs need no precondition.

A copy can fail, and the environment decides how, through a `CopyFault` input. A copy
either succeeds, fails before the destination is opened for writing, or fails after the
destination was truncated and part of the source was written.

The agent's state is the class `Transfer.TransferAgent`, whose `files` map its handlers
update in place. Each handler is proved equal to a specification function (`Upload`,
`Download`, `Step`, `Run`), and the properties are proved about those functions. The read
loop `Serve` runs over the lines read before end of input and collects the reply lines.
The filter is a pure function from (input text, toggle, store) to (stdout, stderr).

Behaviour of the code that the model keeps as written:

- Every copy opens the destination for writing, which truncates it, before it reads the
  source. A request whose source and destination are the same file therefore leaves that
  file empty and still replies `complete`. This holds for an upload whose `path` is the
  object's own store location, and for a download onto its resolved source.
- A download whose copy fails replies with code 404, not 500.
- A missing `size` silences an upload even though its value is used only in the debug log.
- The agent writes objects only to the sharded location. The filter reads only the flat
  location. So the filter does not see an object the agent has just uploaded
  (`FilterProperties.UploadedObjectMissedByFilter`).

## Model

| member | source | states |
|---|---|---|
| `Store.ParsePath` | scripts/transfer.py:29 | `Path(s)` always gives a well-formed path: an optional anchor, then plain names |
| `Store.Join` | scripts/transfer.py:30 | `p / c` keeps well-formedness and appends a plain name unchanged |
| `Store.Slice` | scripts/transfer.py:30 | Python slicing `s[lo:hi]` clamps both ends to the length: it is `s[lo:hi]` when `hi` fits, `s[lo:]` when only `lo` fits, and empty when `lo` is past the end |
| `Store.Render` | scripts/transfer.py:65 | `str(path)` of the empty path is ".", and the text of any other well-formed path starts with "/" exactly when the path is absolute |
| `Store.RenderParses` | scripts/transfer.py:65 | the text `str(path)` reported in a reply parses back to that same path |
| `Store.SameSharding` | scripts/transfer.py:50-57 | the upload target, the download's first source and the default download destination are the same shard names under the store root or under `.git/lfs/objects`; the flat path is the root plus the OID |
| `Store.StoreLayout` | scripts/transfer.py:30 | for an OID of 4 or more characters without `/`, the store path is `/tmp/lfs_storage/oid[0:2]/oid[2:4]/oid` (as parts and as text), the cache path is the same under `.git/lfs/objects`, and the flat path is `/tmp/lfs_storage/oid` |
| `Store.StorePathInjective` | scripts/transfer.py:30 | different OIDs that are plain names get different store paths |
| `Store.ShardedIsNotFlat` | scripts/transfer.py:55-57 | for any OID that is a plain name, the sharded and flat locations are different paths |
| `Messages.Decode` | scripts/transfer.py:77-79 | both directions: a request is decoded only from a JSON object with an `event` key, and every request carries the fields its handler reads (upload: `oid` and `path` strings and a `size`; download: a string `oid`, and a string `path` exactly when one is present; init: `operation`). Conversely, a line with those fields is decoded to that request, and any other `event` value is decoded as unhandled |
| `Transfer.Copy` | scripts/transfer.py:35-36 | only the destination can change. A copy succeeds iff the source exists and no fault occurs, and the destination then holds the source bytes, or nothing if it is the source. A missing source or an early fault changes nothing. A fault during the write leaves a prefix of the source bytes |
| `Transfer.Upload` | scripts/transfer.py:26-39 | exactly one reply, for this OID, either `complete` or error 500. Only the store path of the OID can change. The reply is `complete` iff the source exists and the copy does not fail, and the store path then holds the source bytes. A missing source changes nothing |
| `Transfer.Destination` | scripts/transfer.py:45-53 | the download target is always well-formed: `Path(path)` when the request names a path, otherwise the OID's shard names under `.git/lfs/objects` |
| `Transfer.Resolve` | scripts/transfer.py:55-58 | the sharded path wins whenever it exists; otherwise the flat path if it exists; nothing iff neither exists |
| `Transfer.Download` | scripts/transfer.py:41-68 | exactly one reply, for this OID, either `complete` or error 404. Only the destination can change. A miss on both paths gives 404 "Object not found" and writes nothing. The reply is `complete` iff the object resolves and the copy does not fail; it then carries `str(destination)`, and the destination holds the resolved bytes |
| `Transfer.Step` | scripts/transfer.py:77-90 | a line gets a reply iff it decodes to an init, upload or download request; a line without a reply changes nothing |
| `Transfer.Run` | scripts/transfer.py:70-90 | the loop produces at most one reply per line read |
| `Transfer.TransferAgent.CopyFile` | scripts/transfer.py:63-64 | opening the source, truncating the destination, reading and writing in that order yields exactly `Copy` of the old state |
| `Transfer.TransferAgent.HandleInit` | scripts/transfer.py:23-24 | the reply is `{event: init, operation: <echoed>, transfers: ["basic"]}` and nothing is modified |
| `Transfer.TransferAgent.HandleUpload` | scripts/transfer.py:26-39 | reply and new filesystem are those of `Upload` on the old filesystem |
| `Transfer.TransferAgent.HandleDownload` | scripts/transfer.py:41-68 | reply and new filesystem are those of `Download` on the old filesystem |
| `Transfer.TransferAgent.HandleLine` | scripts/transfer.py:77-90 | reply and new filesystem are those of `Step` |
| `Transfer.TransferAgent.Serve` | scripts/transfer.py:70-90 | the replies written and the final filesystem are those of `Run` over the lines read before end of input |
| `TransferProperties.InitAcknowledged` | scripts/transfer.py:23-24 | an init line is answered with its operation echoed and `["basic"]`, and the filesystem is unchanged |
| `TransferProperties.UploadLineDispatched` | scripts/transfer.py:26-29 | an `upload` line with a string `oid`, a `size` and a string `path` is handled by the upload handler with exactly that OID and path |
| `TransferProperties.DownloadLineDispatched` | scripts/transfer.py:43-53 | a `download` line with a string `oid` is handled by the download handler, with its `path` when it has one and the object cache otherwise |
| `TransferProperties.UploadSizeIgnored` | scripts/transfer.py:28-36 | two upload lines that differ only in `size` have the same outcome |
| `TransferProperties.UploadWithoutSizeIsSilent` | scripts/transfer.py:28 | an upload line without `size` gets no reply and writes nothing |
| `TransferProperties.UploadIdempotent` | scripts/transfer.py:30-36 | repeating an upload with no fault gives the same reply and leaves the filesystem as one upload did |
| `TransferProperties.UploadThenDownload` | scripts/transfer.py:30-64 | uploading bytes B for an OID and then downloading it, with no other write between, replies `complete` twice and leaves exactly B at the destination |
| `TransferProperties.DownloadMiss` | scripts/transfer.py:55-60 | an OID in neither location gets `{error, oid, 404, "Object not found"}` and nothing is written |
| `TransferProperties.DeliveredPathNamesCopy` | scripts/transfer.py:62-65 | the path in a download's `complete` reply names a file that holds the resolved object's bytes |
| `TransferProperties.RunAnswersEachRequest` | scripts/transfer.py:71-90 | the number of replies equals the number of lines that decode to init, upload or download |
| `TransferProperties.SilentLineIsInert` | scripts/transfer.py:77-90 | an unparsable, incomplete or unknown-event line can be removed from the input without changing the replies or the final filesystem |
| `TransferProperties.UploadKeepsOtherObjects` | scripts/transfer.py:30-36 | for OIDs that are plain names, an upload never adds, removes or changes the stored object of another OID |
| `CheckoutFilter.BreakIndex` | smudge.py:16 | the first line break: no break before it, a break at it |
| `CheckoutFilter.SplitLines` | smudge.py:16 | `splitlines` yields lines that contain no line-break character, and no lines at all exactly for the empty text |
| `CheckoutFilter.SplitLinesCons` | smudge.py:16 | a break-free line followed by a line end (`\r\n`, or any one of the ten break characters, where a `\r` right before `\n` is not a line end on its own) is split off as the first line, and splitting goes on after the line end |
| `CheckoutFilter.SplitLinesLast` | smudge.py:16 | a non-empty text without breaks is one line, so a last line needs no line end |
| `CheckoutFilter.LeadingSpaces` | smudge.py:18 | the whitespace that `strip` removes in front: every character before the count is whitespace, and the one at the count, if any, is not |
| `CheckoutFilter.Strip` | smudge.py:18 | the stripped line is the text between the leading whitespace and a trailing run of whitespace, and it neither starts nor ends with whitespace |
| `CheckoutFilter.Find` | smudge.py:18 | the first occurrence of a separator at or after an index, or none |
| `CheckoutFilter.SecondPiece` | smudge.py:18 | `split(sep)[1]` fails exactly when sep does not occur; otherwise it is the text after the first occurrence, up to the next occurrence or the end, with no occurrence starting inside it |
| `CheckoutFilter.TagInPrefix` | smudge.py:17-18 | stripping a line that starts with `oid sha256:` keeps that prefix, and its first `sha256:` is the one in the prefix |
| `CheckoutFilter.OidField` | smudge.py:18 | the field is the text after `oid sha256:` in the stripped line, up to the next `sha256:` or the end, with no `sha256:` starting inside it |
| `CheckoutFilter.FirstOidLine` | smudge.py:16-17 | the index of the first line that starts with `oid sha256:`: no earlier line does, and the line at the index does (or the index is the number of lines when none does) |
| `CheckoutFilter.FirstOid` | smudge.py:15-19 | None iff no line starts with `oid sha256:`; otherwise the field of the first such line, and later lines are ignored |
| `CheckoutFilter.ExtractOid` | smudge.py:15-19 | the empty text has no OID, and a single line yields its field when it starts with `oid sha256:` and nothing otherwise |
| `CheckoutFilter.ExtractOidCons` | smudge.py:16-19 | for a text made of a first line, a line end and the rest: the first line's field when that line starts with `oid sha256:`, otherwise the OID of the rest |
| `CheckoutFilter.Bypassed` | smudge.py:29-30 | the filter is bypassed exactly when the toggle is set to "1"; an unset toggle reads as "0" |
| `CheckoutFilter.Smudge` | smudge.py:26-51 | toggle exactly "1": input unchanged, empty stderr. No OID or an empty one: input unchanged and "No OID found in pointer file.". Blob at the flat path: exactly its bytes, empty stderr. Otherwise: input unchanged and "Missing object: <oid>". Stdout is always the input or a stored blob, and stderr is empty iff bypassed or the blob was written |
| `FilterProperties.OidLineField` | smudge.py:18 | the field of `oid sha256:<hex>` is exactly the hex OID |
| `FilterProperties.PointerYieldsOid` | smudge.py:15-19 | the OID taken from a standard pointer record is its hex OID, whatever its size line |
| `FilterProperties.PointerResolvesToFlatBlob` | smudge.py:43-47 | with the toggle off, a pointer whose blob is at the flat path is replaced by exactly that blob, with nothing on stderr |
| `FilterProperties.BypassIgnoresStore` | smudge.py:29-33 | in bypass mode the output is the input whatever the store holds |
| `FilterProperties.UploadedObjectMissedByFilter` | smudge.py:43-51 | after the agent uploads an object, the filter still reports it missing and prints the pointer, unless a flat copy already existed |

## Left out

- Logging (`log_debug` and the two log files): they are append-only diagnostics with no effect on replies or stored objects.
- Directory creation (the module-level `mkdir` and the parent-directory `mkdir` calls): directories are implicit. A failure of the `mkdir` outside the `try` block of a download (scripts/transfer.py:51) is not modelled.
- Existence checks see files only. A directory at a probed path counts as absent. For example, the sharded path of the empty OID collapses to the store root, which is a directory.
- JSON text: the parser and `json.dumps` are out. A line is given as unparsable or as a decoded value. JSON numbers are integers, and duplicate keys are assumed already resolved by the parser.
- Error texts: `str(e)` is opaque and comes from the `CopyFault` input. A missing source file gives the fixed text "No such file or directory"; Python's text also names the error number and the path.
- Path details: the POSIX `//` anchor, embedded NUL characters, symbolic links and the working directory. A relative path and an absolute path are different keys even when they name the same file.
- Standard input, standard output and the environment: the lines, the pointer text (already decoded, with universal newlines applied) and the toggle (`None` when unset) are parameters. Failures while writing replies or output are not modelled.
- Concurrency between processes sharing the store: the source takes no locks.
- Hash verification of content against the OID: the source does none.
- `scripts/pre-commit.py`: it only shells out to `git` and prints a warning.
- Transfer.Copy: a write onto a path that is a directory succeeds in the model, whereas `open(..., "wb")` on a directory raises IsADirectoryError in the source. The store path of the OID "" or "." collapses to the store root (scripts/transfer.py:30), so such an upload replies `complete` in the model and error 500 in the source (scripts/transfer.py:35). A download `path` of "" or "." names the working directory, so such a download replies `complete` in the model and error 404 in the source (scripts/transfer.py:63).
- Reading a blob that exists but cannot be opened or read (smudge.py:45-46): that ends the filter with a traceback, and the model treats every present blob as readable.
- The unused `LFS_META_DIR` constant, and the exit status of either program.
