/** The `POST /convert` handler: validates the request, normalises the
    target format, converts the uploaded files one after another into a
    per-request staging folder, answers with that folder as a ZIP archive,
    and removes the uploads and the folder whatever the outcome. */
module ConvertRoute {
  import opened Wrappers
  import opened JsStrings
  import opened NodePath
  import opened Conversion

  const DefaultFormat := "pdf"
  const NoFilesMessage := "No files"

  /** A file multer stored: its path under the uploads folder and the
      client's file name. */
  datatype UploadedFile = UploadedFile(path: string, originalName: string)

  /** The parts of the request the handler reads: `req.files` and `req.body.format`. */
  datatype Request = Request(files: seq<UploadedFile>, format: Option<string>)

  /** The response: 400 with `{"error": "No files"}`, 500 for the thrown error
      with its `errorMessage` (None where the JavaScript engine writes it), or 200
      with a ZIP archive of the given entries. */
  datatype Reply =
    | BadRequest(message: string)
    | ServerError(error: ConvertError, errorMessage: Option<string>)
    | ZipArchive(entries: map<string, Bytes>)

  // ---------------------------------------------------------------------------
  // Format and output names

  /** `(req.body.format || "pdf").toLowerCase()`. */
  function NormalizeFormat(field: Option<string>): (r: string)
    ensures r != ""
    ensures !Truthy(field) ==> r == DefaultFormat
    ensures Truthy(field) ==> |r| == |field.value|
    ensures Truthy(field) ==> forall i | 0 <= i < |r| :: LowerChar(r[i]) == LowerChar(field.value[i])
    ensures forall i | 0 <= i < |r| :: !IsUpperAscii(r[i])
  {
    ToLowerCase(OrElse(field, DefaultFormat))
  }

  /** Normalising a normalised format changes nothing. */
  lemma NormalizeFormatIdempotent(field: Option<string>)
    ensures NormalizeFormat(Some(NormalizeFormat(field))) == NormalizeFormat(field)
  {
    ToLowerCaseIdempotent(OrElse(field, DefaultFormat));
  }

  /** The staging entry for an uploaded file:
      `path.basename(name, path.extname(name)) + "." + format`. */
  function EntryName(originalName: string, format: string): (r: string)
    ensures EndsWith(r, "." + format)
  {
    var stem := BaseName(originalName, ExtName(originalName));
    assert (stem + "." + format)[|stem|..] == "." + format;
    stem + "." + format
  }

  /** An entry name is the last segment of the original name with its
      extension (if any) replaced by "." and the format. */
  lemma EntryNameShape(originalName: string, format: string)
    ensures var r := EntryName(originalName, format);
      && EndsWith(r, "." + format)
      && r[..|r| - |format| - 1] + ExtName(originalName) == LastSegment(originalName)
  {
    StemAndExtension(originalName);
    var stem := BaseName(originalName, ExtName(originalName));
    var r := EntryName(originalName, format);
    assert r == stem + ("." + format);
    assert r[..|stem|] == stem;
  }

  /** The entry names of a request's files, in request order. */
  function EntryNames(files: seq<UploadedFile>, format: string): (r: seq<string>)
    ensures |r| == |files|
    ensures forall i | 0 <= i < |files| :: r[i] == EntryName(files[i].originalName, format)
  {
    seq(|files|, i requires 0 <= i < |files| => EntryName(files[i].originalName, format))
  }

  /** For a plain name whose last dot is at d > 0, the entry name replaces
      everything from that dot on by "." and the format. */
  lemma PlainNameEntry(p: string, d: nat, format: string)
    requires SplitsAt(p, d)
    ensures EntryName(p, format) == p[..d] + "." + format
  {
    PlainNameSplit(p, d);
  }

  /** A file `a.txt` converted to PDF is staged as `a.pdf`. */
  lemma EntryNameReplacesExtension()
    ensures EntryName("a.txt", "pdf") == "a.pdf"
  {
    PlainNameEntry("a.txt", 1, "pdf");
  }

  /** Only the last extension is replaced: `a.tar.gz` becomes `a.tar.zip`. */
  lemma EntryNameReplacesLastExtensionOnly()
    ensures EntryName("a.tar.gz", "zip") == "a.tar.zip"
  {
    PlainNameEntry("a.tar.gz", 5, "zip");
  }

  /** Files that differ only in extension map to one entry (`a.txt` and
      `a.png` both to `a.pdf`), so the later one overwrites the earlier. */
  lemma SameStemSameEntry(p: string, q: string, d: nat, format: string)
    requires SplitsAt(p, d) && SplitsAt(q, d) && p[..d] == q[..d]
    ensures EntryName(p, format) == EntryName(q, format)
  {
    PlainNameEntry(p, d, format);
    PlainNameEntry(q, d, format);
  }

  /** A dot-file such as `.env` keeps its whole name. */
  lemma DotFileEntry(format: string)
    ensures EntryName(".env", format) == ".env." + format
  {
    PlainNameIsLastSegment(".env");
    DotFileHasNoExtension(".env");
  }

  // ---------------------------------------------------------------------------
  // The batch, as a specification

  /** A provider request, tagged with the index of the file it was made for. */
  datatype FileCall = FileCall(file: nat, call: RemoteCall)

  function Tagged(i: nat, calls: seq<RemoteCall>): (r: seq<FileCall>)
    ensures |r| == |calls|
    ensures forall j | 0 <= j < |calls| :: r[j] == FileCall(i, calls[j])
  {
    seq(|calls|, j requires 0 <= j < |calls| => FileCall(i, calls[j]))
  }

  /** Where the batch stands after some files: every conversion so far
      succeeded and `written` holds the staged entries, or the conversion of
      file `failed` threw `error`. `calls` logs the provider requests. */
  datatype BatchOutcome =
    | Done(written: map<string, Bytes>, calls: seq<FileCall>)
    | Aborted(error: ConvertError, failed: nat, calls: seq<FileCall>)

  /** The conversion of each file against its own view of the provider. */
  function Conversions(key: Option<string>, format: string, oracle: nat -> Provider): nat -> Conversion {
    (i: nat) => ConvertOutcome(key, format, oracle(i))
  }

  /** `conversions` gives, for each file index, what `convertFile` does
      against that file's view of the provider. */
  ghost predicate ConvertsWith(conversions: nat -> Conversion, key: Option<string>, format: string, oracle: nat -> Provider) {
    forall i: nat {:trigger ConvertOutcome(key, format, oracle(i))} :: conversions(i) == ConvertOutcome(key, format, oracle(i))
  }

  /** The loop over the first `n` files: each is converted in turn and its bytes
      written under its entry name; the first failure ends the batch. */
  function Batch(names: seq<string>, conversions: nat -> Conversion, n: nat): (r: BatchOutcome)
    requires n <= |names|
    ensures r.Aborted? ==> r.failed < n && conversions(r.failed).result == Failure(r.error)
  {
    if n == 0 then Done(map[], [])
    else match Batch(names, conversions, n - 1)
      case Aborted(e, k, calls) => Aborted(e, k, calls)
      case Done(written, calls) =>
        var c := conversions(n - 1);
        var calls' := calls + Tagged(n - 1, c.calls);
        match c.result
        case Failure(e) => Aborted(e, n - 1, calls')
        case Success(data) => Done(written[names[n - 1] := data], calls')
  }

  /** Once aborted, the batch stays aborted with the same error and log. */
  lemma {:induction false} BatchAbortSticks(names: seq<string>, conversions: nat -> Conversion, k: nat, n: nat)
    requires k <= n <= |names|
    requires Batch(names, conversions, k).Aborted?
    ensures Batch(names, conversions, n) == Batch(names, conversions, k)
    decreases n
  {
    if n > k {
      BatchAbortSticks(names, conversions, k, n - 1);
    }
  }

  /** The batch completes exactly when every file's conversion succeeds. */
  lemma {:induction false} BatchDoneIff(names: seq<string>, conversions: nat -> Conversion, n: nat)
    requires n <= |names|
    ensures Batch(names, conversions, n).Done? <==>
      forall i | 0 <= i < n :: conversions(i).result.Success?
  {
    if n > 0 {
      BatchDoneIff(names, conversions, n - 1);
    }
  }

  /** An aborted batch stopped at its first failing file: all earlier files
      converted, the failing file's error is the batch's, and no request was
      made for any later file. */
  lemma {:induction false} BatchStopsAtFirstFailure(names: seq<string>, conversions: nat -> Conversion, n: nat)
    requires n <= |names|
    requires Batch(names, conversions, n).Aborted?
    ensures var out := Batch(names, conversions, n);
      && out.failed < n
      && conversions(out.failed).result == Failure(out.error)
      && (forall j | 0 <= j < out.failed :: conversions(j).result.Success?)
      && (forall c | c in out.calls :: c.file <= out.failed)
  {
    var prev := Batch(names, conversions, n - 1);
    if prev.Aborted? {
      BatchStopsAtFirstFailure(names, conversions, n - 1);
    } else {
      BatchDoneIff(names, conversions, n - 1);
      BatchCallsBelow(names, conversions, n - 1);
    }
  }

  /** The requests of a completed prefix of `n` files all belong to those files,
      in request order. */
  lemma {:induction false} BatchCallsBelow(names: seq<string>, conversions: nat -> Conversion, n: nat)
    requires n <= |names|
    requires Batch(names, conversions, n).Done?
    ensures var calls := Batch(names, conversions, n).calls;
      forall c | c in calls :: c.file < n
  {
    if n > 0 {
      BatchCallsBelow(names, conversions, n - 1);
    }
  }

  /** Files are converted in request order: the file index never decreases
      along the log of provider requests. */
  lemma {:induction false} BatchCallsInRequestOrder(names: seq<string>, conversions: nat -> Conversion, n: nat)
    requires n <= |names|
    ensures var calls := Batch(names, conversions, n).calls;
      forall a, b | 0 <= a < b < |calls| :: calls[a].file <= calls[b].file
  {
    if n > 0 {
      var prev := Batch(names, conversions, n - 1);
      BatchCallsInRequestOrder(names, conversions, n - 1);
      if prev.Done? {
        BatchCallsBelow(names, conversions, n - 1);
        var calls := Batch(names, conversions, n).calls;
        var tail := Tagged(n - 1, conversions(n - 1).calls);
        assert calls == prev.calls + tail;
        forall a, b | 0 <= a < b < |calls| ensures calls[a].file <= calls[b].file {
          if b >= |prev.calls| {
            assert calls[b] == tail[b - |prev.calls|];
            if a < |prev.calls| {
              assert calls[a] in prev.calls;
            }
          }
        }
      }
    }
  }

  /** A completed batch stages exactly one entry per derived name. */
  lemma {:induction false} BatchWrittenNames(names: seq<string>, conversions: nat -> Conversion, n: nat)
    requires n <= |names|
    requires Batch(names, conversions, n).Done?
    ensures Batch(names, conversions, n).written.Keys ==
      set j | 0 <= j < n :: names[j]
  {
    if n > 0 {
      BatchWrittenNames(names, conversions, n - 1);
    }
  }

  /** Each staged entry holds the bytes of the last file with that entry name. */
  lemma {:induction false} BatchLastWriterWins(names: seq<string>, conversions: nat -> Conversion, n: nat, j: nat)
    requires j < n <= |names|
    requires Batch(names, conversions, n).Done?
    requires forall m | j < m < n :: names[m] != names[j]
    ensures var written := Batch(names, conversions, n).written;
      && names[j] in written
      && conversions(j).result.Success?
      && written[names[j]] == conversions(j).result.value
  {
    BatchDoneIff(names, conversions, n);
    if j < n - 1 {
      BatchLastWriterWins(names, conversions, n - 1, j);
    }
  }

  /** The names derived from a request's files are the entry names of
      those files, each ending with "." and the format. */
  lemma EntryNamesOfRequest(files: seq<UploadedFile>, format: string)
    ensures var names := EntryNames(files, format);
      && (set j | 0 <= j < |files| :: names[j]) == (set f | f in files :: EntryName(f.originalName, format))
      && forall j | 0 <= j < |files| :: EndsWith(names[j], "." + format)
  {
    var names := EntryNames(files, format);
    forall j | 0 <= j < |files| ensures EndsWith(names[j], "." + format) {
      EntryNameShape(files[j].originalName, format);
    }
    var staged := set j | 0 <= j < |files| :: names[j];
    forall name | name in staged ensures name in (set f | f in files :: EntryName(f.originalName, format)) {
      var j :| 0 <= j < |files| && name == names[j];
      assert files[j] in files;
    }
    forall f | f in files ensures EntryName(f.originalName, format) in staged {
      var j :| 0 <= j < |files| && files[j] == f;
      assert names[j] == EntryName(f.originalName, format);
    }
  }

  /** The entries a completed batch stages for a request are exactly the
      entry names of its files, and each ends with "." and the format. */
  lemma StagedEntriesOfRequest(files: seq<UploadedFile>, format: string, conversions: nat -> Conversion)
    requires Batch(EntryNames(files, format), conversions, |files|).Done?
    ensures var written := Batch(EntryNames(files, format), conversions, |files|).written;
      && written.Keys == (set f | f in files :: EntryName(f.originalName, format))
      && forall name | name in written :: EndsWith(name, "." + format)
  {
    var names := EntryNames(files, format);
    BatchWrittenNames(names, conversions, |files|);
    EntryNamesOfRequest(files, format);
  }

  /** When the derived names are pairwise distinct, the staging folder holds one
      entry per uploaded file. */
  lemma {:induction false} DistinctNamesOneEntryEach(names: seq<string>, conversions: nat -> Conversion, n: nat)
    requires n <= |names|
    requires Batch(names, conversions, n).Done?
    requires forall a, b | 0 <= a < b < n :: names[a] != names[b]
    ensures |Batch(names, conversions, n).written| == n
  {
    if n > 0 {
      DistinctNamesOneEntryEach(names, conversions, n - 1);
      BatchWrittenNames(names, conversions, n - 1);
      var name := names[n - 1];
      assert name !in Batch(names, conversions, n - 1).written;
    }
  }

  /** A first creation reply whose message mentions credits stops the batch
      at the first file, after its creation request alone; the 500 reply then
      carries the fixed out-of-credits message. */
  lemma OutOfCreditsReply(names: seq<string>, key: Option<string>, format: string, oracle: nat -> Provider, n: nat, m: string)
    requires 0 < n <= |names|
    requires Truthy(key) && oracle(0).create == Rejected(Some(m)) && Includes(m, CreditsMarker)
    ensures var out := Batch(names, Conversions(key, format, oracle), n);
      && out == Aborted(OutOfCredits, 0, [FileCall(0, CreateJob(format))])
      && ErrorMessage(out.error) == Some(OutOfCreditsMessage)
  {
    var conversions := Conversions(key, format, oracle);
    RejectedCreationFails(key, format, oracle(0));
    assert conversions(0) == Conversion(Failure(OutOfCredits), [CreateJob(format)]);
    assert Batch(names, conversions, 1) == Aborted(OutOfCredits, 0, [FileCall(0, CreateJob(format))]);
    BatchAbortSticks(names, conversions, 1, n);
  }

  // ---------------------------------------------------------------------------
  // The filesystem and the handler

  /** The entries a staging folder has once `fs.ensureDirSync` returns: its
      existing entries, or none when it is created. */
  function EnsuredFolder(folders: map<string, map<string, Bytes>>, dir: string): (r: map<string, Bytes>)
    ensures dir !in folders ==> r == map[]
  {
    if dir in folders then folders[dir] else map[]
  }

  function UploadPaths(files: seq<UploadedFile>): set<string> {
    set f | f in files :: f.path
  }

  lemma UploadPathsGrow(files: seq<UploadedFile>, i: nat)
    requires i < |files|
    ensures UploadPaths(files[..i + 1]) == UploadPaths(files[..i]) + {files[i].path}
  {
    assert files[..i + 1] == files[..i] + [files[i]];
  }

  /** The server's two scratch areas: the upload paths present under the
      uploads folder, and each staging folder under the output folder with its
      entries. */
  class Storage {
    var uploads: set<string>
    var folders: map<string, map<string, Bytes>>

    constructor (uploads: set<string>, folders: map<string, map<string, Bytes>>)
      ensures this.uploads == uploads && this.folders == folders
    {
      this.uploads := uploads;
      this.folders := folders;
    }

    /** `fs.ensureDirSync(dir)`. */
    method EnsureDir(dir: string)
      modifies this
      ensures folders == old(folders)[dir := EnsuredFolder(old(folders), dir)]
      ensures uploads == old(uploads)
    {
      folders := folders[dir := EnsuredFolder(folders, dir)];
    }

    /** `fs.writeFile(path.join(dir, name), data)`: adds or replaces one entry. */
    method WriteFile(dir: string, name: string, data: Bytes)
      requires dir in folders
      modifies this
      ensures folders == old(folders)[dir := old(folders)[dir][name := data]]
      ensures uploads == old(uploads)
    {
      folders := folders[dir := folders[dir][name := data]];
    }

    /** `fs.remove(path)` on an upload; removing a missing path does nothing. */
    method RemoveUpload(path: string)
      modifies this
      ensures uploads == old(uploads) - {path}
      ensures folders == old(folders)
    {
      uploads := uploads - {path};
    }

    /** `fs.remove(dir)` on a staging folder and everything in it. */
    method RemoveFolder(dir: string)
      modifies this
      ensures folders == old(folders) - {dir}
      ensures uploads == old(uploads)
    {
      folders := folders - {dir};
    }
  }

  /** `req.files?.forEach(f => fs.remove(f.path))` in the error handler. */
  method RemoveUploads(storage: Storage, files: seq<UploadedFile>)
    modifies storage
    ensures storage.uploads == old(storage.uploads) - UploadPaths(files)
    ensures storage.folders == old(storage.folders)
  {
    for i := 0 to |files|
      invariant storage.uploads == old(storage.uploads) - UploadPaths(files[..i])
      invariant storage.folders == old(storage.folders)
    {
      UploadPathsGrow(files, i);
      storage.RemoveUpload(files[i].path);
    }
    assert files[..|files|] == files;
  }

  /** The loop of `POST /convert`: file i is converted against `oracle(i)`
      and its bytes written under `names[i]` in `jobFolder`, and its upload
      removed; the first failure stops the loop. Returns the error of the
      failing file, if any. */
  method StageFiles(storage: Storage, files: seq<UploadedFile>, names: seq<string>, key: Option<string>,
                    format: string, oracle: nat -> Provider, jobFolder: string, ghost conversions: nat -> Conversion)
      returns (failure: Option<ConvertError>, calls: seq<FileCall>)
    requires |names| == |files|
    requires ConvertsWith(conversions, key, format, oracle)
    requires jobFolder in storage.folders
    modifies storage
    ensures var out := Batch(names, conversions, |files|);
      && calls == out.calls
      && (failure.None? <==> out.Done?)
      && (out.Aborted? ==> failure == Some(out.error))
      && (out.Done? ==> storage.folders == old(storage.folders)[jobFolder := old(storage.folders)[jobFolder] + out.written])
      && (out.Done? ==> storage.uploads == old(storage.uploads) - UploadPaths(files))
      && (out.Aborted? ==> out.failed < |files| && storage.uploads == old(storage.uploads) - UploadPaths(files[..out.failed]))
      && (out.Aborted? ==>
            Batch(names, conversions, out.failed).Done? &&
            storage.folders == old(storage.folders)[jobFolder := old(storage.folders)[jobFolder] + Batch(names, conversions, out.failed).written])
      && jobFolder in storage.folders
      && storage.folders - {jobFolder} == old(storage.folders) - {jobFolder}
  {
    ghost var base := storage.folders[jobFolder];
    assert base + Batch(names, conversions, 0).written == base;
    calls := [];
    for i := 0 to |files|
      invariant Batch(names, conversions, i).Done?
      invariant calls == Batch(names, conversions, i).calls
      invariant storage.folders == old(storage.folders)[jobFolder := base + Batch(names, conversions, i).written]
      invariant storage.uploads == old(storage.uploads) - UploadPaths(files[..i])
    {
      var error, sent := StageFile(storage, files, names, i, key, format, oracle, jobFolder, conversions, base);
      calls := calls + Tagged(i, sent);
      if error.Some? {
        BatchAbortSticks(names, conversions, i + 1, |files|);
        ghost var out := Batch(names, conversions, |files|);
        assert out.failed == i;
        assert storage.folders == old(storage.folders)[jobFolder := base + Batch(names, conversions, i).written];
        return error, calls;
      }
      UploadPathsGrow(files, i);
    }
    assert files[..|files|] == files;
    return None, calls;
  }

  /** One pass of the loop: converts file i and, on success, writes its
      bytes under `names[i]` and removes its upload. */
  method StageFile(storage: Storage, files: seq<UploadedFile>, names: seq<string>, i: nat, key: Option<string>,
                   format: string, oracle: nat -> Provider, jobFolder: string,
                   ghost conversions: nat -> Conversion, ghost base: map<string, Bytes>)
      returns (error: Option<ConvertError>, sent: seq<RemoteCall>)
    requires i < |names| == |files|
    requires ConvertsWith(conversions, key, format, oracle)
    requires Batch(names, conversions, i).Done?
    requires jobFolder in storage.folders && storage.folders[jobFolder] == base + Batch(names, conversions, i).written
    modifies storage
    ensures var out := Batch(names, conversions, i + 1);
      && (error.None? <==> out.Done?)
      && (out.Aborted? ==> error == Some(out.error) && out.failed == i)
      && out.calls == Batch(names, conversions, i).calls + Tagged(i, sent)
      && (out.Aborted? ==> unchanged(storage))
      && (out.Done? ==> storage.folders == old(storage.folders)[jobFolder := base + out.written])
      && (out.Done? ==> storage.uploads == old(storage.uploads) - {files[i].path})
  {
    var conversion := ConvertFile(key, format, oracle(i));
    sent := conversion.calls;
    match conversion.result
    case Failure(e) =>
      error := Some(e);
    case Success(data) =>
      assert (base + Batch(names, conversions, i).written)[names[i] := data] == base + Batch(names, conversions, i + 1).written;
      storage.WriteFile(jobFolder, names[i], data);
      storage.RemoveUpload(files[i].path);
      error := None;
  }

  /** The `try` block after validation, and its `catch`: stages every file
      in `jobFolder`, then streams the folder as the archive and removes it
      once sent; on the first failure removes the uploads and the folder and
      replies with the error. */
  method ConvertAndArchive(storage: Storage, files: seq<UploadedFile>, names: seq<string>, key: Option<string>,
                           format: string, oracle: nat -> Provider, jobFolder: string, ghost conversions: nat -> Conversion)
      returns (reply: Reply, calls: seq<FileCall>)
    requires |names| == |files|
    requires ConvertsWith(conversions, key, format, oracle)
    modifies storage
    ensures var out := Batch(names, conversions, |files|);
      && calls == out.calls
      && reply == (if out.Done? then ZipArchive(EnsuredFolder(old(storage.folders), jobFolder) + out.written)
                   else ServerError(out.error, ErrorMessage(out.error)))
      && storage.uploads == old(storage.uploads) - UploadPaths(files)
      && storage.folders == old(storage.folders) - {jobFolder}
  {
    storage.EnsureDir(jobFolder);
    ghost var out := Batch(names, conversions, |files|);
    var failure;
    failure, calls := StageFiles(storage, files, names, key, format, oracle, jobFolder, conversions);
    if failure.Some? {
      // The catch block: headers are only sent once the archive streams, after
      // the loop, so the 500 reply is always possible here.
      assert out.Aborted? && failure.value == out.error;
      RemoveUploads(storage, files);
      storage.RemoveFolder(jobFolder);
      assert storage.folders == old(storage.folders) - {jobFolder};
      assert UploadPaths(files[..out.failed]) <= UploadPaths(files);
      reply := ServerError(failure.value, ErrorMessage(failure.value));
    } else {
      assert out.Done?;
      reply := ZipArchive(storage.folders[jobFolder]);
      storage.RemoveFolder(jobFolder);
    }
  }

  /** `POST /convert`. `jobFolder` is the staging folder named from the clock,
      `key` the configured API key and `oracle(i)` the provider as seen by the
      conversion of file i. A request without files is refused with 400;
      otherwise the reply is the archive of the converted files or the error
      of the first file that failed, and the uploads and the staging folder
      are gone afterwards. */
  method HandleConvert(storage: Storage, req: Request, key: Option<string>, oracle: nat -> Provider, jobFolder: string)
      returns (reply: Reply, calls: seq<FileCall>)
    modifies storage
    ensures |req.files| == 0 ==>
      && reply == BadRequest(NoFilesMessage) && calls == []
      && storage.uploads == old(storage.uploads) && storage.folders == old(storage.folders)
    ensures |req.files| > 0 ==>
      var format := NormalizeFormat(req.format);
      var out := Batch(EntryNames(req.files, format), Conversions(key, format, oracle), |req.files|);
      && calls == out.calls
      && reply == (if out.Done? then ZipArchive(EnsuredFolder(old(storage.folders), jobFolder) + out.written)
                   else ServerError(out.error, ErrorMessage(out.error)))
      && storage.uploads == old(storage.uploads) - UploadPaths(req.files)
      && storage.folders == old(storage.folders) - {jobFolder}
  {
    if |req.files| == 0 {
      return BadRequest(NoFilesMessage), [];
    }
    var format := NormalizeFormat(req.format);
    var names := EntryNames(req.files, format);
    reply, calls := ConvertAndArchive(storage, req.files, names, key, format, oracle, jobFolder, Conversions(key, format, oracle));
  }
}
