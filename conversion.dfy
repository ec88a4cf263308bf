/** `convertFile(inputPath, format)`: converts one uploaded file through the
    CloudConvert job protocol (create a job, upload the source, poll the job,
    download the export). The provider's replies are an oracle, and every
    request sent to it is recorded in a log, so that the model can say which
    requests happen and in which order. */
module Conversion {
  import opened Wrappers
  import opened JsStrings

  newtype byte = x: int | 0 <= x < 256
  type Bytes = seq<byte>

  /** The poll loop's budget of status fetches. */
  const MaxPolls := 60

  const UploadOperation := "import/upload"
  const ExportOperation := "export/url"
  const FinishedStatus := "finished"
  const ErrorStatus := "error"
  const CreditsMarker := "credits"

  const MissingKeyMessage := "API key not found in .env file"
  const OutOfCreditsMessage := "Out of CloudConvert credits. Check your account at cloudconvert.com/dashboard"
  const JobCreationFailedMessage := "Job creation failed"
  const UploadFailedMessage := "Upload failed"
  const ConversionFailedMessage := "Conversion failed"

  /** Where and how the import task wants the source file posted. */
  datatype UploadForm = UploadForm(url: string, parameters: seq<(string, string)>)
  datatype FileRef = FileRef(url: string)
  /** A task's `result`: an upload form (import task) and exported files (export task). */
  datatype TaskResult = TaskResult(form: Option<UploadForm>, files: seq<FileRef>)
  datatype Task = Task(operation: string, result: Option<TaskResult>)
  /** The `data` of a job, at creation and at each status fetch. */
  datatype Job = Job(id: string, status: string, tasks: seq<Task>)

  /** The reply to the job-creation request: a job, or no `data` and perhaps a `message`. */
  datatype CreateReply = Created(job: Job) | Rejected(message: Option<string>)

  /** The outcome of `form.submit`: a transport error, or a response with a status code. */
  datatype UploadReply = TransportError(message: string) | Responded(statusCode: int)

  /** The provider as seen by one `convertFile` call. `statusAt(i)` is the job's
      `data` returned by the i-th status fetch (counting from 0); `download(url)`
      is the body fetched from `url`, or None when that fetch rejects. */
  datatype Provider = Provider(
    create: CreateReply,
    upload: UploadReply,
    statusAt: nat -> Job,
    download: string -> Option<Bytes>)

  /** A request sent to the provider. */
  datatype RemoteCall =
    | CreateJob(outputFormat: string)
    | SubmitUpload(url: string, fieldNames: seq<string>)
    | FetchStatus(jobId: string, attempt: nat)
    | Download(url: string)

  /** The errors `convertFile` throws. NoUploadTarget and NoExportUrl are the
      TypeErrors JavaScript raises when a looked-up task, result or file is
      missing; their text comes from the JavaScript engine. */
  datatype ConvertError =
    | MissingApiKey
    | OutOfCredits
    | JobRejected(message: string)
    | NoUploadTarget
    | UploadFailed(message: string)
    | ConversionFailed
    | NoExportUrl
    | DownloadFailed

  /** The `message` of the thrown error, where the server fixes it. */
  function ErrorMessage(e: ConvertError): (r: Option<string>)
    ensures r.None? <==> e in {NoUploadTarget, NoExportUrl, DownloadFailed}
    ensures e == MissingApiKey ==> r == Some(MissingKeyMessage)
    ensures e == OutOfCredits ==> r == Some(OutOfCreditsMessage)
    ensures e == ConversionFailed ==> r == Some(ConversionFailedMessage)
    ensures e.JobRejected? || e.UploadFailed? ==> r == Some(e.message)
  {
    match e
    case MissingApiKey => Some(MissingKeyMessage)
    case OutOfCredits => Some(OutOfCreditsMessage)
    case JobRejected(m) => Some(m)
    case NoUploadTarget => None
    case UploadFailed(m) => Some(m)
    case ConversionFailed => Some(ConversionFailedMessage)
    case NoExportUrl => None
    case DownloadFailed => None
  }

  /** What one `convertFile` call produced and which requests it sent, in order. */
  datatype Conversion = Conversion(result: Result<Bytes, ConvertError>, calls: seq<RemoteCall>)

  // ---------------------------------------------------------------------------
  // Job creation

  /** The error thrown for a creation reply without `data`: the provider's
      message, or "Job creation failed" when it has none, except that a message
      mentioning credits becomes the fixed out-of-credits error. */
  function ClassifyRejection(message: Option<string>): (e: ConvertError)
    ensures e == OutOfCredits || e.JobRejected?
    ensures Truthy(message) ==> (e == OutOfCredits <==> Includes(message.value, CreditsMarker))
    ensures Truthy(message) && !Includes(message.value, CreditsMarker) ==> e == JobRejected(message.value)
    ensures !Truthy(message) ==> e == JobRejected(JobCreationFailedMessage)
  {
    DefaultMessageLacksCredits();
    var msg := OrElse(message, JobCreationFailedMessage);
    if Includes(msg, CreditsMarker) then OutOfCredits else JobRejected(msg)
  }

  /** "Job creation failed" does not mention credits (it has no 's'). */
  lemma DefaultMessageLacksCredits()
    ensures !Includes(JobCreationFailedMessage, CreditsMarker)
  {
    assert CreditsMarker[6] == 's';
    MissingCharExcludes(JobCreationFailedMessage, CreditsMarker, 6);
  }

  // ---------------------------------------------------------------------------
  // Task lookup and upload

  /** `tasks.findIndex(t => t.operation === op)`, as an option. */
  function FindTask(tasks: seq<Task>, op: string): (r: Option<nat>)
    ensures r.Some? ==> r.value < |tasks| && tasks[r.value].operation == op
    ensures r.Some? ==> forall j | 0 <= j < r.value :: tasks[j].operation != op
    ensures r.None? ==> forall j | 0 <= j < |tasks| :: tasks[j].operation != op
  {
    if tasks == [] then None
    else if tasks[0].operation == op then Some(0)
    else match FindTask(tasks[1..], op)
      case None => None
      case Some(i) => Some(i + 1)
  }

  /** Task i is the first of `tasks` with operation `op`, the one `find` returns. */
  predicate FirstWith(tasks: seq<Task>, op: string, i: int) {
    0 <= i < |tasks| && tasks[i].operation == op && forall j | 0 <= j < i :: tasks[j].operation != op
  }

  /** The upload form of the job's first import task; None where reading
      `uploadTask.result.form` would throw. */
  function UploadTarget(job: Job): (r: Option<UploadForm>)
    ensures r.Some? ==> exists i :: (FirstWith(job.tasks, UploadOperation, i) &&
      job.tasks[i].result.Some? && job.tasks[i].result.value.form == r)
    ensures forall i | FirstWith(job.tasks, UploadOperation, i) ::
      job.tasks[i].result.Some? && job.tasks[i].result.value.form.Some? ==> r == job.tasks[i].result.value.form
  {
    match FindTask(job.tasks, UploadOperation)
    case None => None
    case Some(i) => if job.tasks[i].result.Some? then job.tasks[i].result.value.form else None
  }

  /** The field names of the multipart upload: the form's parameters, in order, then "file". */
  function FormFieldNames(form: UploadForm): (r: seq<string>)
    ensures |r| == |form.parameters| + 1 && r[|r| - 1] == "file"
    ensures forall i | 0 <= i < |form.parameters| :: r[i] == form.parameters[i].0
  {
    seq(|form.parameters|, i requires 0 <= i < |form.parameters| => form.parameters[i].0) + ["file"]
  }

  /** The error of an upload submission, or None when it is accepted: a
      transport error is rethrown, a status of 400 or more fails with
      "Upload failed". */
  function UploadError(reply: UploadReply): (r: Option<ConvertError>)
    ensures r.None? <==> reply.Responded? && reply.statusCode < 400
    ensures r.Some? ==> r.value.UploadFailed?
    ensures reply.TransportError? ==> r == Some(UploadFailed(reply.message))
    ensures reply.Responded? && reply.statusCode >= 400 ==> r == Some(UploadFailed(UploadFailedMessage))
  {
    match reply
    case TransportError(m) => Some(UploadFailed(m))
    case Responded(code) => if code >= 400 then Some(UploadFailed(UploadFailedMessage)) else None
  }

  // ---------------------------------------------------------------------------
  // Polling

  predicate IsTerminal(s: Job) {
    s.status == FinishedStatus || s.status == ErrorStatus
  }

  /** How the poll loop ends: at a "finished" status, at an "error" status, or
      with the budget spent and the last status seen. */
  datatype PollOutcome = Finished(last: Job) | Failed | Exhausted(last: Job)

  /** The loop's outcome and the number of status fetches it made. */
  datatype PollResult = PollResult(outcome: PollOutcome, attempts: nat)

  /** The poll loop from attempt `i` on. */
  function PollFrom(statusAt: nat -> Job, i: nat): (r: PollResult)
    requires i < MaxPolls
    ensures i < r.attempts <= MaxPolls
    decreases MaxPolls - i
  {
    var s := statusAt(i);
    if s.status == FinishedStatus then PollResult(Finished(s), i + 1)
    else if s.status == ErrorStatus then PollResult(Failed, i + 1)
    else if i + 1 == MaxPolls then PollResult(Exhausted(s), MaxPolls)
    else PollFrom(statusAt, i + 1)
  }

  /** The poll loop stops at the first terminal status among the fetches it may
      make: it ends "finished" or "error" exactly when that status is the last
      one fetched, and otherwise has spent all MaxPolls fetches. */
  lemma {:induction false} PollFromSpec(statusAt: nat -> Job, i: nat)
    requires i < MaxPolls
    ensures var r := PollFrom(statusAt, i);
      && i < r.attempts <= MaxPolls
      && (forall j | i <= j < r.attempts - 1 :: !IsTerminal(statusAt(j)))
      && (r.outcome.Finished? <==> statusAt(r.attempts - 1).status == FinishedStatus)
      && (r.outcome.Failed? <==> statusAt(r.attempts - 1).status == ErrorStatus)
      && (r.outcome.Exhausted? ==> r.attempts == MaxPolls)
      && (!r.outcome.Failed? ==> r.outcome.last == statusAt(r.attempts - 1))
    decreases MaxPolls - i
  {
    var s := statusAt(i);
    if !IsTerminal(s) && i + 1 < MaxPolls {
      PollFromSpec(statusAt, i + 1);
    }
  }

  /** Fetches with a non-terminal status do not change where the loop ends. */
  lemma {:induction false} PollSkip(statusAt: nat -> Job, k: nat)
    requires k < MaxPolls
    requires forall j | 0 <= j < k :: !IsTerminal(statusAt(j))
    ensures PollFrom(statusAt, 0) == PollFrom(statusAt, k)
  {
    var j := k;
    while j > 0
      invariant 0 <= j <= k
      invariant PollFrom(statusAt, j) == PollFrom(statusAt, k)
    {
      j := j - 1;
      assert !IsTerminal(statusAt(j));
    }
  }

  /** The loop's result is fixed by the first terminal status: a first
      terminal status at attempt k ends the loop after k + 1 fetches, and
      MaxPolls non-terminal statuses leave it exhausted with the last of them. */
  lemma PollFirstTerminal(statusAt: nat -> Job, k: nat)
    requires k < MaxPolls
    requires forall j | 0 <= j < k :: !IsTerminal(statusAt(j))
    ensures IsTerminal(statusAt(k)) ==> PollFrom(statusAt, 0).attempts == k + 1
    ensures statusAt(k).status == ErrorStatus ==> PollFrom(statusAt, 0) == PollResult(Failed, k + 1)
    ensures statusAt(k).status == FinishedStatus ==> PollFrom(statusAt, 0) == PollResult(Finished(statusAt(k)), k + 1)
    ensures k == MaxPolls - 1 && !IsTerminal(statusAt(k)) ==>
      PollFrom(statusAt, 0) == PollResult(Exhausted(statusAt(k)), MaxPolls)
  {
    PollSkip(statusAt, k);
  }

  /** The poll loop of `convertFile`: up to MaxPolls fetches (two seconds apart
      in the server, a spacing not modelled here), leaving the loop at the first
      "finished" status and throwing at the first "error" status. */
  method Poll(statusAt: nat -> Job) returns (r: PollResult)
    ensures r == PollFrom(statusAt, 0)
  {
    var status: Option<Job> := None;
    var i := 0;
    while i < MaxPolls
      invariant 0 <= i <= MaxPolls
      invariant forall j | 0 <= j < i :: !IsTerminal(statusAt(j))
      invariant i == 0 <==> status.None?
      invariant 0 < i ==> status == Some(statusAt(i - 1))
    {
      var s := statusAt(i);
      status := Some(s);
      if s.status == FinishedStatus {
        PollSkip(statusAt, i);
        return PollResult(Finished(s), i + 1);
      }
      if s.status == ErrorStatus {
        PollSkip(statusAt, i);
        return PollResult(Failed, i + 1);
      }
      i := i + 1;
    }
    PollSkip(statusAt, MaxPolls - 1);
    r := PollResult(Exhausted(status.value), MaxPolls);
  }

  // ---------------------------------------------------------------------------
  // Download

  /** `status.tasks.find(t => t.operation === "export/url").result.files[0].url`;
      None where that expression would throw. */
  function ExportUrl(s: Job): (r: Option<string>)
    ensures r.Some? ==> exists i :: (FirstWith(s.tasks, ExportOperation, i) && s.tasks[i].result.Some? &&
      |s.tasks[i].result.value.files| > 0 && s.tasks[i].result.value.files[0].url == r.value)
    ensures forall i | FirstWith(s.tasks, ExportOperation, i) ::
      s.tasks[i].result.Some? && |s.tasks[i].result.value.files| > 0 ==> r == Some(s.tasks[i].result.value.files[0].url)
  {
    match FindTask(s.tasks, ExportOperation)
    case None => None
    case Some(i) =>
      if s.tasks[i].result.Some? && |s.tasks[i].result.value.files| > 0
      then Some(s.tasks[i].result.value.files[0].url)
      else None
  }

  /** The status fetches the poll loop sends, attempts 0 to n - 1. */
  function StatusFetches(jobId: string, n: nat): (r: seq<RemoteCall>)
    ensures |r| == n
    ensures forall j | 0 <= j < n :: r[j] == FetchStatus(jobId, j)
  {
    seq(n, j requires 0 <= j < n => FetchStatus(jobId, j))
  }

  /** The download step, run on the status the loop ended with. */
  function DownloadFrom(s: Job, p: Provider, sent: seq<RemoteCall>): (c: Conversion)
    ensures c.result.Success? ==> ExportUrl(s).Some? && c.calls == sent + [Download(ExportUrl(s).value)]
    ensures c.result.Success? ==> p.download(ExportUrl(s).value) == Some(c.result.value)
    ensures c.result.Failure? ==> c.result.error in {NoExportUrl, DownloadFailed}
    ensures ExportUrl(s).None? ==> c == Conversion(Failure(NoExportUrl), sent)
    ensures ExportUrl(s).Some? ==>
      c.calls == sent + [Download(ExportUrl(s).value)] && (c.result.Success? <==> p.download(ExportUrl(s).value).Some?)
    ensures ExportUrl(s).Some? && c.result.Failure? ==> c.result.error == DownloadFailed
  {
    match ExportUrl(s)
    case None => Conversion(Failure(NoExportUrl), sent)
    case Some(url) =>
      match p.download(url)
      case None => Conversion(Failure(DownloadFailed), sent + [Download(url)])
      case Some(b) => Conversion(Success(b), sent + [Download(url)])
  }

  // ---------------------------------------------------------------------------
  // The whole call

  /** What `convertFile` does with a given API key, target format and provider. */
  function ConvertOutcome(key: Option<string>, format: string, p: Provider): (c: Conversion)
    ensures !Truthy(key) <==> c.calls == []
    ensures c.calls != [] ==> c.calls[0] == CreateJob(format)
  {
    if !Truthy(key) then Conversion(Failure(MissingApiKey), [])
    else
      var created := [CreateJob(format)];
      match p.create
      case Rejected(m) => Conversion(Failure(ClassifyRejection(m)), created)
      case Created(job) =>
        match UploadTarget(job)
        case None => Conversion(Failure(NoUploadTarget), created)
        case Some(form) =>
          var submitted := created + [SubmitUpload(form.url, FormFieldNames(form))];
          match UploadError(p.upload)
          case Some(e) => Conversion(Failure(e), submitted)
          case None =>
            var poll := PollFrom(p.statusAt, 0);
            var polled := submitted + StatusFetches(job.id, poll.attempts);
            match poll.outcome
            case Failed => Conversion(Failure(ConversionFailed), polled)
            case Finished(s) => DownloadFrom(s, p, polled)
            case Exhausted(s) => DownloadFrom(s, p, polled)
  }

  /** `convertFile(inputPath, format)` against the provider `p`. */
  method ConvertFile(key: Option<string>, format: string, p: Provider) returns (c: Conversion)
    ensures c == ConvertOutcome(key, format, p)
  {
    if !Truthy(key) {
      return Conversion(Failure(MissingApiKey), []);
    }
    var calls := [CreateJob(format)];
    if p.create.Rejected? {
      return Conversion(Failure(ClassifyRejection(p.create.message)), calls);
    }
    var job := p.create.job;
    var target := UploadTarget(job);
    if target.None? {
      return Conversion(Failure(NoUploadTarget), calls);
    }
    calls := calls + [SubmitUpload(target.value.url, FormFieldNames(target.value))];
    var uploadError := UploadError(p.upload);
    if uploadError.Some? {
      return Conversion(Failure(uploadError.value), calls);
    }
    var poll := Poll(p.statusAt);
    calls := calls + StatusFetches(job.id, poll.attempts);
    if poll.outcome.Failed? {
      return Conversion(Failure(ConversionFailed), calls);
    }
    c := DownloadFrom(poll.outcome.last, p, calls);
  }

  // ---------------------------------------------------------------------------
  // Properties of a call

  /** Number of status fetches in a log of requests. */
  function CountFetches(calls: seq<RemoteCall>): nat {
    if calls == [] then 0
    else (if calls[0].FetchStatus? then 1 else 0) + CountFetches(calls[1..])
  }

  lemma {:induction false} CountFetchesAppend(a: seq<RemoteCall>, b: seq<RemoteCall>)
    ensures CountFetches(a + b) == CountFetches(a) + CountFetches(b)
    decreases |a|
  {
    if a == [] {
      assert a + b == b;
    } else {
      assert (a + b)[1..] == a[1..] + b;
      CountFetchesAppend(a[1..], b);
    }
  }

  lemma {:induction false} CountStatusFetches(jobId: string, n: nat)
    ensures CountFetches(StatusFetches(jobId, n)) == n
  {
    if n > 0 {
      var s := StatusFetches(jobId, n);
      assert s == StatusFetches(jobId, n - 1) + [FetchStatus(jobId, n - 1)];
      CountFetchesAppend(StatusFetches(jobId, n - 1), [FetchStatus(jobId, n - 1)]);
      CountStatusFetches(jobId, n - 1);
    }
  }

  /** Without an API key the call fails before sending anything. */
  lemma MissingKeyFailsFirst(key: Option<string>, format: string, p: Provider)
    requires !Truthy(key)
    ensures ConvertOutcome(key, format, p) == Conversion(Failure(MissingApiKey), [])
  {
  }

  /** A creation reply without `data` fails the call right after the creation
      request; the error is the out-of-credits one exactly when the message
      (or its default) mentions credits. */
  lemma RejectedCreationFails(key: Option<string>, format: string, p: Provider)
    requires Truthy(key) && p.create.Rejected?
    ensures var c := ConvertOutcome(key, format, p);
      && c.calls == [CreateJob(format)]
      && c.result.Failure?
      && (c.result.error == OutOfCredits <==> Includes(OrElse(p.create.message, JobCreationFailedMessage), CreditsMarker))
      && (c.result.error != OutOfCredits ==> c.result.error == JobRejected(OrElse(p.create.message, JobCreationFailedMessage)))
  {
  }

  /** Every call makes at most MaxPolls status fetches. */
  lemma {:induction false} PollBudgetRespected(key: Option<string>, format: string, p: Provider)
    ensures CountFetches(ConvertOutcome(key, format, p).calls) <= MaxPolls
  {
    var c := ConvertOutcome(key, format, p);
    var created := [CreateJob(format)];
    assert CountFetches(created) == 0 by {
      assert created[1..] == [];
    }
    if Truthy(key) && p.create.Created? && UploadTarget(p.create.job).Some? {
      var job := p.create.job;
      var form := UploadTarget(job).value;
      var submitted := created + [SubmitUpload(form.url, FormFieldNames(form))];
      assert CountFetches(submitted) == 0 by {
        var upload := [SubmitUpload(form.url, FormFieldNames(form))];
        assert upload[1..] == [];
        assert CountFetches(upload) == 0;
        CountFetchesAppend(created, upload);
      }
      if UploadError(p.upload).None? {
        var poll := PollFrom(p.statusAt, 0);
        PollFromSpec(p.statusAt, 0);
        var polled := submitted + StatusFetches(job.id, poll.attempts);
        CountFetchesAppend(submitted, StatusFetches(job.id, poll.attempts));
        CountStatusFetches(job.id, poll.attempts);
        assert CountFetches(polled) <= MaxPolls;
        if !poll.outcome.Failed? {
          var url := ExportUrl(poll.outcome.last);
          if url.Some? {
            CountFetchesAppend(polled, [Download(url.value)]);
            assert [Download(url.value)][1..] == [];
            assert c.calls == polled + [Download(url.value)];
          } else {
            assert c.calls == polled;
          }
        } else {
          assert c.calls == polled;
        }
      } else {
        assert c.calls == submitted;
      }
    } else if Truthy(key) {
      assert c.calls == created;
    }
  }

  /** A created job without an upload form fails the call right after the
      creation request, before anything is uploaded. */
  lemma MissingUploadTargetFails(key: Option<string>, format: string, p: Provider)
    requires Truthy(key) && p.create.Created? && UploadTarget(p.create.job).None?
    ensures ConvertOutcome(key, format, p) == Conversion(Failure(NoUploadTarget), [CreateJob(format)])
  {
  }

  /** A failed upload fails the call with the upload's error right after the
      upload request: no status is fetched and nothing is downloaded. */
  lemma UploadFailureStopsCall(key: Option<string>, format: string, p: Provider, form: UploadForm, e: ConvertError)
    requires Truthy(key) && p.create.Created?
    requires UploadTarget(p.create.job) == Some(form) && UploadError(p.upload) == Some(e)
    ensures ConvertOutcome(key, format, p) ==
      Conversion(Failure(e), [CreateJob(format), SubmitUpload(form.url, FormFieldNames(form))])
  {
    assert [CreateJob(format)] + [SubmitUpload(form.url, FormFieldNames(form))] ==
      [CreateJob(format), SubmitUpload(form.url, FormFieldNames(form))];
  }

  /** A job whose first terminal status is "finished", at attempt k, goes on to
      the download step with that status after exactly k + 1 fetches. */
  lemma FinishedReachesDownload(key: Option<string>, format: string, p: Provider, k: nat)
    requires Truthy(key) && p.create.Created?
    requires UploadTarget(p.create.job).Some? && UploadError(p.upload).None?
    requires k < MaxPolls
    requires forall j | 0 <= j < k :: !IsTerminal(p.statusAt(j))
    requires p.statusAt(k).status == FinishedStatus
    ensures var job, form := p.create.job, UploadTarget(p.create.job).value;
      ConvertOutcome(key, format, p) == DownloadFrom(p.statusAt(k), p,
        [CreateJob(format), SubmitUpload(form.url, FormFieldNames(form))] + StatusFetches(job.id, k + 1))
  {
    var form := UploadTarget(p.create.job).value;
    assert [CreateJob(format)] + [SubmitUpload(form.url, FormFieldNames(form))] ==
      [CreateJob(format), SubmitUpload(form.url, FormFieldNames(form))];
    PollFirstTerminal(p.statusAt, k);
  }

  /** A job whose first terminal status is "error", at attempt k, fails the call
      with "Conversion failed" after exactly k + 1 fetches, and nothing is
      downloaded. */
  lemma ErrorStopsPolling(key: Option<string>, format: string, p: Provider, k: nat)
    requires Truthy(key) && p.create.Created?
    requires UploadTarget(p.create.job).Some? && UploadError(p.upload).None?
    requires k < MaxPolls
    requires forall j | 0 <= j < k :: !IsTerminal(p.statusAt(j))
    requires p.statusAt(k).status == ErrorStatus
    ensures var job, form := p.create.job, UploadTarget(p.create.job).value;
      ConvertOutcome(key, format, p) == Conversion(Failure(ConversionFailed),
        [CreateJob(format), SubmitUpload(form.url, FormFieldNames(form))] + StatusFetches(job.id, k + 1))
  {
    var form := UploadTarget(p.create.job).value;
    assert [CreateJob(format)] + [SubmitUpload(form.url, FormFieldNames(form))] ==
      [CreateJob(format), SubmitUpload(form.url, FormFieldNames(form))];
    PollFirstTerminal(p.statusAt, k);
  }

  /** With no terminal status in MaxPolls fetches the loop raises nothing: the
      call goes on to the download step with the last status fetched (which
      can then fail only for a missing export URL or a failed download). */
  lemma ExhaustedBudgetReachesDownload(key: Option<string>, format: string, p: Provider)
    requires Truthy(key) && p.create.Created?
    requires UploadTarget(p.create.job).Some? && UploadError(p.upload).None?
    requires forall j | 0 <= j < MaxPolls :: !IsTerminal(p.statusAt(j))
    ensures var job, form := p.create.job, UploadTarget(p.create.job).value;
      ConvertOutcome(key, format, p) == DownloadFrom(p.statusAt(MaxPolls - 1), p,
        [CreateJob(format), SubmitUpload(form.url, FormFieldNames(form))] + StatusFetches(job.id, MaxPolls))
  {
    var form := UploadTarget(p.create.job).value;
    assert [CreateJob(format)] + [SubmitUpload(form.url, FormFieldNames(form))] ==
      [CreateJob(format), SubmitUpload(form.url, FormFieldNames(form))];
    PollSkip(p.statusAt, MaxPolls - 1);
    assert PollFrom(p.statusAt, 0) == PollResult(Exhausted(p.statusAt(MaxPolls - 1)), MaxPolls);
  }

  /** A successful call created the job, uploaded to its form, polled
      without an error status, and downloaded the export URL of the status
      the loop ended with; it returns exactly the bytes of that download. */
  lemma SuccessIsDownload(key: Option<string>, format: string, p: Provider)
    requires ConvertOutcome(key, format, p).result.Success?
    ensures Truthy(key) && p.create.Created?
    ensures UploadTarget(p.create.job).Some? && UploadError(p.upload).None?
    ensures var c, job, form, poll :=
        ConvertOutcome(key, format, p), p.create.job, UploadTarget(p.create.job).value, PollFrom(p.statusAt, 0);
      && !poll.outcome.Failed?
      && ExportUrl(poll.outcome.last).Some?
      && c.calls == [CreateJob(format), SubmitUpload(form.url, FormFieldNames(form))]
                    + StatusFetches(job.id, poll.attempts) + [Download(ExportUrl(poll.outcome.last).value)]
      && p.download(ExportUrl(poll.outcome.last).value) == Some(c.result.value)
  {
    var form := UploadTarget(p.create.job).value;
    assert [CreateJob(format)] + [SubmitUpload(form.url, FormFieldNames(form))] ==
      [CreateJob(format), SubmitUpload(form.url, FormFieldNames(form))];
  }
}
