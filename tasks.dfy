/**
 * What the engine puts on a bot's task queue, what it sends upstream, and
 * the errors it reports (internal/discordmd/bot.go, bot_task_handler.go,
 * service_interaction.go, service.go).
 */
module Tasks {
  import opened Wrappers
  import opened GoStrings

  datatype TaskType = ImageGeneration | ImageUpscale | ImageDescribe | UnknownType(name: string)

  /**
   * A JSON payload as json.Unmarshal sees it: either text that does not
   * parse, or an object; a field the object does not carry decodes to its
   * zero value, and fields a struct does not declare are ignored.
   */
  datatype RawPayload =
    | Malformed
    | Object(Prompt: string, FastMode: bool, AutoUpscale: bool,
             OriginImageId: string, Index: string, OriginImageMessageId: string,
             ImageFileName: string, ImageFileSize: int)

  datatype ImageGenerationTaskPayload = ImageGenerationTaskPayload(Prompt: string, FastMode: bool, AutoUpscale: bool)
  datatype ImageUpscaleTaskPayload = ImageUpscaleTaskPayload(OriginImageId: string, Index: string, OriginImageMessageId: string)
  datatype ImageDescribeTaskPayload = ImageDescribeTaskPayload(ImageFileName: string, ImageFileSize: int)

  /** json.Marshal of each payload struct. */
  function EncodeGeneration(p: ImageGenerationTaskPayload): RawPayload {
    Object(p.Prompt, p.FastMode, p.AutoUpscale, "", "", "", "", 0)
  }

  function EncodeUpscale(p: ImageUpscaleTaskPayload): RawPayload {
    Object("", false, false, p.OriginImageId, p.Index, p.OriginImageMessageId, "", 0)
  }

  function EncodeDescribe(p: ImageDescribeTaskPayload): RawPayload {
    Object("", false, false, "", "", "", p.ImageFileName, p.ImageFileSize)
  }

  /** json.Unmarshal into each payload struct: an error exactly for malformed text. */
  function DecodeGeneration(raw: RawPayload): (p: Option<ImageGenerationTaskPayload>)
    ensures p.None? <==> raw.Malformed?
  {
    match raw
    case Malformed => None
    case Object(prompt, fast, auto, _, _, _, _, _) => Some(ImageGenerationTaskPayload(prompt, fast, auto))
  }

  function DecodeUpscale(raw: RawPayload): (p: Option<ImageUpscaleTaskPayload>)
    ensures p.None? <==> raw.Malformed?
  {
    match raw
    case Malformed => None
    case Object(_, _, _, id, index, messageId, _, _) => Some(ImageUpscaleTaskPayload(id, index, messageId))
  }

  function DecodeDescribe(raw: RawPayload): (p: Option<ImageDescribeTaskPayload>)
    ensures p.None? <==> raw.Malformed?
  {
    match raw
    case Malformed => None
    case Object(_, _, _, _, _, _, name, size) => Some(ImageDescribeTaskPayload(name, size))
  }

  /** What the enqueuing side marshals, the worker side unmarshals unchanged. */
  lemma PayloadRoundTrips(g: ImageGenerationTaskPayload, u: ImageUpscaleTaskPayload, d: ImageDescribeTaskPayload)
    ensures DecodeGeneration(EncodeGeneration(g)) == Some(g)
    ensures DecodeUpscale(EncodeUpscale(u)) == Some(u)
    ensures DecodeDescribe(EncodeDescribe(d)) == Some(d)
  {
  }

  datatype MidjourneyTask = MidjourneyTask(TaskId: string, TaskType: TaskType, Payload: RawPayload)

  /** `make(chan *MidjourneyTask, 1)`. */
  const TaskChanCapacity: nat := 1

  /** The outbound requests, each an HTTP call to the chat service. */
  datatype Command =
    | SwitchMode(fast: bool)
    | Imagine(taskId: string, prompt: string)
    | Upscale(id: string, index: string, messageId: string)
    | Describe(filename: string, size: int)
    | UploadAttachment(filename: string, attachmentId: string, size: int)
    | DescribeUploaded(filename: string, uploadFilename: string)

  /** The upscale request for the `n`-th variant of an image, the index sent as decimal text. */
  function UpscaleNth(id: string, n: nat, messageId: string): Command {
    Upscale(id, Itoa(n), messageId)
  }

  /** `added` are the upscale requests for variants 1, 2, … of image `id`, in order, each answered with a status. */
  predicate AreUpscaleRequests(added: seq<Call>, id: string, messageId: string) {
    forall j :: 0 <= j < |added| ==> added[j].Cmd == UpscaleNth(id, j + 1, messageId) && added[j].Outcome.Status?
  }

  /** One more upscale request, for the next variant, keeps the list in order. */
  lemma AreUpscaleRequestsAppend(added: seq<Call>, c: Call, id: string, messageId: string)
    requires AreUpscaleRequests(added, id, messageId)
    requires c.Cmd == UpscaleNth(id, |added| + 1, messageId) && c.Outcome.Status?
    ensures AreUpscaleRequests(added + [c], id, messageId)
  {
    forall j | 0 <= j < |added| + 1
      ensures (added + [c])[j].Cmd == UpscaleNth(id, j + 1, messageId) && (added + [c])[j].Outcome.Status?
    {
      if j < |added| {
        assert (added + [c])[j] == added[j];
      }
    }
  }

  /** What a request came back with: a status code (and an interaction id), or an upload result. */
  datatype Outcome = Status(code: int, interactionId: string) | Uploaded(uploadFilename: Option<string>)

  datatype Call = Call(Cmd: Command, Outcome: Outcome)

  predicate IsFailure(c: Call) {
    c.Outcome.Status? && c.Outcome.code >= 400
  }

  /** The number of calls that came back with status >= 400. */
  function FailedCount(calls: seq<Call>): (n: nat)
    ensures n <= |calls|
  {
    if calls == [] then 0
    else FailedCount(calls[..|calls| - 1]) + (if IsFailure(calls[|calls| - 1]) then 1 else 0)
  }

  lemma FailedCountAppend(calls: seq<Call>, c: Call)
    ensures FailedCount(calls + [c]) == FailedCount(calls) + (if IsFailure(c) then 1 else 0)
  {
    assert (calls + [c])[..|calls|] == calls;
  }

  /** `c` is a call of `cmd` that came back with status `code`. */
  predicate IsCallOf(c: Call, cmd: Command, code: int) {
    c.Cmd == cmd && c.Outcome.Status? && c.Outcome.code == code
  }

  /** `fmt.Sprintf("imagine task: %s failed, code: %d", taskId, code)`. */
  function FailureMessage(taskId: string, code: int): string {
    "imagine task: " + taskId + " failed, code: " + IntText(code)
  }

  /** `%d` of an int. */
  function IntText(n: int): string {
    if n < 0 then "-" + Itoa(-n) else Itoa(n)
  }

  datatype Error =
    | ErrTooManyTasks
    | ErrTaskNotFound
    | ErrBotNotFound
    | ErrTaskRuntimeNotFound
    | ErrDecode
    | ErrFileHeader
    | ErrOpenFile
    | ErrUpload

  /** A multipart file header; `Opens` says whether its Open succeeds. */
  datatype FileHeader = FileHeader(Filename: string, Size: int, Opens: bool)
}
