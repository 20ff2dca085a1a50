/**
 * The oldest version of the engine (internal/discordmd/discord.go): one
 * service correlates tasks through four maps instead of task runtimes.
 *
 *   taskResultChannels    task id -> its result channel
 *   originImageURLMap     task id -> URL of its origin grid
 *   imageURLsMap          task id -> URLs of the upscaled images so far
 *   messageIdToTaskIdMap  id of the origin message -> task id
 *
 * Each handler is specified by a function on a snapshot of these maps, the
 * outbound requests and the results sent; the invariants and the
 * completion rule are proved about those functions.
 */
module LegacyMaps {
  import opened Wrappers
  import opened GoStrings
  import opened Parse
  import opened Prompt
  import opened Runtime
  import opened Tasks
  import opened Events
  import opened LegacyParse

  /** `imageGenerationTask`: what Imagine queues for the worker loop. */
  datatype GenerationTask = GenerationTask(taskId: string, prompt: string)

  /** `make(chan *imageGenerationTask, 1)`. */
  const GenerationQueueCapacity: nat := 1

  /** The embed titles this version treats as a failed job. */
  const LegacyFailureTitles: set<string> :=
    {"Blocked", "Banned prompt", "Invalid parameter", "Banned prompt detected", "Invalid link"}

  /** The correlation state: the four maps, every outbound request in order, and every result sent. */
  datatype Maps = Maps(
    taskResultChannels: map<string, ChanId>,
    originImageURLMap: map<string, string>,
    imageURLsMap: map<string, seq<string>>,
    messageIdToTaskIdMap: map<string, string>,
    requests: seq<Command>,
    sent: seq<Delivery>)

  /** A Go map read: the value under `k`, or the zero value "" when there is none. */
  function Get(m: map<string, string>, k: string): string {
    if k in m then m[k] else ""
  }

  /** The upscaled image URLs collected for `taskId` so far (a nil slice when none). */
  function Collected(s: Maps, taskId: string): seq<string> {
    if taskId in s.imageURLsMap then s.imageURLsMap[taskId] else []
  }

  /** The requests for variants 1 .. n of image `fileId` in message `messageId`, in order. */
  function UpscaleCommands(fileId: string, messageId: string, n: nat): (cmds: seq<Command>)
    ensures |cmds| == n
    ensures forall j :: 0 <= j < n ==> cmds[j] == UpscaleNth(fileId, j + 1, messageId)
  {
    if n == 0 then [] else UpscaleCommands(fileId, messageId, n - 1) + [UpscaleNth(fileId, n, messageId)]
  }

  /** How many upscale requests `for i := 1; i <= upscaleCount; i++` makes. */
  function LoopCount(upscaleCount: int): nat {
    if upscaleCount > 0 then upscaleCount else 0
  }

  /**
   * A failure for `taskId`: when the task still has a result channel, one
   * failure result with `message` and no images is sent on it and the
   * channel is forgotten; otherwise nothing happens.
   */
  function Fail(s: Maps, taskId: string, message: string): Maps {
    if taskId in s.taskResultChannels then
      s.(sent := s.sent + [Delivery(s.taskResultChannels[taskId], TaskResult(taskId, false, message, ImagePayload("", [])))],
         taskResultChannels := s.taskResultChannels - {taskId})
    else s
  }

  /**
   * The origin grid of message `messageId`, whose content hashes to
   * `taskId` and whose attachment URL carries `fileId`: for a task that
   * still has a result channel, the message is mapped to the task, the URL
   * recorded as the task's origin, and the upscale requests go out. A hash
   * that names no such task changes nothing.
   */
  function Origin(s: Maps, upscaleCount: int, taskId: string, fileId: string, messageId: string, url: string): Maps {
    if taskId != "" && taskId in s.taskResultChannels then
      s.(messageIdToTaskIdMap := s.messageIdToTaskIdMap[messageId := taskId],
         originImageURLMap := s.originImageURLMap[taskId := url],
         requests := s.requests + UpscaleCommands(fileId, messageId, LoopCount(upscaleCount)))
    else s
  }

  /**
   * An upscaled image answering message `refId`, and whether the handler
   * returns. An unmapped message stops the handler with nothing changed.
   * Otherwise the URL is collected for the task; when the task then has
   * `upscaleCount` images, they are sent with the origin URL as a success
   * (if the task still has a channel) and all four entries are deleted.
   */
  function Upscaled(s: Maps, upscaleCount: int, refId: string, url: string): (Maps, bool) {
    var taskId := Get(s.messageIdToTaskIdMap, refId);
    if taskId == "" then (s, true)
    else
      var urls := Collected(s, taskId) + [url];
      if |urls| == upscaleCount then
        var sent := if taskId in s.taskResultChannels
          then s.sent + [Delivery(s.taskResultChannels[taskId],
                 TaskResult(taskId, true, "", ImagePayload(Get(s.originImageURLMap, taskId), urls)))]
          else s.sent;
        (s.(sent := sent,
            taskResultChannels := s.taskResultChannels - {taskId},
            imageURLsMap := s.imageURLsMap - {taskId},
            originImageURLMap := s.originImageURLMap - {taskId},
            messageIdToTaskIdMap := s.messageIdToTaskIdMap - {refId}), false)
      else (s.(imageURLsMap := s.imageURLsMap[taskId := urls]), false)
  }

  /**
   * One attachment `url` of `event`, and whether the handler returns: the
   * origin grid when the message references none, an upscaled image
   * otherwise.
   */
  function Attachment(s: Maps, upscaleCount: int, md5: Md5, isUUID: IsUUID, event: MessageCreate, url: string): (Maps, bool) {
    match event.ReferencedMessageId
    case None => (Origin(s, upscaleCount, LegacyHashFromMessage(md5, event.Content).0, GetIdFromURL(isUUID, url), event.ID, url), false)
    case Some(refId) => Upscaled(s, upscaleCount, refId, url)
  }

  /** The attachments of `event` from the `i`-th on, in order, until one stops the handler. */
  function Attachments(s: Maps, upscaleCount: int, md5: Md5, isUUID: IsUUID, event: MessageCreate, i: nat): Maps
    decreases |event.Attachments| - i
  {
    if i >= |event.Attachments| then s
    else
      var (s', stop) := Attachment(s, upscaleCount, md5, isUUID, event, event.Attachments[i]);
      if stop then s' else Attachments(s', upscaleCount, md5, isUUID, event, i + 1)
  }

  /** The first embed from the `i`-th on whose title is a failure title, if any. */
  function FirstTitled(embeds: seq<Embed>, i: nat): Option<Embed>
    decreases |embeds| - i
  {
    if i >= |embeds| then None
    else if embeds[i].Title in LegacyFailureTitles then Some(embeds[i])
    else FirstTitled(embeds, i + 1)
  }

  /**
   * The state the handlers keep: a mapped message never maps to the empty
   * id, and a task's collected URLs are never empty and stay below
   * `upscaleCount`, since reaching it completes the task.
   */
  predicate Inv(s: Maps, upscaleCount: int) {
    && (forall m :: m in s.messageIdToTaskIdMap ==> s.messageIdToTaskIdMap[m] != "")
    && (forall t :: t in s.imageURLsMap ==> 0 < |s.imageURLsMap[t]| < upscaleCount)
  }

  lemma FailKeepsInv(s: Maps, upscaleCount: int, taskId: string, message: string)
    requires Inv(s, upscaleCount)
    ensures Inv(Fail(s, taskId, message), upscaleCount)
    ensures Fail(s, taskId, message).imageURLsMap == s.imageURLsMap
    ensures Fail(s, taskId, message).messageIdToTaskIdMap == s.messageIdToTaskIdMap
  {
  }

  lemma OriginKeepsInv(s: Maps, upscaleCount: int, taskId: string, fileId: string, messageId: string, url: string)
    requires Inv(s, upscaleCount)
    ensures Inv(Origin(s, upscaleCount, taskId, fileId, messageId, url), upscaleCount)
  {
  }

  /** With at least one image to collect, an upscaled image keeps the invariant. */
  lemma UpscaledKeepsInv(s: Maps, upscaleCount: int, refId: string, url: string)
    requires upscaleCount >= 1 && Inv(s, upscaleCount)
    ensures Inv(Upscaled(s, upscaleCount, refId, url).0, upscaleCount)
  {
    var taskId := Get(s.messageIdToTaskIdMap, refId);
    if taskId != "" {
      var urls := Collected(s, taskId) + [url];
      if |urls| != upscaleCount {
        var s' := Upscaled(s, upscaleCount, refId, url).0;
        assert s'.imageURLsMap == s.imageURLsMap[taskId := urls];
        assert |Collected(s, taskId)| < upscaleCount;
      }
    }
  }

  lemma AttachmentKeepsInv(s: Maps, upscaleCount: int, md5: Md5, isUUID: IsUUID, event: MessageCreate, url: string)
    requires upscaleCount >= 1 && Inv(s, upscaleCount)
    ensures Inv(Attachment(s, upscaleCount, md5, isUUID, event, url).0, upscaleCount)
  {
    match event.ReferencedMessageId
    case None =>
      OriginKeepsInv(s, upscaleCount, LegacyHashFromMessage(md5, event.Content).0, GetIdFromURL(isUUID, url), event.ID, url);
    case Some(refId) =>
      UpscaledKeepsInv(s, upscaleCount, refId, url);
  }

  /** Handling the attachments of a message keeps the invariant. */
  lemma {:induction false} AttachmentsKeepInv(s: Maps, upscaleCount: int, md5: Md5, isUUID: IsUUID, event: MessageCreate, i: nat)
    requires upscaleCount >= 1 && Inv(s, upscaleCount)
    ensures Inv(Attachments(s, upscaleCount, md5, isUUID, event, i), upscaleCount)
    decreases |event.Attachments| - i
  {
    if i < |event.Attachments| {
      var url := event.Attachments[i];
      AttachmentKeepsInv(s, upscaleCount, md5, isUUID, event, url);
      AttachmentsKeepInv(Attachment(s, upscaleCount, md5, isUUID, event, url).0, upscaleCount, md5, isUUID, event, i + 1);
    }
  }

  /**
   * The completion rule. An upscaled image sends a result exactly when it
   * answers a mapped message whose task still has a channel and it is the
   * task's last missing image; that result is a success carrying the origin
   * URL and all `upscaleCount` images in arrival order, this one last.
   * Every other upscaled image sends nothing.
   */
  lemma CompletionSendsAllImages(s: Maps, upscaleCount: int, refId: string, url: string)
    requires upscaleCount >= 1 && Inv(s, upscaleCount)
    ensures var (s', stop) := Upscaled(s, upscaleCount, refId, url);
      var taskId := Get(s.messageIdToTaskIdMap, refId);
      && (stop <==> refId !in s.messageIdToTaskIdMap)
      && (|s'.sent| != |s.sent| <==>
            refId in s.messageIdToTaskIdMap && taskId in s.taskResultChannels
            && |Collected(s, taskId)| == upscaleCount - 1)
      && (|s'.sent| == |s.sent| ==> s'.sent == s.sent)
      && (|s'.sent| != |s.sent| ==>
            && s'.sent == s.sent + [Delivery(s.taskResultChannels[taskId],
                 TaskResult(taskId, true, "", ImagePayload(Get(s.originImageURLMap, taskId), Collected(s, taskId) + [url])))]
            && |Collected(s, taskId) + [url]| == upscaleCount
            && taskId !in s'.taskResultChannels && taskId !in s'.imageURLsMap
            && taskId !in s'.originImageURLMap && refId !in s'.messageIdToTaskIdMap)
  {
    if refId in s.messageIdToTaskIdMap {
      assert Get(s.messageIdToTaskIdMap, refId) != "";
    }
  }


  /**
   * The origin grid of a legacy Imagine is posted as the normalised prompt
   * in bold followed by any tail: when the prompt holds no link and no
   * `**`, getHashFromMessage of that message gives back the id Imagine
   * filed the task's channel under, so the grid is bound to the task.
   */
  lemma EchoCorrelates(md5: Md5, prompt: string, params: string, seed: string, tail: string)
    requires |seed| > 0 && AllDigits(seed)
    requires NoLinks(NormalizePrompt(prompt, params, seed))
    requires NoDoubleStar(NormalizePrompt(prompt, params, seed))
    ensures LegacyHashFromMessage(md5, "**" + NormalizePrompt(prompt, params, seed) + "**" + tail).0
         == LegacyHashFromPrompt(md5, NormalizePrompt(prompt, params, seed), seed)
  {
    var n := NormalizePrompt(prompt, params, seed);
    NormalizedShape(prompt, params, seed);
    EchoBold(n, tail);
    EchoHasSeed(n, seed, tail);
    EchoHash(md5, "**" + n + "**" + tail, n, seed);
  }

  /** A message whose bold text is a link-free `n`, and which holds a seed, hashes like `n`. */
  lemma EchoHash(md5: Md5, m: string, n: string, seed: string)
    requires FirstBold(m) == Some(n) && FirstSeed(m).Some?
    requires n != [] && n[0] != ' ' && n[|n| - 1] != ' ' && NoLinks(n)
    ensures LegacyHashFromMessage(md5, m).0 == LegacyHashFromPrompt(md5, n, seed)
  {
    var first := FirstSeed(m).value;
    TrimUnchanged(n);
    ReplaceAngleLinksNoLinks(n, first);
    assert LegacyHashFromMessage(md5, m).0 == Digest(md5, ReplaceAngleLinks(Trim(n), first));
    ReplaceWordLinksNoLinks(n, seed, 0);
    assert n[0..] == n;
  }

  /** A bold text ending in `--seed <seed>` puts a seed match in the message. */
  lemma EchoHasSeed(n: string, seed: string, tail: string)
    requires |seed| > 0 && AllDigits(seed)
    requires |n| >= 7 + |seed| && n[|n| - 7 - |seed|..] == "--seed " + seed
    ensures FirstSeed("**" + n + "**" + tail).Some?
  {
    var m := "**" + n + "**" + tail;
    var k := |n| - 7 - |seed|;
    assert m[2 + k..] == "--seed " + seed + ("**" + tail);
    SeedMatchOfFlag(seed, "**" + tail);
    assert SeedMatch(m[2 + k..]).Some?;
    FirstSeedSpec(m);
  }

  /**
   * An echo whose link came back in angle brackets gives back Imagine's
   * hash when the seed Imagine appended is the first seed match of the
   * message: onMessageCreate puts that seed where `<link>` was, and
   * Imagine put the same seed where the link was.
   */
  lemma EchoWithLinkCorrelates(md5: Md5, prompt: string, params: string, seed: string,
                               p: string, l: string, l2: string, q: string, tail: string)
    requires |seed| > 0 && AllDigits(seed)
    requires NormalizePrompt(prompt, params, seed) == p + l + q
    requires (p == [] || p[|p| - 1] == ' ') && (q == [] || q[0] == ' ')
    requires IsLink(l) && IsWordChar(l[|l| - 1]) && NoLinks(p) && NoLinks(q)
    requires IsLink(l2)
    requires NoDoubleStar(p + "<" + l2 + ">" + q)
    requires FirstSeed("**" + (p + "<" + l2 + ">" + q) + "**" + tail) == Some(seed)
    ensures LegacyHashFromMessage(md5, "**" + (p + "<" + l2 + ">" + q) + "**" + tail).0
         == LegacyHashFromPrompt(md5, NormalizePrompt(prompt, params, seed), seed)
  {
    var n := NormalizePrompt(prompt, params, seed);
    var e := p + "<" + l2 + ">" + q;
    NormalizedShape(prompt, params, seed);
    LinkBeforeSeed(n, p, l, q, seed);
    EchoedShape(n, p, l, l2, q, seed);
    EchoBoldLine(e, tail);
    TrimUnchanged(e);
    ReplaceAngleLinksAtLink(p, l2, q, seed);
    ReplaceAngleLinksNoLinks(p, seed);
    ReplaceAngleLinksNoLinks(q, seed);
    ReplaceWordLinksAtLink(p, l, q, seed);
    EchoHashWithSeed(md5, "**" + e + "**" + tail, e, seed, p + seed + q);
  }

  /** A message whose first bold text is `b` and whose first seed is `seed` hashes `b` with its `<…>` links replaced. */
  lemma EchoHashWithSeed(md5: Md5, m: string, b: string, seed: string, r: string)
    requires FirstBold(m) == Some(b) && FirstSeed(m) == Some(seed)
    requires ReplaceAngleLinks(Trim(b), seed) == r
    ensures LegacyHashFromMessage(md5, m).0 == Digest(md5, r)
  {
  }

  /**
   * The single service of this version. Channels made here are never
   * closed; the lock is not modelled, every handler being one atomic step.
   */
  class MapsService {
    /** config.UpscaleCount. */
    const UpscaleCount: int
    const md5: Md5
    const isUUID: IsUUID
    const channels: Channels

    /** The pending tasks of `taskChan`, oldest first. */
    var taskChan: seq<GenerationTask>
    var taskResultChannels: map<string, ChanId>
    var originImageURLMap: map<string, string>
    var imageURLsMap: map<string, seq<string>>
    var messageIdToTaskIdMap: map<string, string>
    /** Every outbound request, in order. */
    var requests: seq<Command>

    /** The queue is within its capacity and every registered channel is open. */
    predicate Valid()
      reads this, channels
    {
      && channels.Valid()
      && |taskChan| <= GenerationQueueCapacity
      && forall t :: t in taskResultChannels ==> taskResultChannels[t] < channels.next && taskResultChannels[t] !in channels.closed
    }

    function State(): Maps
      reads this, channels
    {
      Maps(taskResultChannels, originImageURLMap, imageURLsMap, messageIdToTaskIdMap, requests, channels.sent)
    }

    /** The queue and the channel bookkeeping are as they were. */
    twostate predicate QueueKept()
      reads this, channels
    {
      taskChan == old(taskChan) && channels.closed == old(channels.closed) && channels.next == old(channels.next)
    }

    constructor (upscaleCount: int, md5: Md5, isUUID: IsUUID, channels: Channels)
      requires channels.Valid()
      ensures Valid() && Inv(State(), upscaleCount)
      ensures UpscaleCount == upscaleCount && this.md5 == md5 && this.isUUID == isUUID && this.channels == channels
      ensures taskChan == [] && taskResultChannels == map[] && originImageURLMap == map[]
      ensures imageURLsMap == map[] && messageIdToTaskIdMap == map[] && requests == []
    {
      UpscaleCount, this.md5, this.isUUID, this.channels := upscaleCount, md5, isUUID, channels;
      taskChan, taskResultChannels, originImageURLMap := [], map[], map[];
      imageURLsMap, messageIdToTaskIdMap, requests := map[], map[], [];
    }

    /** One outbound request; the status code is the chat service's answer. */
    method Request(cmd: Command) returns (code: int)
      modifies this
      ensures requests == old(requests) + [cmd]
      ensures taskChan == old(taskChan) && taskResultChannels == old(taskResultChannels)
      ensures originImageURLMap == old(originImageURLMap) && imageURLsMap == old(imageURLsMap)
      ensures messageIdToTaskIdMap == old(messageIdToTaskIdMap)
    {
      code :| true;
      requests := requests + [cmd];
    }

    /**
     * Imagine of this version: a seed is drawn and the prompt normalised
     * with it, the task id is its hash, and a fresh channel is registered
     * under the id BEFORE the queue is checked: a full queue answers
     * ErrTooManyTasks with the channel left registered and nothing queued.
     */
    method Imagine(prompt: string, params: string) returns (taskId: string, seed: string, resultChan: ChanId, err: Option<Error>)
      requires Valid()
      modifies this, channels
      ensures Valid()
      ensures IsDrawnSeed(seed) && taskId == LegacyHashFromPrompt(md5, NormalizePrompt(prompt, params, seed), seed)
      ensures resultChan == old(channels.next) && channels.next == old(channels.next) + 1
      ensures taskResultChannels == old(taskResultChannels)[taskId := resultChan]
      ensures err.Some? <==> |old(taskChan)| == GenerationQueueCapacity
      ensures err.Some? ==> err.value == ErrTooManyTasks && taskChan == old(taskChan)
      ensures err.None? ==> taskChan == old(taskChan) + [GenerationTask(taskId, NormalizePrompt(prompt, params, seed))]
      ensures channels.sent == old(channels.sent) && channels.closed == old(channels.closed)
      ensures originImageURLMap == old(originImageURLMap) && imageURLsMap == old(imageURLsMap)
      ensures messageIdToTaskIdMap == old(messageIdToTaskIdMap) && requests == old(requests)
    {
      var n: nat :| n < 0xFFFF_FFFF;
      seed := Itoa(n);
      var normalized := NormalizePrompt(prompt, params, seed);
      taskId := LegacyHashFromPrompt(md5, normalized, seed);
      resultChan := channels.Make();
      taskResultChannels := taskResultChannels[taskId := resultChan];
      if |taskChan| == GenerationQueueCapacity {
        return taskId, seed, resultChan, Some(ErrTooManyTasks);
      }
      taskChan := taskChan + [GenerationTask(taskId, normalized)];
      err := None;
    }

    /**
     * One turn of the worker loop in Start: the oldest queued task is taken
     * (the loop blocks while the queue is empty) and its imagine request
     * made; a status >= 400 fails the task with the status in the message.
     */
    method WorkerStep() returns (task: GenerationTask, code: int)
      requires Valid() && |taskChan| > 0
      modifies this, channels
      ensures Valid()
      ensures task == old(taskChan)[0] && taskChan == old(taskChan)[1..]
      ensures channels.closed == old(channels.closed) && channels.next == old(channels.next)
      ensures var s1 := old(State()).(requests := old(requests) + [Command.Imagine(task.taskId, task.prompt)]);
        State() == if code >= 400 then Fail(s1, task.taskId, "imagine task failed, code: " + IntText(code)) else s1
    {
      task := taskChan[0];
      taskChan := taskChan[1..];
      code := Request(Command.Imagine(task.taskId, task.prompt));
      if code >= 400 {
        FailTask(task.taskId, "imagine task failed, code: " + IntText(code));
      }
    }

    /** Fail of the state: at most one failure result, and the task's channel forgotten. */
    method FailTask(taskId: string, message: string)
      requires Valid()
      modifies this, channels
      ensures Valid() && QueueKept()
      ensures State() == Fail(old(State()), taskId, message)
    {
      if taskId in taskResultChannels {
        channels.Send(taskResultChannels[taskId], TaskResult(taskId, false, message, ImagePayload("", [])));
        taskResultChannels := taskResultChannels - {taskId};
      }
    }

    /**
     * onDiscordMessage. The first embed with a failure title decides: a
     * nil footer makes the handler panic (nothing changes), otherwise the
     * task hashed from the footer fails with the embed's title and
     * description and the handler returns. Without such an embed the
     * attachments are handled in order until one stops the handler.
     */
    method OnDiscordMessage(event: MessageCreate) returns (panicked: bool)
      requires Valid()
      modifies this, channels
      ensures Valid() && QueueKept()
      ensures var e := FirstTitled(event.Embeds, 0);
        && (panicked <==> e.Some? && e.value.Footer.None?)
        && (panicked ==> State() == old(State()))
        && (e.Some? && e.value.Footer.Some? ==>
              State() == Fail(old(State()), LegacyHashFromEmbeds(md5, e.value.Footer.value), e.value.Title + " " + e.value.Description))
        && (e.None? ==> State() == Attachments(old(State()), UpscaleCount, md5, isUUID, event, 0))
    {
      var e := FindFailureEmbed(event.Embeds);
      if e.Some? {
        if e.value.Footer.None? {
          return true;
        }
        FailTask(LegacyHashFromEmbeds(md5, e.value.Footer.value), e.value.Title + " " + e.value.Description);
        return false;
      }
      HandleAttachments(event);
      panicked := false;
    }

    /** The embed loop of onDiscordMessage: the first embed with a failure title, if any. */
    method FindFailureEmbed(embeds: seq<Embed>) returns (e: Option<Embed>)
      ensures e.None? <==> forall j :: 0 <= j < |embeds| ==> embeds[j].Title !in LegacyFailureTitles
      ensures e.Some? ==> e.value.Title in LegacyFailureTitles
      ensures e == FirstTitled(embeds, 0)
    {
      var i := 0;
      while i < |embeds|
        invariant 0 <= i <= |embeds|
        invariant FirstTitled(embeds, i) == FirstTitled(embeds, 0)
        invariant forall j :: 0 <= j < i ==> embeds[j].Title !in LegacyFailureTitles
      {
        if embeds[i].Title in LegacyFailureTitles {
          return Some(embeds[i]);
        }
        i := i + 1;
      }
      return None;
    }

    /** The attachment loop of onDiscordMessage. */
    method HandleAttachments(event: MessageCreate)
      requires Valid()
      modifies this, channels
      ensures Valid() && QueueKept()
      ensures State() == Attachments(old(State()), UpscaleCount, md5, isUUID, event, 0)
    {
      var i := 0;
      while i < |event.Attachments|
        invariant 0 <= i <= |event.Attachments|
        invariant Valid() && QueueKept()
        invariant Attachments(State(), UpscaleCount, md5, isUUID, event, i) == Attachments(old(State()), UpscaleCount, md5, isUUID, event, 0)
      {
        var stop := HandleAttachment(event, event.Attachments[i]);
        if stop {
          return;
        }
        i := i + 1;
      }
    }

    /** One attachment of the loop; `stop` when the handler returns. */
    method HandleAttachment(event: MessageCreate, url: string) returns (stop: bool)
      requires Valid()
      modifies this, channels
      ensures Valid() && QueueKept()
      ensures (State(), stop) == Attachment(old(State()), UpscaleCount, md5, isUUID, event, url)
    {
      if event.ReferencedMessageId.None? {
        OnOriginImage(LegacyHashFromMessage(md5, event.Content).0, GetIdFromURL(isUUID, url), event.ID, url);
        stop := false;
      } else {
        stop := OnUpscaledImage(event.ReferencedMessageId.value, url);
      }
    }

    /** The origin grid of a message, once its hash `taskId` and the file id in the URL are known. */
    method OnOriginImage(taskId: string, fileId: string, messageId: string, url: string)
      requires Valid()
      modifies this
      ensures Valid() && QueueKept()
      ensures State() == Origin(old(State()), UpscaleCount, taskId, fileId, messageId, url)
    {
      if taskId != "" && taskId in taskResultChannels {
        messageIdToTaskIdMap := messageIdToTaskIdMap[messageId := taskId];
        originImageURLMap := originImageURLMap[taskId := url];
        RequestUpscales(fileId, messageId);
      }
    }

    /** The upscale loop: requests for variants 1 .. UpscaleCount, their status codes only logged. */
    method RequestUpscales(fileId: string, messageId: string)
      requires Valid()
      modifies this
      ensures Valid() && QueueKept()
      ensures requests == old(requests) + UpscaleCommands(fileId, messageId, LoopCount(UpscaleCount))
      ensures taskResultChannels == old(taskResultChannels) && originImageURLMap == old(originImageURLMap)
      ensures imageURLsMap == old(imageURLsMap) && messageIdToTaskIdMap == old(messageIdToTaskIdMap)
    {
      var i := 1;
      while i <= UpscaleCount
        invariant 1 <= i <= LoopCount(UpscaleCount) + 1
        invariant requests == old(requests) + UpscaleCommands(fileId, messageId, i - 1)
        invariant taskChan == old(taskChan) && taskResultChannels == old(taskResultChannels)
        invariant originImageURLMap == old(originImageURLMap) && imageURLsMap == old(imageURLsMap)
        invariant messageIdToTaskIdMap == old(messageIdToTaskIdMap)
      {
        var cmd := UpscaleNth(fileId, i, messageId);
        var _ := Request(cmd);
        i := i + 1;
      }
    }

    /** An upscaled image answering message `refId`; `stop` when the handler returns. */
    method OnUpscaledImage(refId: string, url: string) returns (stop: bool)
      requires Valid()
      modifies this, channels
      ensures Valid() && QueueKept()
      ensures (State(), stop) == Upscaled(old(State()), UpscaleCount, refId, url)
    {
      var taskId := Get(messageIdToTaskIdMap, refId);
      if taskId == "" {
        return true;
      }
      var urls := (if taskId in imageURLsMap then imageURLsMap[taskId] else []) + [url];
      imageURLsMap := imageURLsMap[taskId := urls];
      if |urls| == UpscaleCount {
        if taskId in taskResultChannels {
          channels.Send(taskResultChannels[taskId],
            TaskResult(taskId, true, "", ImagePayload(Get(originImageURLMap, taskId), urls)));
        }
        UpdateThenRemove(old(imageURLsMap), taskId, urls);
        taskResultChannels := taskResultChannels - {taskId};
        imageURLsMap := imageURLsMap - {taskId};
        originImageURLMap := originImageURLMap - {taskId};
        messageIdToTaskIdMap := messageIdToTaskIdMap - {refId};
      }
      stop := false;
    }
  }
}
