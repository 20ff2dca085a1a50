/**
 * One chat bot and its task registry (internal/discordmd/bot.go,
 * bot_event_handler.go, bot_task_handler.go, and the per-bot part of
 * service_interaction.go).
 *
 * Every handler runs as one atomic step: the registry lock is not modelled.
 * Each outbound request is a call whose status code (and interaction id)
 * the chat service chooses; the calls are logged, in order, in `calls`.
 */
module Bot {
  import opened Wrappers
  import opened GoStrings
  import opened Parse
  import opened Prompt
  import opened Runtime
  import opened Tasks
  import opened Events

  /** Channel `c` has been made and is not closed. */
  predicate ChanOpen(c: ChanId, closed: set<ChanId>, next: ChanId) {
    c < next && c !in closed
  }

  /** All channels of a runtime are open. */
  predicate RuntimeOpen(r: TaskRuntime, closed: set<ChanId>, next: ChanId) {
    && ChanOpen(r.ResultChan, closed, next)
    && forall k :: k in r.UpscaleResultChannels ==> ChanOpen(r.UpscaleResultChannels[k], closed, next)
  }

  /**
   * The registry invariant: every runtime is filed under its own id and its
   * channels are open, and no two runtimes share a result channel, nor is a
   * result channel some runtime's upscale waiter. Hence closing the result
   * channel of a removed runtime leaves every registered channel open.
   */
  predicate RegistryOk(rts: map<string, TaskRuntime>, closed: set<ChanId>, next: ChanId) {
    && (forall id :: id in rts ==> rts[id].TaskId == id && RuntimeOpen(rts[id], closed, next))
    && (forall a, b :: a in rts && b in rts && a != b ==> rts[a].ResultChan != rts[b].ResultChan)
    && (forall a, b, k :: a in rts && b in rts && k in rts[b].UpscaleResultChannels ==>
          rts[a].ResultChan != rts[b].UpscaleResultChannels[k])
  }

  lemma RegistryGrow(rts: map<string, TaskRuntime>, closed: set<ChanId>, next: ChanId, next': ChanId)
    requires RegistryOk(rts, closed, next) && next <= next'
    ensures RegistryOk(rts, closed, next')
  {
    forall id | id in rts
      ensures RuntimeOpen(rts[id], closed, next')
    {
      assert RuntimeOpen(rts[id], closed, next);
    }
  }

  /** Replacing a runtime by one with the same id and the same channels keeps the invariant. */
  lemma RegistryUpdate(rts: map<string, TaskRuntime>, closed: set<ChanId>, next: ChanId, id: string, r: TaskRuntime)
    requires RegistryOk(rts, closed, next) && id in rts
    requires r.TaskId == id && r.ResultChan == rts[id].ResultChan
    requires r.UpscaleResultChannels == rts[id].UpscaleResultChannels
    ensures RegistryOk(rts[id := r], closed, next)
  {
    assert RuntimeOpen(rts[id], closed, next);
  }

  /** Filing a runtime whose result channel is the newest one, and which has no waiters, keeps the invariant. */
  lemma RegistryInsert(rts: map<string, TaskRuntime>, closed: set<ChanId>, next: ChanId, id: string, r: TaskRuntime)
    requires RegistryOk(rts, closed, next)
    requires r.TaskId == id && r.ResultChan == next && next !in closed && r.UpscaleResultChannels == map[]
    ensures RegistryOk(rts[id := r], closed, next + 1)
  {
    RegistryGrow(rts, closed, next, next + 1);
    var rts' := rts[id := r];
    forall a, b | a in rts' && b in rts' && a != b
      ensures rts'[a].ResultChan != rts'[b].ResultChan
    {
      if a != id && b != id {
        assert rts'[a] == rts[a] && rts'[b] == rts[b];
      } else if a == id {
        assert ChanOpen(rts[b].ResultChan, closed, next);
      } else {
        assert ChanOpen(rts[a].ResultChan, closed, next);
      }
    }
    forall a, b, k | a in rts' && b in rts' && k in rts'[b].UpscaleResultChannels
      ensures rts'[a].ResultChan != rts'[b].UpscaleResultChannels[k]
    {
      assert b != id;
      assert ChanOpen(rts[b].UpscaleResultChannels[k], closed, next);
      if a != id {
        assert rts'[a] == rts[a];
      }
    }
  }

  /** Installing the newest channel as a waiter of a registered runtime keeps the invariant. */
  lemma RegistryAddWaiter(rts: map<string, TaskRuntime>, closed: set<ChanId>, next: ChanId, id: string, r: TaskRuntime, index: string)
    requires RegistryOk(rts, closed, next) && id in rts && next !in closed
    requires r.TaskId == id && r.ResultChan == rts[id].ResultChan
    requires r.UpscaleResultChannels == rts[id].UpscaleResultChannels[index := next]
    ensures RegistryOk(rts[id := r], closed, next + 1)
  {
    RegistryGrow(rts, closed, next, next + 1);
    var rts' := rts[id := r];
    assert RuntimeOpen(rts[id], closed, next + 1);
    forall a, b, k | a in rts' && b in rts' && k in rts'[b].UpscaleResultChannels
      ensures rts'[a].ResultChan != rts'[b].UpscaleResultChannels[k]
    {
      assert rts'[a].ResultChan == rts[a].ResultChan;
      assert RuntimeOpen(rts[a], closed, next);
      if b != id || k != index {
        assert rts'[b].UpscaleResultChannels[k] == rts[b].UpscaleResultChannels[k];
      }
    }
  }

  /** Removing a runtime and closing its result channel keeps the invariant. */
  lemma RegistryRemove(rts: map<string, TaskRuntime>, closed: set<ChanId>, next: ChanId, id: string)
    requires RegistryOk(rts, closed, next) && id in rts
    ensures RegistryOk(rts - {id}, closed + {rts[id].ResultChan}, next)
  {
    var c := rts[id].ResultChan;
    var rts' := rts - {id};
    forall b | b in rts'
      ensures RuntimeOpen(rts'[b], closed + {c}, next)
    {
      assert rts[b].ResultChan != c;
      forall k | k in rts[b].UpscaleResultChannels
        ensures rts[b].UpscaleResultChannels[k] != c
      {
      }
      assert RuntimeOpen(rts[b], closed, next);
    }
  }

  /** The first embed with a create-failure title and a footer, if any. */
  function FirstFailureEmbed(embeds: seq<Embed>): (e: Option<Embed>)
    ensures e.None? <==> forall i :: 0 <= i < |embeds| ==> !IsFailureEmbed(embeds[i])
    ensures e.Some? ==> exists i :: 0 <= i < |embeds| && embeds[i] == e.value && IsFailureEmbed(e.value)
                                   && forall j :: 0 <= j < i ==> !IsFailureEmbed(embeds[j])
  {
    if embeds == [] then None
    else if IsFailureEmbed(embeds[0]) then Some(embeds[0])
    else
      var e := FirstFailureEmbed(embeds[1..]);
      assert forall i :: 1 <= i < |embeds| ==> embeds[i] == embeds[1..][i - 1];
      e
  }

  predicate IsFailureEmbed(e: Embed) {
    e.Title in CreateFailureTitles && e.Footer.Some?
  }

  /** How many embeds carry the image-filter title of update events. */
  function FilterEmbedCount(embeds: seq<Embed>): (n: nat)
    ensures n <= |embeds|
  {
    if embeds == [] then 0
    else FilterEmbedCount(embeds[..|embeds| - 1]) + (if embeds[|embeds| - 1].Title in UpdateFailureTitles then 1 else 0)
  }

  /** Counting over a prefix never exceeds counting over the whole. */
  lemma {:induction false} FilterEmbedCountPrefix(embeds: seq<Embed>, i: nat)
    requires i <= |embeds|
    ensures FilterEmbedCount(embeds[..i]) <= FilterEmbedCount(embeds)
    decreases |embeds| - i
  {
    if i < |embeds| {
      var e1 := embeds[..i + 1];
      assert e1[..|e1| - 1] == embeds[..i];
      FilterEmbedCountPrefix(embeds, i + 1);
    } else {
      assert embeds[..i] == embeds;
    }
  }

  /**
   * The effect of DescribeTaskHandler once the file header opened, from the
   * calls, registry and outbox before (`calls0`, `rts0`, `sent0`) to after:
   * the upload call comes first; without an uploaded file the answer is
   * ErrUpload and nothing else happens; with one, the describe request for
   * it follows, the runtime is bound to the interaction id it returned, and
   * a status >= 400 sends one failure result.
   */
  predicate Described(taskId: string, p: ImageDescribeTaskPayload, err: Option<Error>,
                      calls0: seq<Call>, rts0: map<string, TaskRuntime>, sent0: seq<Delivery>,
                      calls: seq<Call>, rts: map<string, TaskRuntime>, sent: seq<Delivery>)
  {
    && taskId in rts0
    && |calls| > |calls0| && calls[..|calls0|] == calls0
    && calls[|calls0|].Cmd == Command.UploadAttachment(p.ImageFileName, "0", p.ImageFileSize)
    && calls[|calls0|].Outcome.Uploaded?
    && var uploaded := calls[|calls0|].Outcome.uploadFilename;
    && (uploaded.None? ==> err == Some(ErrUpload) && |calls| == |calls0| + 1 && rts == rts0 && sent == sent0)
    && (uploaded.Some? ==>
          && err.None? && |calls| == |calls0| + 2
          && var c := calls[|calls0| + 1];
          && c.Cmd == DescribeUploaded(p.ImageFileName, uploaded.value) && c.Outcome.Status?
          && rts == rts0[taskId := rts0[taskId].(InteractionId := c.Outcome.interactionId)]
          && sent == sent0 +
               (if c.Outcome.code >= 400
                then [Delivery(rts0[taskId].ResultChan, TaskResult(taskId, false, FailureMessage(taskId, c.Outcome.code), NoPayload))]
                else []))
  }

  class DiscordBot {
    const BotId: string
    /** config.UpscaleCount: how many variants an auto-upscale requests. */
    const UpscaleCount: int
    /** config.MaxUnfinishedTasks. */
    const MaxUnfinishedTasks: int
    const md5: Md5
    const channels: Channels

    var taskRuntimes: map<string, TaskRuntime>
    var FileHeaders: map<string, FileHeader>
    /** The pending tasks of `taskChan`, oldest first. */
    var taskChan: seq<MidjourneyTask>
    /** Every outbound request, with what it came back with. */
    var calls: seq<Call>

    predicate Valid()
      reads this, channels
    {
      && channels.Valid()
      && |taskChan| <= TaskChanCapacity
      && RegistryOk(taskRuntimes, channels.closed, channels.next)
    }

    constructor (botId: string, upscaleCount: int, maxUnfinishedTasks: int, md5: Md5, channels: Channels)
      requires channels.Valid()
      ensures Valid()
      ensures BotId == botId && UpscaleCount == upscaleCount && MaxUnfinishedTasks == maxUnfinishedTasks
      ensures this.md5 == md5 && this.channels == channels
      ensures taskRuntimes == map[] && FileHeaders == map[] && taskChan == [] && calls == []
    {
      BotId, UpscaleCount, MaxUnfinishedTasks := botId, upscaleCount, maxUnfinishedTasks;
      this.md5, this.channels := md5, channels;
      taskRuntimes, FileHeaders, taskChan, calls := map[], map[], [], [];
    }

    /** One outbound request; the status code and interaction id are the chat service's answer. */
    method Request(cmd: Command) returns (code: int, interactionId: string)
      modifies this
      ensures calls == old(calls) + [Call(cmd, Status(code, interactionId))]
      ensures taskRuntimes == old(taskRuntimes) && FileHeaders == old(FileHeaders) && taskChan == old(taskChan)
    {
      code :| true;
      interactionId :| true;
      calls := calls + [Call(cmd, Status(code, interactionId))];
    }

    /** uploadImageToAttachment: the uploaded file's name, or None for an upload error. */
    method UploadAttachment(filename: string, attachmentId: string, size: int) returns (uploaded: Option<string>)
      modifies this
      ensures calls == old(calls) + [Call(Command.UploadAttachment(filename, attachmentId, size), Uploaded(uploaded))]
      ensures taskRuntimes == old(taskRuntimes) && FileHeaders == old(FileHeaders) && taskChan == old(taskChan)
    {
      uploaded :| true;
      calls := calls + [Call(Command.UploadAttachment(filename, attachmentId, size), Uploaded(uploaded))];
    }

    /** `bot.taskChan <- task`; a full queue blocks the sender, so the caller must find room. */
    method Enqueue(task: MidjourneyTask)
      requires Valid() && |taskChan| < TaskChanCapacity
      modifies this
      ensures Valid()
      ensures taskChan == old(taskChan) + [task]
      ensures taskRuntimes == old(taskRuntimes) && FileHeaders == old(FileHeaders) && calls == old(calls)
    {
      taskChan := taskChan + [task];
    }

    /**
     * RemoveTaskRuntime: close the task's result channel and drop it from
     * the registry; a missing id changes nothing, other entries never change.
     */
    method RemoveTaskRuntime(taskId: string)
      requires Valid()
      modifies this, channels
      ensures Valid()
      ensures taskRuntimes == old(taskRuntimes) - {taskId}
      ensures channels.closed == if taskId in old(taskRuntimes)
                                 then old(channels.closed) + {old(taskRuntimes)[taskId].ResultChan}
                                 else old(channels.closed)
      ensures channels.sent == old(channels.sent) && channels.next == old(channels.next)
      ensures FileHeaders == old(FileHeaders) && taskChan == old(taskChan) && calls == old(calls)
    {
      if taskId in taskRuntimes {
        RegistryRemove(taskRuntimes, channels.closed, channels.next, taskId);
        assert RuntimeOpen(taskRuntimes[taskId], channels.closed, channels.next);
        channels.Close(taskRuntimes[taskId].ResultChan);
        taskRuntimes := taskRuntimes - {taskId};
      } else {
        assert taskRuntimes - {taskId} == taskRuntimes;
      }
    }

    /**
     * getTaskRuntimeByOriginMessageId: some runtime whose origin message is
     * `messageId`, or None when there is none. There is no guard for "", so
     * "" finds a task whose origin message is not bound yet.
     */
    method TaskRuntimeByOriginMessageId(messageId: string) returns (r: Option<TaskRuntime>)
      requires Valid()
      ensures r.None? <==> forall id :: id in taskRuntimes ==> taskRuntimes[id].OriginImageMessageId != messageId
      ensures r.Some? ==> r.value.TaskId in taskRuntimes && taskRuntimes[r.value.TaskId] == r.value
                          && r.value.OriginImageMessageId == messageId
    {
      var keys := taskRuntimes.Keys;
      while keys != {}
        invariant keys <= taskRuntimes.Keys
        invariant forall id :: id in taskRuntimes && id !in keys ==> taskRuntimes[id].OriginImageMessageId != messageId
        decreases keys
      {
        var id :| id in keys;
        if taskRuntimes[id].OriginImageMessageId == messageId {
          return Some(taskRuntimes[id]);
        }
        keys := keys - {id};
      }
      return None;
    }

    /**
     * getTaskRuntimeByInteractionId: None for "", otherwise some runtime
     * bound to `interactionId`, or None when there is none.
     */
    method TaskRuntimeByInteractionId(interactionId: string) returns (r: Option<TaskRuntime>)
      requires Valid()
      ensures r.None? <==> interactionId == "" || forall id :: id in taskRuntimes ==> taskRuntimes[id].InteractionId != interactionId
      ensures r.Some? ==> r.value.TaskId in taskRuntimes && taskRuntimes[r.value.TaskId] == r.value
                          && r.value.InteractionId == interactionId
    {
      if interactionId == "" {
        return None;
      }
      var keys := taskRuntimes.Keys;
      while keys != {}
        invariant keys <= taskRuntimes.Keys
        invariant forall id :: id in taskRuntimes && id !in keys ==> taskRuntimes[id].InteractionId != interactionId
        decreases keys
      {
        var id :| id in keys;
        if taskRuntimes[id].InteractionId == interactionId {
          return Some(taskRuntimes[id]);
        }
        keys := keys - {id};
      }
      return None;
    }

    /**
     * The failure path shared by the event handlers: a registered task gets
     * one unsuccessful image result carrying `message` and is removed; an
     * unknown id changes nothing.
     */
    method FailTask(taskId: string, message: string)
      requires Valid()
      modifies this, channels
      ensures Valid()
      ensures Failed(taskId, message)
      ensures channels.next == old(channels.next)
      ensures FileHeaders == old(FileHeaders) && taskChan == old(taskChan) && calls == old(calls)
    {
      if taskId in taskRuntimes {
        var r := taskRuntimes[taskId];
        assert RuntimeOpen(r, channels.closed, channels.next);
        Response(channels, r, false, message, ImagePayload("", []));
        RemoveTaskRuntime(taskId);
      } else {
        assert taskRuntimes - {taskId} == taskRuntimes;
      }
    }

    /** Nothing observable changed since the start of the operation. */
    twostate predicate Unchanged()
      reads this, channels
    {
      && taskRuntimes == old(taskRuntimes) && FileHeaders == old(FileHeaders)
      && taskChan == old(taskChan) && calls == old(calls)
      && channels.sent == old(channels.sent) && channels.closed == old(channels.closed)
      && channels.next == old(channels.next)
    }

    /** No outbound call was made and no channel was sent on or closed since the start of the operation. */
    twostate predicate OutboxKept()
      reads this, channels
    {
      calls == old(calls) && channels.sent == old(channels.sent) && channels.closed == old(channels.closed)
    }

    /**
     * The effect of FailTask: when `taskId` was registered, one failed image
     * result with `message` went to its result channel, which was closed,
     * and the runtime is gone; otherwise nothing was sent or closed.
     */
    twostate predicate Failed(taskId: string, message: string)
      reads this, channels
    {
      && taskRuntimes == old(taskRuntimes) - {taskId}
      && (taskId in old(taskRuntimes) ==>
            && channels.sent == old(channels.sent) + [Delivery(old(taskRuntimes)[taskId].ResultChan, TaskResult(taskId, false, message, ImagePayload("", [])))]
            && channels.closed == old(channels.closed) + {old(taskRuntimes)[taskId].ResultChan})
      && (taskId !in old(taskRuntimes) ==> channels.sent == old(channels.sent) && channels.closed == old(channels.closed))
    }

    /** The calls made since the start of the operation extend the old ones by exactly `n`. */
    twostate predicate CallsAdded(n: nat)
      reads this
    {
      |calls| == |old(calls)| + n && calls[..|old(calls)|] == old(calls)
    }

    // -------------------------------------------------------------------
    // The worker loop (Start)

    /**
     * One turn of the worker loop: take the oldest task off the queue and
     * run the case for its type; a task of unknown type is dropped with no
     * other effect.
     */
    method WorkerStep()
      requires Valid() && |taskChan| > 0
      modifies this, channels
      ensures Valid()
      ensures taskChan == old(taskChan[1..])
      ensures old(taskChan[0]).TaskType.UnknownType? ==>
        && taskRuntimes == old(taskRuntimes) && FileHeaders == old(FileHeaders) && calls == old(calls)
        && channels.sent == old(channels.sent) && channels.closed == old(channels.closed)
    {
      var task := taskChan[0];
      taskChan := taskChan[1..];
      match task.TaskType
      case ImageGeneration =>
        var _ := RunImageGeneration(task);
      case ImageUpscale =>
        var _ := RunImageUpscale(task);
      case ImageDescribe =>
        var _ := RunImageDescribe(task);
      case UnknownType(_) =>
    }

    /**
     * The image-generation case of the worker loop. A payload that does not
     * decode is dropped. Otherwise the imagine request goes out, between a
     * switch to fast mode and a switch back when the payload asks for fast
     * mode, whatever the status; `status` is its status code. A status
     * >= 400 fails a still registered task and removes it.
     */
    method RunImageGeneration(task: MidjourneyTask) returns (status: Option<int>)
      requires Valid()
      modifies this, channels
      ensures Valid()
      ensures taskChan == old(taskChan) && FileHeaders == old(FileHeaders) && channels.next == old(channels.next)
      ensures DecodeGeneration(task.Payload).None? ==> status.None? && Unchanged()
      ensures DecodeGeneration(task.Payload).Some? ==>
        var p := DecodeGeneration(task.Payload).value;
        var k := |old(calls)| + (if p.FastMode then 1 else 0);
        && status.Some?
        && CallsAdded(if p.FastMode then 3 else 1)
        && (p.FastMode ==> calls[|old(calls)|].Cmd == SwitchMode(true) && calls[k + 1].Cmd == SwitchMode(false))
        && IsCallOf(calls[k], Imagine(task.TaskId, p.Prompt), status.value)
      ensures status.Some? && status.value >= 400 ==> Failed(task.TaskId, FailureMessage(task.TaskId, status.value))
      ensures status.Some? && status.value < 400 ==>
        taskRuntimes == old(taskRuntimes) && channels.sent == old(channels.sent) && channels.closed == old(channels.closed)
    {
      var decoded := DecodeGeneration(task.Payload);
      if decoded.None? {
        return None;
      }
      var p := decoded.value;
      if p.FastMode {
        var _, _ := Request(SwitchMode(true));
      }
      var code, _ := Request(Imagine(task.TaskId, p.Prompt));
      status := Some(code);
      if code >= 400 {
        FailTask(task.TaskId, FailureMessage(task.TaskId, code));
      }
      if p.FastMode {
        var _, _ := Request(SwitchMode(false));
      }
    }

    /**
     * The image-upscale case of the worker loop: a payload that decodes
     * yields exactly one upscale request for the origin image, index and
     * origin message it names; whatever its status, nothing else happens.
     */
    method RunImageUpscale(task: MidjourneyTask) returns (status: Option<int>)
      requires Valid()
      modifies this
      ensures Valid()
      ensures taskRuntimes == old(taskRuntimes) && FileHeaders == old(FileHeaders) && taskChan == old(taskChan)
      ensures DecodeUpscale(task.Payload).None? ==> status.None? && calls == old(calls)
      ensures DecodeUpscale(task.Payload).Some? ==>
        var p := DecodeUpscale(task.Payload).value;
        && status.Some? && CallsAdded(1)
        && IsCallOf(calls[|old(calls)|], Upscale(p.OriginImageId, p.Index, p.OriginImageMessageId), status.value)
    {
      var decoded := DecodeUpscale(task.Payload);
      if decoded.None? {
        return None;
      }
      var p := decoded.value;
      var code, _ := Request(Upscale(p.OriginImageId, p.Index, p.OriginImageMessageId));
      status := Some(code);
    }

    /**
     * The image-describe case of the worker loop. Without a decodable
     * payload or a stored file header nothing happens; a header that does
     * not open is dropped. Otherwise the describe request goes out: a status
     * >= 400 sends a failure to a registered task and keeps the header (and
     * the runtime); any other status drops the header.
     */
    method RunImageDescribe(task: MidjourneyTask) returns (status: Option<int>)
      requires Valid()
      modifies this, channels
      ensures Valid()
      ensures taskRuntimes == old(taskRuntimes) && taskChan == old(taskChan)
      ensures channels.closed == old(channels.closed) && channels.next == old(channels.next)
      ensures var id := task.TaskId;
        status.Some? <==> DecodeDescribe(task.Payload).Some? && id in old(FileHeaders) && old(FileHeaders)[id].Opens
      ensures status.None? ==> calls == old(calls) && channels.sent == old(channels.sent)
      ensures status.None? && (DecodeDescribe(task.Payload).None? || task.TaskId !in old(FileHeaders)) ==>
        FileHeaders == old(FileHeaders)
      ensures status.None? && DecodeDescribe(task.Payload).Some? && task.TaskId in old(FileHeaders) ==>
        FileHeaders == old(FileHeaders) - {task.TaskId}
      ensures status.Some? ==>
        var id := task.TaskId;
        var p := DecodeDescribe(task.Payload).value;
        && CallsAdded(1)
        && IsCallOf(calls[|old(calls)|], Describe(p.ImageFileName, p.ImageFileSize), status.value)
        && (status.value >= 400 ==>
              && FileHeaders == old(FileHeaders)
              && channels.sent == old(channels.sent) +
                   (if id in old(taskRuntimes)
                    then [Delivery(old(taskRuntimes)[id].ResultChan, TaskResult(id, false, FailureMessage(id, status.value), DescribePayload("")))]
                    else []))
        && (status.value < 400 ==> FileHeaders == old(FileHeaders) - {id} && channels.sent == old(channels.sent))
    {
      var decoded := DecodeDescribe(task.Payload);
      if decoded.None? {
        return None;
      }
      var p := decoded.value;
      var id := task.TaskId;
      if id !in FileHeaders {
        return None;
      }
      if !FileHeaders[id].Opens {
        FileHeaders := FileHeaders - {id};
        return None;
      }
      var code, _ := Request(Describe(p.ImageFileName, p.ImageFileSize));
      status := Some(code);
      if code >= 400 {
        if id in taskRuntimes {
          var r := taskRuntimes[id];
          assert RuntimeOpen(r, channels.closed, channels.next);
          Response(channels, r, false, FailureMessage(id, code), DescribePayload(""));
        }
        return;
      }
      FileHeaders := FileHeaders - {id};
    }

    // -------------------------------------------------------------------
    // Task handlers (bot_task_handler.go)

    /**
     * ImagineTaskHandler. A payload that does not decode, or a task id with
     * no runtime, is an error and nothing is sent upstream. Otherwise the
     * imagine request goes out (inside a fast-mode switch and its deferred
     * switch back when asked), the runtime is bound to the interaction id
     * it returned, whatever the status, and a status >= 400 sends one
     * failure result; the runtime stays registered.
     */
    method ImagineTaskHandler(taskId: string, payload: RawPayload) returns (err: Option<Error>)
      requires Valid()
      modifies this, channels
      ensures Valid()
      ensures taskChan == old(taskChan) && FileHeaders == old(FileHeaders)
      ensures channels.closed == old(channels.closed) && channels.next == old(channels.next)
      ensures DecodeGeneration(payload).None? ==> err == Some(ErrDecode) && Unchanged()
      ensures DecodeGeneration(payload).Some? && taskId !in old(taskRuntimes) ==>
        err == Some(ErrTaskRuntimeNotFound) && Unchanged()
      ensures DecodeGeneration(payload).Some? && taskId in old(taskRuntimes) ==>
        var p := DecodeGeneration(payload).value;
        var k := |old(calls)| + (if p.FastMode then 1 else 0);
        var r0 := old(taskRuntimes)[taskId];
        && err.None?
        && CallsAdded(if p.FastMode then 3 else 1)
        && (p.FastMode ==> calls[|old(calls)|].Cmd == SwitchMode(true) && calls[k + 1].Cmd == SwitchMode(false))
        && calls[k].Cmd == Imagine(taskId, p.Prompt) && calls[k].Outcome.Status?
        && taskRuntimes == old(taskRuntimes)[taskId := r0.(InteractionId := calls[k].Outcome.interactionId)]
        && channels.sent == old(channels.sent) +
             (if calls[k].Outcome.code >= 400
              then [Delivery(r0.ResultChan, TaskResult(taskId, false, FailureMessage(taskId, calls[k].Outcome.code), NoPayload))]
              else [])
    {
      var decoded := DecodeGeneration(payload);
      if decoded.None? {
        return Some(ErrDecode);
      }
      var p := decoded.value;
      if taskId !in taskRuntimes {
        return Some(ErrTaskRuntimeNotFound);
      }
      if p.FastMode {
        var _, _ := Request(SwitchMode(true));
      }
      var code, interactionId := Request(Imagine(taskId, p.Prompt));
      var r := taskRuntimes[taskId].(InteractionId := interactionId);
      RegistryUpdate(taskRuntimes, channels.closed, channels.next, taskId, r);
      taskRuntimes := taskRuntimes[taskId := r];
      if code >= 400 {
        assert RuntimeOpen(r, channels.closed, channels.next);
        Response(channels, r, false, FailureMessage(taskId, code), NoPayload);
      }
      if p.FastMode {
        var _, _ := Request(SwitchMode(false));
      }
      err := None;
    }

    /**
     * UpscaleTaskHandler: after a decode error nothing is sent; otherwise
     * one upscale request, and a failure result only when its status is
     * >= 400 and the task is registered.
     */
    method UpscaleTaskHandler(taskId: string, payload: RawPayload) returns (err: Option<Error>)
      requires Valid()
      modifies this, channels
      ensures Valid()
      ensures taskRuntimes == old(taskRuntimes) && taskChan == old(taskChan) && FileHeaders == old(FileHeaders)
      ensures channels.closed == old(channels.closed) && channels.next == old(channels.next)
      ensures DecodeUpscale(payload).None? ==> err == Some(ErrDecode) && Unchanged()
      ensures DecodeUpscale(payload).Some? ==>
        var p := DecodeUpscale(payload).value;
        && err.None? && CallsAdded(1)
        && var c := calls[|old(calls)|];
        && c.Cmd == Upscale(p.OriginImageId, p.Index, p.OriginImageMessageId) && c.Outcome.Status?
        && channels.sent == old(channels.sent) +
             (if c.Outcome.code >= 400 && taskId in old(taskRuntimes)
              then [Delivery(old(taskRuntimes)[taskId].ResultChan, TaskResult(taskId, false, FailureMessage(taskId, c.Outcome.code), NoPayload))]
              else [])
    {
      var decoded := DecodeUpscale(payload);
      if decoded.None? {
        return Some(ErrDecode);
      }
      var p := decoded.value;
      var code, _ := Request(Upscale(p.OriginImageId, p.Index, p.OriginImageMessageId));
      if code >= 400 && taskId in taskRuntimes {
        var r := taskRuntimes[taskId];
        assert RuntimeOpen(r, channels.closed, channels.next);
        Response(channels, r, false, FailureMessage(taskId, code), NoPayload);
      }
      err := None;
    }

    /**
     * DescribeTaskHandler. A decode error, a missing runtime or a missing
     * file header is an error with nothing sent. A found header is taken
     * out of FileHeaders; if it does not open, or the upload of the image
     * fails, that is an error. Otherwise the describe request for the
     * uploaded file goes out, the runtime is bound to its interaction id,
     * and a status >= 400 sends one failure result.
     */
    method DescribeTaskHandler(taskId: string, payload: RawPayload) returns (err: Option<Error>)
      requires Valid()
      modifies this, channels
      ensures Valid()
      ensures taskChan == old(taskChan)
      ensures channels.closed == old(channels.closed) && channels.next == old(channels.next)
      ensures DecodeDescribe(payload).None? ==> err == Some(ErrDecode) && Unchanged()
      ensures DecodeDescribe(payload).Some? && taskId !in old(taskRuntimes) ==>
        err == Some(ErrTaskRuntimeNotFound) && Unchanged()
      ensures DecodeDescribe(payload).Some? && taskId in old(taskRuntimes) && taskId !in old(FileHeaders) ==>
        err == Some(ErrFileHeader) && Unchanged()
      ensures DecodeDescribe(payload).Some? && taskId in old(taskRuntimes) && taskId in old(FileHeaders) ==>
        var p := DecodeDescribe(payload).value;
        && FileHeaders == old(FileHeaders) - {taskId}
        && (!old(FileHeaders)[taskId].Opens ==>
              err == Some(ErrOpenFile) && calls == old(calls) && taskRuntimes == old(taskRuntimes) && channels.sent == old(channels.sent))
        && (old(FileHeaders)[taskId].Opens ==>
              Described(taskId, p, err, old(calls), old(taskRuntimes), old(channels.sent), calls, taskRuntimes, channels.sent))
    {
      var decoded := DecodeDescribe(payload);
      if decoded.None? {
        return Some(ErrDecode);
      }
      var p := decoded.value;
      if taskId !in taskRuntimes {
        return Some(ErrTaskRuntimeNotFound);
      }
      if taskId !in FileHeaders {
        return Some(ErrFileHeader);
      }
      var header := FileHeaders[taskId];
      FileHeaders := FileHeaders - {taskId};
      if !header.Opens {
        return Some(ErrOpenFile);
      }
      err := UploadAndDescribe(taskId, p);
    }

    /** The second half of DescribeTaskHandler, once the file header opened. */
    method UploadAndDescribe(taskId: string, p: ImageDescribeTaskPayload) returns (err: Option<Error>)
      requires Valid() && taskId in taskRuntimes
      modifies this, channels
      ensures Valid()
      ensures taskChan == old(taskChan) && FileHeaders == old(FileHeaders)
      ensures channels.closed == old(channels.closed) && channels.next == old(channels.next)
      ensures Described(taskId, p, err, old(calls), old(taskRuntimes), old(channels.sent), calls, taskRuntimes, channels.sent)
    {
      var uploaded := UploadAttachment(p.ImageFileName, "0", p.ImageFileSize);
      if uploaded.None? {
        return Some(ErrUpload);
      }
      var code, interactionId := Request(DescribeUploaded(p.ImageFileName, uploaded.value));
      var r := taskRuntimes[taskId].(InteractionId := interactionId);
      RegistryUpdate(taskRuntimes, channels.closed, channels.next, taskId, r);
      taskRuntimes := taskRuntimes[taskId := r];
      if code >= 400 {
        assert RuntimeOpen(r, channels.closed, channels.next);
        Response(channels, r, false, FailureMessage(taskId, code), NoPayload);
      }
      err := None;
    }

    // -------------------------------------------------------------------
    // Event handlers (bot_event_handler.go)

    /** The number of upscale requests an auto-upscale makes: the loop runs for 1 .. UpscaleCount. */
    function UpscaleRequestCount(): nat {
      if UpscaleCount > 0 then UpscaleCount else 0
    }

    /**
     * The calls added since the start of the operation are the upscale
     * requests for indices 1 .. UpscaleCount of image `id` in message
     * `messageId`, in that order.
     */
    twostate predicate UpscalesRequested(id: string, messageId: string)
      reads this
    {
      && CallsAdded(UpscaleRequestCount())
      && AreUpscaleRequests(calls[|old(calls)|..], id, messageId)
    }

    /**
     * onDiscordMessageCreate. The first embed with a create-failure title
     * and a footer fails the task hashed from that footer, and the handler
     * returns; failure-titled embeds without a footer are skipped. When
     * there is no such embed, each attachment is handled in order by
     * OnOriginAttachment (no referenced message) or OnDerivedAttachment,
     * until one of them returns.
     */
    method OnMessageCreate(event: MessageCreate)
      requires Valid()
      modifies this, channels
      ensures Valid()
      ensures FileHeaders == old(FileHeaders) && taskChan == old(taskChan)
      ensures FirstFailureEmbed(event.Embeds).Some? ==>
        var e := FirstFailureEmbed(event.Embeds).value;
        && Failed(HashFromEmbeds(md5, e.Footer.value), e.Title + " " + e.Description)
        && calls == old(calls) && channels.next == old(channels.next)
      ensures FirstFailureEmbed(event.Embeds).None? && event.Attachments == [] ==> Unchanged()
    {
      var i := 0;
      while i < |event.Embeds|
        invariant 0 <= i <= |event.Embeds|
        invariant forall j :: 0 <= j < i ==> !IsFailureEmbed(event.Embeds[j])
        invariant Unchanged()
      {
        var e := event.Embeds[i];
        if e.Title in CreateFailureTitles && e.Footer.Some? {
          assert FirstFailureEmbed(event.Embeds) == Some(e) by {
            var f := FirstFailureEmbed(event.Embeds);
            assert f.Some?;
            var j :| 0 <= j < |event.Embeds| && event.Embeds[j] == f.value && IsFailureEmbed(f.value)
                     && forall j' :: 0 <= j' < j ==> !IsFailureEmbed(event.Embeds[j']);
            assert j == i;
          }
          var taskId := HashFromEmbeds(md5, e.Footer.value);
          FailTask(taskId, e.Title + " " + e.Description);
          return;
        }
        i := i + 1;
      }
      i := 0;
      while i < |event.Attachments|
        invariant 0 <= i <= |event.Attachments|
        invariant Valid()
        invariant i == 0 ==> Unchanged()
        invariant FileHeaders == old(FileHeaders) && taskChan == old(taskChan)
      {
        var url := event.Attachments[i];
        var stop;
        if event.ReferencedMessageId.None? {
          stop := OnOriginAttachment(HashFromMessage(md5, event.Content).0, event.ID, url, FileIdFromURL(url));
        } else {
          var owner;
          owner, stop := OnDerivedAttachment(event.ReferencedMessageId.value, event.Content, url);
        }
        if stop {
          return;
        }
        i := i + 1;
      }
    }

    /**
     * An attachment of a message that references no other message: the
     * original grid of a task. `taskId` is the message's hash
     * (HashFromMessage of its content) and `fileId` the file id in the
     * attachment URL (FileIdFromURL). When the hash names a registered
     * task, the task is bound to the message, the URL and the file id.
     * Without auto-upscale the origin image is delivered and the handler
     * returns (`stop`), the task staying registered; with it the task moves
     * to AutoUpscaling and UpscaleCount upscale requests go out, each failed
     * one counting as processed. A hash that names no task changes nothing.
     */
    method OnOriginAttachment(taskId: string, eventId: string, url: string, fileId: string) returns (stop: bool)
      requires Valid()
      modifies this, channels
      ensures Valid()
      ensures FileHeaders == old(FileHeaders) && taskChan == old(taskChan)
      ensures channels.closed == old(channels.closed) && channels.next == old(channels.next)
      ensures !(taskId != "" && taskId in old(taskRuntimes)) ==> !stop && Unchanged()
      ensures taskId != "" && taskId in old(taskRuntimes) ==>
        var r0 := old(taskRuntimes)[taskId];
        var bound := r0.(OriginImageMessageId := eventId, OriginImageURL := url, OriginImageId := fileId);
        if !r0.AutoUpscale then
          && stop && calls == old(calls)
          && taskRuntimes == old(taskRuntimes)[taskId := bound]
          && channels.sent == old(channels.sent) + [Delivery(r0.ResultChan, TaskResult(taskId, true, "", ImagePayload(url, [])))]
        else
          && !stop && channels.sent == old(channels.sent)
          && UpscalesRequested(fileId, eventId)
          && taskRuntimes == old(taskRuntimes)[taskId := bound.(State := AutoUpscaling,
               UpscaleProcessCount := bound.UpscaleProcessCount + FailedCount(calls[|old(calls)|..]))]
    {
      if !(taskId != "" && taskId in taskRuntimes) {
        return false;
      }
      // The fields are set, the flag read, the requests made and the state
      // and count set under one lock, so the runtime is replaced once.
      var r := taskRuntimes[taskId].(OriginImageMessageId := eventId, OriginImageURL := url, OriginImageId := fileId);
      if !r.AutoUpscale {
        DeliverOrigin(taskId, r);
        return true;
      }
      StartAutoUpscale(taskId, r, eventId);
      stop := false;
    }

    /**
     * Without auto-upscale: the bound runtime `r` replaces the registered
     * one, which stays registered, and its origin image is delivered.
     */
    method DeliverOrigin(taskId: string, r: TaskRuntime)
      requires Valid() && taskId in taskRuntimes
      requires r.TaskId == taskId && r.ResultChan == taskRuntimes[taskId].ResultChan
      requires r.UpscaleResultChannels == taskRuntimes[taskId].UpscaleResultChannels
      modifies this, channels
      ensures Valid()
      ensures FileHeaders == old(FileHeaders) && taskChan == old(taskChan) && calls == old(calls)
      ensures channels.closed == old(channels.closed) && channels.next == old(channels.next)
      ensures taskRuntimes == old(taskRuntimes)[taskId := r]
      ensures channels.sent == old(channels.sent) + [Delivery(r.ResultChan, TaskResult(taskId, true, "", ImagePayload(r.OriginImageURL, [])))]
    {
      RegistryUpdate(taskRuntimes, channels.closed, channels.next, taskId, r);
      taskRuntimes := taskRuntimes[taskId := r];
      assert RuntimeOpen(r, channels.closed, channels.next);
      Response(channels, r, true, "", ImagePayload(r.OriginImageURL, []));
    }

    /**
     * With auto-upscale: the upscale requests go out, and the bound runtime
     * `r` replaces the registered one in state AutoUpscaling, each failed
     * request counted as processed.
     */
    method StartAutoUpscale(taskId: string, r: TaskRuntime, messageId: string)
      requires Valid() && taskId in taskRuntimes
      requires r.TaskId == taskId && r.ResultChan == taskRuntimes[taskId].ResultChan
      requires r.UpscaleResultChannels == taskRuntimes[taskId].UpscaleResultChannels
      modifies this
      ensures Valid()
      ensures FileHeaders == old(FileHeaders) && taskChan == old(taskChan)
      ensures UpscalesRequested(r.OriginImageId, messageId)
      ensures taskRuntimes == old(taskRuntimes)[taskId := r.(State := AutoUpscaling,
                UpscaleProcessCount := r.UpscaleProcessCount + FailedCount(calls[|old(calls)|..]))]
    {
      var failed := RequestUpscales(r.OriginImageId, messageId);
      var r' := r.(State := AutoUpscaling, UpscaleProcessCount := r.UpscaleProcessCount + failed);
      RegistryUpdate(taskRuntimes, channels.closed, channels.next, taskId, r');
      taskRuntimes := taskRuntimes[taskId := r'];
    }

    /**
     * The auto-upscale loop: the requests for indices 1 .. UpscaleCount of
     * image `id` in message `messageId`, in order; `failed` counts those
     * that came back with a status >= 400, as no image will arrive for
     * them. Nothing but the call log changes.
     */
    method RequestUpscales(id: string, messageId: string) returns (failed: nat)
      requires Valid()
      modifies this
      ensures Valid()
      ensures UpscalesRequested(id, messageId)
      ensures failed == FailedCount(calls[|old(calls)|..])
      ensures taskRuntimes == old(taskRuntimes) && FileHeaders == old(FileHeaders) && taskChan == old(taskChan)
    {
      failed := 0;
      ghost var added: seq<Call> := [];
      var i := 1;
      while i <= UpscaleCount
        invariant 1 <= i <= UpscaleRequestCount() + 1
        invariant |added| == i - 1 && calls == old(calls) + added
        invariant AreUpscaleRequests(added, id, messageId)
        invariant failed == FailedCount(added)
        invariant taskRuntimes == old(taskRuntimes) && FileHeaders == old(FileHeaders) && taskChan == old(taskChan)
      {
        var cmd := UpscaleNth(id, i, messageId);
        var code, iid := Request(cmd);
        ghost var c := Call(cmd, Status(code, iid));
        FailedCountAppend(added, c);
        AreUpscaleRequestsAppend(added, c, id, messageId);
        added := added + [c];
        if code >= 400 {
          failed := failed + 1;
        }
        i := i + 1;
      }
      assert calls[|old(calls)|..] == added;
    }

    /**
     * An attachment of a message that references an origin message: one
     * upscaled variant. `owner` is the task found by the origin message id;
     * with none, the handler returns (`stop`). The URL is appended to the
     * task's upscaled images in every state. In AutoUpscaling the processed
     * count goes up by one, and when it reaches UpscaleCount all images and
     * the origin are delivered and the task is removed. In ManualUpscaling
     * the waiter for the `Image #N` index of the message gets the image; a
     * missing waiter makes the handler return.
     */
    method OnDerivedAttachment(refId: string, content: string, url: string) returns (owner: Option<string>, stop: bool)
      requires Valid()
      modifies this, channels
      ensures Valid()
      ensures FileHeaders == old(FileHeaders) && taskChan == old(taskChan) && calls == old(calls)
      ensures channels.next == old(channels.next)
      ensures owner.None? <==> forall id :: id in old(taskRuntimes) ==> old(taskRuntimes)[id].OriginImageMessageId != refId
      ensures owner.None? ==> stop && Unchanged()
      ensures owner.Some? ==> owner.value in old(taskRuntimes) && old(taskRuntimes)[owner.value].OriginImageMessageId == refId
      ensures owner.Some? ==>
        var id := owner.value;
        var r0 := old(taskRuntimes)[id];
        var r1 := r0.(UpscaledImageURLs := r0.UpscaledImageURLs + [url]);
        match r0.State
        case AutoUpscaling =>
          var r2 := r1.(UpscaleProcessCount := r0.UpscaleProcessCount + 1);
          && !stop
          && (r2.UpscaleProcessCount == UpscaleCount ==>
                && channels.sent == old(channels.sent) + [Delivery(r0.ResultChan, TaskResult(id, true, "", ImagePayload(r0.OriginImageURL, r1.UpscaledImageURLs)))]
                && taskRuntimes == old(taskRuntimes) - {id}
                && channels.closed == old(channels.closed) + {r0.ResultChan})
          && (r2.UpscaleProcessCount != UpscaleCount ==>
                taskRuntimes == old(taskRuntimes)[id := r2] && channels.sent == old(channels.sent) && channels.closed == old(channels.closed))
        case ManualUpscaling =>
          var index := ImageIndexFromMessage(content);
          && taskRuntimes == old(taskRuntimes)[id := r1] && channels.closed == old(channels.closed)
          && (index in r0.UpscaleResultChannels ==>
                !stop && channels.sent == old(channels.sent) + [Delivery(r0.UpscaleResultChannels[index], TaskResult(id, true, "", UpscalePayload(url, index)))])
          && (index !in r0.UpscaleResultChannels ==> stop && channels.sent == old(channels.sent))
        case Created =>
          !stop && taskRuntimes == old(taskRuntimes)[id := r1] && channels.sent == old(channels.sent) && channels.closed == old(channels.closed)
    {
      var found := TaskRuntimeByOriginMessageId(refId);
      if found.None? {
        return None, true;
      }
      var id := found.value.TaskId;
      owner := Some(id);
      match found.value.State
      case AutoUpscaling =>
        AddAutoUpscaledImage(id, url);
        stop := false;
      case ManualUpscaling =>
        stop := AddManualUpscaledImage(id, content, url);
      case Created =>
        var r := found.value.(UpscaledImageURLs := found.value.UpscaledImageURLs + [url]);
        RegistryUpdate(taskRuntimes, channels.closed, channels.next, id, r);
        taskRuntimes := taskRuntimes[id := r];
        stop := false;
    }

    /**
     * An upscaled image of a task in AutoUpscaling: the URL is appended and
     * the processed count goes up by one; when it reaches UpscaleCount the
     * origin and all images are delivered and the task is removed.
     */
    method AddAutoUpscaledImage(id: string, url: string)
      requires Valid() && id in taskRuntimes && taskRuntimes[id].State == AutoUpscaling
      modifies this, channels
      ensures Valid()
      ensures FileHeaders == old(FileHeaders) && taskChan == old(taskChan) && calls == old(calls)
      ensures channels.next == old(channels.next)
      ensures var r0 := old(taskRuntimes)[id];
        var r1 := r0.(UpscaledImageURLs := r0.UpscaledImageURLs + [url]);
        var r2 := r1.(UpscaleProcessCount := r0.UpscaleProcessCount + 1);
        && (r2.UpscaleProcessCount == UpscaleCount ==>
              && channels.sent == old(channels.sent) + [Delivery(r0.ResultChan, TaskResult(id, true, "", ImagePayload(r0.OriginImageURL, r1.UpscaledImageURLs)))]
              && taskRuntimes == old(taskRuntimes) - {id}
              && channels.closed == old(channels.closed) + {r0.ResultChan})
        && (r2.UpscaleProcessCount != UpscaleCount ==>
              taskRuntimes == old(taskRuntimes)[id := r2] && channels.sent == old(channels.sent) && channels.closed == old(channels.closed))
    {
      var r0 := taskRuntimes[id];
      var r1 := r0.(UpscaledImageURLs := r0.UpscaledImageURLs + [url]);
      var r := r1.(UpscaleProcessCount := r0.UpscaleProcessCount + 1);
      RegistryUpdate(taskRuntimes, channels.closed, channels.next, id, r);
      taskRuntimes := taskRuntimes[id := r];
      if r.UpscaleProcessCount == UpscaleCount {
        assert RuntimeOpen(r, channels.closed, channels.next);
        Response(channels, r, true, "", ImagePayload(r.OriginImageURL, r.UpscaledImageURLs));
        RemoveTaskRuntime(id);
        UpdateThenRemove(old(taskRuntimes), id, r);
      }
    }

    /**
     * An upscaled image of a task in ManualUpscaling: the URL is appended,
     * and the waiter for the `Image #N` index of the message gets the image;
     * without such a waiter the handler returns (`stop`).
     */
    method AddManualUpscaledImage(id: string, content: string, url: string) returns (stop: bool)
      requires Valid() && id in taskRuntimes
      modifies this, channels
      ensures Valid()
      ensures FileHeaders == old(FileHeaders) && taskChan == old(taskChan) && calls == old(calls)
      ensures channels.next == old(channels.next)
      ensures var r0 := old(taskRuntimes)[id];
        var r1 := r0.(UpscaledImageURLs := r0.UpscaledImageURLs + [url]);
        var index := ImageIndexFromMessage(content);
        && taskRuntimes == old(taskRuntimes)[id := r1] && channels.closed == old(channels.closed)
        && (index in r0.UpscaleResultChannels ==>
              !stop && channels.sent == old(channels.sent) + [Delivery(r0.UpscaleResultChannels[index], TaskResult(id, true, "", UpscalePayload(url, index)))])
        && (index !in r0.UpscaleResultChannels ==> stop && channels.sent == old(channels.sent))
    {
      var r0 := taskRuntimes[id];
      var r := r0.(UpscaledImageURLs := r0.UpscaledImageURLs + [url]);
      RegistryUpdate(taskRuntimes, channels.closed, channels.next, id, r);
      taskRuntimes := taskRuntimes[id := r];
      var index := ImageIndexFromMessage(content);
      if index !in r.UpscaleResultChannels {
        return true;
      }
      assert RuntimeOpen(r, channels.closed, channels.next);
      channels.Send(r.UpscaleResultChannels[index], TaskResult(id, true, "", UpscalePayload(url, index)));
      stop := false;
    }

    /**
     * One embed of an update event: an image-filter title fails the task
     * hashed from the message content; otherwise, for a `describe`
     * interaction, the task bound to that interaction (`owner`) gets a
     * successful result carrying the embed's description, and stays
     * registered. Anything else changes nothing.
     */
    method OnUpdateEmbed(e: Embed, content: string, interaction: Option<Interaction>) returns (owner: Option<string>)
      requires Valid()
      modifies this, channels
      ensures Valid()
      ensures FileHeaders == old(FileHeaders) && taskChan == old(taskChan) && calls == old(calls)
      ensures channels.next == old(channels.next)
      ensures e.Title in UpdateFailureTitles ==>
        owner.None? && Failed(HashFromMessage(md5, content).0, e.Title + " " + e.Description)
      ensures e.Title !in UpdateFailureTitles && interaction.Some? && interaction.value.Name == "describe" ==>
        var iid := interaction.value.ID;
        && (owner.None? <==> iid == "" || forall id :: id in old(taskRuntimes) ==> old(taskRuntimes)[id].InteractionId != iid)
        && (owner.None? ==> Unchanged())
        && (owner.Some? ==>
              && owner.value in old(taskRuntimes) && old(taskRuntimes)[owner.value].InteractionId == iid
              && taskRuntimes == old(taskRuntimes) && channels.closed == old(channels.closed)
              && channels.sent == old(channels.sent) +
                   [Delivery(old(taskRuntimes)[owner.value].ResultChan, TaskResult(owner.value, true, "success", DescribePayload(e.Description)))])
      ensures e.Title !in UpdateFailureTitles && !(interaction.Some? && interaction.value.Name == "describe") ==>
        owner.None? && Unchanged()
    {
      owner := None;
      if e.Title in UpdateFailureTitles {
        var (taskId, _) := HashFromMessage(md5, content);
        FailTask(taskId, e.Title + " " + e.Description);
      } else if interaction.Some? && interaction.value.Name == "describe" {
        var found := TaskRuntimeByInteractionId(interaction.value.ID);
        if found.Some? {
          owner := Some(found.value.TaskId);
          assert RuntimeOpen(found.value, channels.closed, channels.next);
          Response(channels, found.value, true, "success", DescribePayload(e.Description));
        }
      }
    }

    /**
     * onDiscordMessageUpdate: each embed in order goes through
     * OnUpdateEmbed. The registry lock is taken, with a deferred unlock,
     * inside the loop for every image-filter embed, so a second such embed
     * blocks the handler forever: `deadlocked` holds exactly then, and the
     * handler stops there. The registry only loses entries.
     */
    method OnMessageUpdate(event: MessageUpdate) returns (deadlocked: bool)
      requires Valid()
      modifies this, channels
      ensures Valid()
      ensures deadlocked <==> FilterEmbedCount(event.Embeds) >= 2
      ensures FileHeaders == old(FileHeaders) && taskChan == old(taskChan) && calls == old(calls)
      ensures forall id :: id in taskRuntimes ==> id in old(taskRuntimes) && taskRuntimes[id] == old(taskRuntimes)[id]
      ensures FilterEmbedCount(event.Embeds) == 0 && event.Interaction.None? ==> Unchanged()
    {
      var embeds := event.Embeds;
      var locked := false;
      var i := 0;
      while i < |embeds|
        invariant 0 <= i <= |embeds|
        invariant Valid()
        invariant locked <==> FilterEmbedCount(embeds[..i]) >= 1
        invariant FilterEmbedCount(embeds[..i]) <= 1
        invariant FileHeaders == old(FileHeaders) && taskChan == old(taskChan) && calls == old(calls)
        invariant forall id :: id in taskRuntimes ==> id in old(taskRuntimes) && taskRuntimes[id] == old(taskRuntimes)[id]
        invariant FilterEmbedCount(embeds) == 0 && event.Interaction.None? ==> Unchanged()
      {
        var e := embeds[i];
        assert embeds[..i + 1][..i] == embeds[..i];
        FilterEmbedCountPrefix(embeds, i + 1);
        if e.Title in UpdateFailureTitles && locked {
          return true;
        }
        if e.Title in UpdateFailureTitles {
          locked := true;
        }
        var _ := OnUpdateEmbed(e, event.Content, event.Interaction);
        i := i + 1;
      }
      assert embeds[..i] == embeds;
      return false;
    }

    // -------------------------------------------------------------------
    // Admission (the per-bot part of service_interaction.go)

    /**
     * The per-bot part of Imagine. With more runtimes registered than
     * MaxUnfinishedTasks nothing changes and the answer is ErrTooManyTasks.
     * Otherwise a seed below math.MaxUint32 is drawn, the prompt is
     * normalised with it, the task id is the hash of the normalised prompt,
     * a fresh runtime is filed under that id (replacing any runtime with the
     * same id), and an image-generation task carrying the normalised prompt
     * is queued. The send on the queue blocks while the queue is full, so
     * the caller must find room.
     */
    method AdmitImagine(prompt: string, params: string, fastMode: bool, autoUpscale: bool)
      returns (taskId: string, seed: string, resultChan: Option<ChanId>, err: Option<Error>)
      requires Valid()
      requires |taskRuntimes| <= MaxUnfinishedTasks ==> |taskChan| < TaskChanCapacity
      modifies this, channels
      ensures Valid()
      ensures calls == old(calls) && FileHeaders == old(FileHeaders)
      ensures channels.sent == old(channels.sent) && channels.closed == old(channels.closed)
      ensures |old(taskRuntimes)| > MaxUnfinishedTasks <==> err.Some?
      ensures err.Some? ==> err.value == ErrTooManyTasks && taskId == "" && resultChan.None? && Unchanged()
      ensures err.None? ==>
        && IsDrawnSeed(seed) && |seed| > 0 && AllDigits(seed)
        && taskId == ImagineTaskId(md5, prompt, params, seed)
        && resultChan == Some(old(channels.next)) && channels.next == old(channels.next) + 1
        && taskId in taskRuntimes
        && IsNewRuntime(taskRuntimes[taskId], taskId, autoUpscale) && taskRuntimes[taskId].ResultChan == old(channels.next)
        && taskRuntimes == old(taskRuntimes)[taskId := taskRuntimes[taskId]]
        && taskChan == old(taskChan) + [MidjourneyTask(taskId, ImageGeneration,
             EncodeGeneration(ImageGenerationTaskPayload(NormalizePrompt(prompt, params, seed), fastMode, autoUpscale)))]
    {
      if |taskRuntimes| > MaxUnfinishedTasks {
        return "", "", None, Some(ErrTooManyTasks);
      }
      var n: nat :| n < 0xFFFF_FFFF;
      seed := Itoa(n);
      var normalized := NormalizePrompt(prompt, params, seed);
      taskId := HashFromPrompt(md5, normalized, seed);
      var r := NewTaskRuntime(channels, taskId, autoUpscale);
      RegistryInsert(taskRuntimes, channels.closed, old(channels.next), taskId, r);
      taskRuntimes := taskRuntimes[taskId := r];
      assert RegistryOk(taskRuntimes, channels.closed, channels.next);
      Enqueue(MidjourneyTask(taskId, ImageGeneration, EncodeGeneration(ImageGenerationTaskPayload(normalized, fastMode, autoUpscale))));
      resultChan, err := Some(r.ResultChan), None;
    }

    /**
     * The per-bot part of Upscale. An id with no runtime is ErrTaskNotFound
     * and changes nothing. Otherwise the runtime moves to ManualUpscaling, a
     * fresh channel becomes the waiter for `index` (replacing an earlier
     * one), and an upscale task naming the runtime's origin image and
     * origin message is queued.
     */
    method AdmitUpscale(taskId: string, index: string) returns (waiter: Option<ChanId>, err: Option<Error>)
      requires Valid()
      requires taskId in taskRuntimes ==> |taskChan| < TaskChanCapacity
      modifies this, channels
      ensures Valid()
      ensures calls == old(calls) && FileHeaders == old(FileHeaders)
      ensures channels.sent == old(channels.sent) && channels.closed == old(channels.closed)
      ensures taskId !in old(taskRuntimes) <==> err.Some?
      ensures err.Some? ==> err.value == ErrTaskNotFound && waiter.None? && Unchanged()
      ensures err.None? ==>
        var r0 := old(taskRuntimes)[taskId];
        && waiter == Some(old(channels.next)) && channels.next == old(channels.next) + 1
        && taskRuntimes == old(taskRuntimes)[taskId := r0.(State := ManualUpscaling,
             UpscaleResultChannels := r0.UpscaleResultChannels[index := old(channels.next)])]
        && taskChan == old(taskChan) + [MidjourneyTask(taskId, ImageUpscale,
             EncodeUpscale(ImageUpscaleTaskPayload(r0.OriginImageId, index, r0.OriginImageMessageId)))]
    {
      if taskId !in taskRuntimes {
        return None, Some(ErrTaskNotFound);
      }
      var r0 := taskRuntimes[taskId];
      var c := channels.Make();
      var r := r0.(State := ManualUpscaling, UpscaleResultChannels := r0.UpscaleResultChannels[index := c]);
      RegistryAddWaiter(taskRuntimes, channels.closed, c, taskId, r, index);
      taskRuntimes := taskRuntimes[taskId := r];
      assert RegistryOk(taskRuntimes, channels.closed, channels.next);
      Enqueue(MidjourneyTask(taskId, ImageUpscale, EncodeUpscale(ImageUpscaleTaskPayload(r0.OriginImageId, index, r0.OriginImageMessageId))));
      waiter, err := Some(c), None;
    }

    /**
     * The per-bot part of Describe: the file header is stored under the
     * caller's task id, a fresh runtime without auto-upscale is filed under
     * it (replacing any runtime with the same id), and a describe task is
     * queued. There is no limit on unfinished tasks here.
     */
    method AdmitDescribe(taskId: string, file: FileHeader, filename: string, size: int) returns (resultChan: ChanId)
      requires Valid() && |taskChan| < TaskChanCapacity
      modifies this, channels
      ensures Valid()
      ensures calls == old(calls)
      ensures channels.sent == old(channels.sent) && channels.closed == old(channels.closed)
      ensures FileHeaders == old(FileHeaders)[taskId := file]
      ensures resultChan == old(channels.next) && channels.next == old(channels.next) + 1
      ensures taskId in taskRuntimes
      ensures IsNewRuntime(taskRuntimes[taskId], taskId, false) && taskRuntimes[taskId].ResultChan == resultChan
      ensures taskRuntimes == old(taskRuntimes)[taskId := taskRuntimes[taskId]]
      ensures taskChan == old(taskChan) + [MidjourneyTask(taskId, ImageDescribe, EncodeDescribe(ImageDescribeTaskPayload(filename, size)))]
    {
      FileHeaders := FileHeaders[taskId := file];
      var r := NewTaskRuntime(channels, taskId, false);
      RegistryInsert(taskRuntimes, channels.closed, old(channels.next), taskId, r);
      taskRuntimes := taskRuntimes[taskId := r];
      assert RegistryOk(taskRuntimes, channels.closed, channels.next);
      Enqueue(MidjourneyTask(taskId, ImageDescribe, EncodeDescribe(ImageDescribeTaskPayload(filename, size))));
      resultChan := r.ResultChan;
    }
  }
}
