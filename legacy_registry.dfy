/**
 * The single-service entry points of internal/discordmd/interaction.go: an
 * older version of the engine in which one service, not a pool of bots,
 * owns the task registry and the task queue. It shares the runtime record,
 * the task payloads, the prompt normalisation and the registry invariant
 * with the bot model.
 */
module LegacyRegistry {
  import opened Wrappers
  import opened GoStrings
  import opened Parse
  import opened Prompt
  import opened Runtime
  import opened Tasks
  import opened Bot

  class RegistryService {
    /** config.MaxUnfinishedTasks. */
    const MaxUnfinishedTasks: int
    const md5: Md5
    const channels: Channels

    var taskRuntimes: map<string, TaskRuntime>
    /** The pending tasks of `taskChan`, oldest first. */
    var taskChan: seq<MidjourneyTask>

    predicate Valid()
      reads this, channels
    {
      && channels.Valid()
      && |taskChan| <= TaskChanCapacity
      && RegistryOk(taskRuntimes, channels.closed, channels.next)
    }

    constructor (maxUnfinishedTasks: int, md5: Md5, channels: Channels)
      requires channels.Valid()
      ensures Valid()
      ensures MaxUnfinishedTasks == maxUnfinishedTasks && this.md5 == md5 && this.channels == channels
      ensures taskRuntimes == map[] && taskChan == []
    {
      MaxUnfinishedTasks, this.md5, this.channels := maxUnfinishedTasks, md5, channels;
      taskRuntimes, taskChan := map[], [];
    }

    /** Nothing the service owns has changed. */
    twostate predicate Unchanged()
      reads this, channels
    {
      && taskRuntimes == old(taskRuntimes) && taskChan == old(taskChan)
      && channels.sent == old(channels.sent) && channels.closed == old(channels.closed)
      && channels.next == old(channels.next)
    }

    /** `m.taskChan <- task`; a full queue blocks the sender, so the caller must find room. */
    method Enqueue(task: MidjourneyTask)
      requires Valid() && |taskChan| < TaskChanCapacity
      modifies this
      ensures Valid()
      ensures taskChan == old(taskChan) + [task] && taskRuntimes == old(taskRuntimes)
    {
      taskChan := taskChan + [task];
    }

    /**
     * Imagine: ErrTooManyTasks, with nothing registered, exactly when more
     * than MaxUnfinishedTasks runtimes are registered. Otherwise a seed is
     * drawn, the prompt normalised with it, and a fresh Created runtime is
     * filed under the hash of the normalised prompt (replacing any runtime
     * with that id) before one generation task carrying that prompt is
     * queued.
     */
    method Imagine(prompt: string, params: string, fastMode: bool, autoUpscale: bool)
      returns (taskId: string, seed: string, resultChan: Option<ChanId>, err: Option<Error>)
      requires Valid()
      requires |taskRuntimes| <= MaxUnfinishedTasks ==> |taskChan| < TaskChanCapacity
      modifies this, channels
      ensures Valid()
      ensures channels.sent == old(channels.sent) && channels.closed == old(channels.closed)
      ensures |old(taskRuntimes)| > MaxUnfinishedTasks <==> err.Some?
      ensures err.Some? ==> err.value == ErrTooManyTasks && taskId == "" && resultChan.None? && Unchanged()
      ensures err.None? ==>
        && IsDrawnSeed(seed)
        && taskId == ImagineTaskId(md5, prompt, params, seed)
        && resultChan == Some(old(channels.next)) && channels.next == old(channels.next) + 1
        && taskId in taskRuntimes
        && IsNewRuntime(taskRuntimes[taskId], taskId, autoUpscale) && taskRuntimes[taskId].ResultChan == old(channels.next)
        && taskRuntimes == old(taskRuntimes)[taskId := taskRuntimes[taskId]]
        && taskChan == old(taskChan) + [MidjourneyTask(taskId, ImageGeneration,
             EncodeGeneration(ImageGenerationTaskPayload(NormalizePrompt(prompt, params, seed), fastMode, autoUpscale)))]
    {
      if |taskRuntimes| > MaxUnfinishedTasks {
        return "", "", None, Some(ErrTooManyTasks);
      }
      var n: nat :| n < 0xFFFF_FFFF;
      seed := Itoa(n);
      var normalized := NormalizePrompt(prompt, params, seed);
      taskId := HashFromPrompt(md5, normalized, seed);
      var r := NewTaskRuntime(channels, taskId, autoUpscale);
      RegistryInsert(taskRuntimes, channels.closed, old(channels.next), taskId, r);
      taskRuntimes := taskRuntimes[taskId := r];
      assert RegistryOk(taskRuntimes, channels.closed, channels.next);
      Enqueue(MidjourneyTask(taskId, ImageGeneration, EncodeGeneration(ImageGenerationTaskPayload(normalized, fastMode, autoUpscale))));
      resultChan, err := Some(r.ResultChan), None;
    }

    /**
     * Upscale: ErrTaskNotFound, with nothing changed, for an id with no
     * runtime. Otherwise the runtime moves to ManualUpscaling, a fresh
     * channel becomes the waiter for `index` (replacing an earlier one), and
     * one upscale task naming the runtime's origin image and origin message
     * is queued.
     */
    method Upscale(taskId: string, index: string) returns (waiter: Option<ChanId>, err: Option<Error>)
      requires Valid()
      requires taskId in taskRuntimes ==> |taskChan| < TaskChanCapacity
      modifies this, channels
      ensures Valid()
      ensures channels.sent == old(channels.sent) && channels.closed == old(channels.closed)
      ensures taskId !in old(taskRuntimes) <==> err.Some?
      ensures err.Some? ==> err.value == ErrTaskNotFound && waiter.None? && Unchanged()
      ensures err.None? ==>
        var r0 := old(taskRuntimes)[taskId];
        && waiter == Some(old(channels.next)) && channels.next == old(channels.next) + 1
        && taskRuntimes == old(taskRuntimes)[taskId := r0.(State := ManualUpscaling,
             UpscaleResultChannels := r0.UpscaleResultChannels[index := old(channels.next)])]
        && taskChan == old(taskChan) + [MidjourneyTask(taskId, ImageUpscale,
             EncodeUpscale(ImageUpscaleTaskPayload(r0.OriginImageId, index, r0.OriginImageMessageId)))]
    {
      if taskId !in taskRuntimes {
        return None, Some(ErrTaskNotFound);
      }
      var r0 := taskRuntimes[taskId];
      var c := channels.Make();
      var r := r0.(State := ManualUpscaling, UpscaleResultChannels := r0.UpscaleResultChannels[index := c]);
      RegistryAddWaiter(taskRuntimes, channels.closed, c, taskId, r, index);
      taskRuntimes := taskRuntimes[taskId := r];
      assert RegistryOk(taskRuntimes, channels.closed, channels.next);
      Enqueue(MidjourneyTask(taskId, ImageUpscale, EncodeUpscale(ImageUpscaleTaskPayload(r0.OriginImageId, index, r0.OriginImageMessageId))));
      waiter, err := Some(c), None;
    }

    /**
     * Describe: a fresh runtime without auto-upscale is filed under the
     * caller's task id, replacing any runtime with that id, and one describe
     * task is queued. It never fails and has no limit on unfinished tasks;
     * the file header is not kept in this version.
     */
    method Describe(taskId: string, filename: string, size: int) returns (resultChan: ChanId)
      requires Valid() && |taskChan| < TaskChanCapacity
      modifies this, channels
      ensures Valid()
      ensures channels.sent == old(channels.sent) && channels.closed == old(channels.closed)
      ensures resultChan == old(channels.next) && channels.next == old(channels.next) + 1
      ensures taskId in taskRuntimes
      ensures IsNewRuntime(taskRuntimes[taskId], taskId, false) && taskRuntimes[taskId].ResultChan == resultChan
      ensures taskRuntimes == old(taskRuntimes)[taskId := taskRuntimes[taskId]]
      ensures taskChan == old(taskChan) + [MidjourneyTask(taskId, ImageDescribe, EncodeDescribe(ImageDescribeTaskPayload(filename, size)))]
    {
      var r := NewTaskRuntime(channels, taskId, false);
      RegistryInsert(taskRuntimes, channels.closed, old(channels.next), taskId, r);
      taskRuntimes := taskRuntimes[taskId := r];
      assert RegistryOk(taskRuntimes, channels.closed, channels.next);
      Enqueue(MidjourneyTask(taskId, ImageDescribe, EncodeDescribe(ImageDescribeTaskPayload(filename, size))));
      resultChan := r.ResultChan;
    }
  }
}
