/**
 * The bot pool and its public entry points (internal/discordmd/service.go
 * and the bot-selection part of service_interaction.go).
 *
 * Each bot owns its result channels: no two bots of the pool share a
 * `Channels` object, so an operation on one bot leaves every other bot as
 * it was.
 */
module Service {
  import opened Wrappers
  import opened Runtime
  import opened Tasks
  import opened Prompt
  import opened Bot

  /** The pool after filing the created bots in order, a later bot replacing an earlier one with the same id. */
  function AddBots(pool: map<string, DiscordBot>, created: seq<Option<DiscordBot>>): map<string, DiscordBot> {
    if created == [] then pool
    else
      var before := AddBots(pool, created[..|created| - 1]);
      match created[|created| - 1]
      case None => before
      case Some(bot) => before[bot.BotId := bot]
  }

  /** Every created bot is in the pool under its id, and every other id keeps its bot. */
  lemma {:induction false} AddBotsContents(pool: map<string, DiscordBot>, created: seq<Option<DiscordBot>>)
    ensures forall id :: id in AddBots(pool, created) <==>
      id in pool || exists i :: 0 <= i < |created| && created[i].Some? && created[i].value.BotId == id
    ensures forall id :: id in pool && (forall i :: 0 <= i < |created| && created[i].Some? ==> created[i].value.BotId != id) ==>
      AddBots(pool, created)[id] == pool[id]
  {
    if created != [] {
      var init := created[..|created| - 1];
      AddBotsContents(pool, init);
      forall i | 0 <= i < |init| ensures init[i] == created[i] { }
    }
  }

  /** A bot no later bot shares its id with is the one filed under that id. */
  lemma {:induction false} AddBotsLastWins(pool: map<string, DiscordBot>, created: seq<Option<DiscordBot>>, i: nat)
    requires i < |created| && created[i].Some?
    requires forall j :: i < j < |created| && created[j].Some? ==> created[j].value.BotId != created[i].value.BotId
    ensures created[i].value.BotId in AddBots(pool, created)
    ensures AddBots(pool, created)[created[i].value.BotId] == created[i].value
  {
    if i < |created| - 1 {
      AddBotsLastWins(pool, created[..|created| - 1], i);
    }
  }

  /**
   * A bot created after the ones already filed shares its channels with
   * none of them, given that its channels are new to the original pool and
   * to every bot created before it.
   */
  lemma NextBotOwnsChannels(pool: map<string, DiscordBot>, chans0: set<Channels>, created: seq<Option<DiscordBot>>, k: nat)
    requires k < |created| && created[k].Some? && created[k].value.channels !in chans0
    requires forall i :: 0 <= i < k && created[i].Some? ==> created[i].value.channels != created[k].value.channels
    requires forall id :: id in pool ==>
      pool[id].channels in chans0 || exists i :: 0 <= i < k && created[i] == Some(pool[id])
    ensures forall a :: a in pool ==> pool[a].channels != created[k].value.channels
  {
    forall a | a in pool
      ensures pool[a].channels != created[k].value.channels
    {
      var o := pool[a];
      if o.channels !in chans0 {
        var i :| 0 <= i < k && created[i] == Some(o);
      }
    }
  }

  /** Every bot of `pool` other than `bot` still is what it was. */
  twostate predicate OthersUnchanged(pool: map<string, DiscordBot>, bot: DiscordBot)
    reads pool.Values, set id | id in pool :: pool[id].channels
  {
    forall id :: id in pool && id != bot.BotId ==> unchanged(pool[id]) && unchanged(pool[id].channels)
  }

  class MidJourneyService {
    var discordBots: map<string, DiscordBot>
    /** The bot each task was pinned to by GetBot. */
    var taskIdToBotId: map<string, string>

    /** The channel objects of all bots of the pool. */
    function BotChannels(): set<Channels>
      reads this
    {
      set id | id in discordBots :: discordBots[id].channels
    }

    /**
     * Every bot is filed under its own id and is valid, and no two bots
     * share their channels.
     */
    predicate Valid()
      reads this, discordBots.Values, BotChannels()
    {
      && (forall id :: id in discordBots ==> discordBots[id].BotId == id && discordBots[id].Valid())
      && (forall a, b :: a in discordBots && b in discordBots && a != b ==> discordBots[a].channels != discordBots[b].channels)
    }

    constructor ()
      ensures Valid() && discordBots == map[] && taskIdToBotId == map[]
    {
      discordBots, taskIdToBotId := map[], map[];
    }

    /**
     * Start: each bot that could be created (`Some`) is filed under its id,
     * in order; a bot that could not be created (`None`) is skipped. The
     * bots come fresh from NewDiscordBot: valid, and owning their channels.
     */
    method Start(created: seq<Option<DiscordBot>>)
      requires Valid()
      requires forall i :: 0 <= i < |created| && created[i].Some? ==>
        created[i].value.Valid() && created[i].value.channels !in BotChannels()
      requires forall i, j :: 0 <= i < j < |created| && created[i].Some? && created[j].Some? ==>
        created[i].value.channels != created[j].value.channels
      modifies this
      ensures Valid()
      ensures taskIdToBotId == old(taskIdToBotId)
      ensures discordBots == AddBots(old(discordBots), created)
    {
      ghost var chans0 := BotChannels();
      var k := 0;
      while k < |created|
        invariant 0 <= k <= |created|
        invariant Valid()
        invariant taskIdToBotId == old(taskIdToBotId)
        invariant discordBots == AddBots(old(discordBots), created[..k])
        invariant forall id :: id in discordBots ==>
          discordBots[id].channels in chans0 || exists i :: 0 <= i < k && created[i] == Some(discordBots[id])
      {
        assert created[..k + 1][..k] == created[..k];
        if created[k].Some? {
          var bot := created[k].value;
          NextBotOwnsChannels(discordBots, chans0, created, k);
          AddBot(bot);
        }
        k := k + 1;
      }
      assert created[..k] == created;
    }

    /** `m.discordBots[bot.BotId] = bot` for a valid bot whose channels no other bot of the pool shares. */
    method AddBot(bot: DiscordBot)
      requires Valid() && bot.Valid()
      requires forall a :: a in discordBots && a != bot.BotId ==> discordBots[a].channels != bot.channels
      modifies this
      ensures Valid()
      ensures discordBots == old(discordBots)[bot.BotId := bot] && taskIdToBotId == old(taskIdToBotId)
    {
      discordBots := discordBots[bot.BotId := bot];
    }

    /**
     * GetBot: a task seen before gets the bot it was pinned to, or
     * ErrBotNotFound when that bot is no longer in the pool; an unseen task
     * is pinned to some bot of the pool (rand.Intn panics on an empty pool,
     * so the pool must not be empty then). The pin of a task never changes.
     */
    method GetBot(taskId: string) returns (bot: Option<DiscordBot>, err: Option<Error>)
      requires Valid()
      requires taskId !in taskIdToBotId ==> |discordBots| > 0
      modifies this
      ensures discordBots == old(discordBots)
      ensures taskId in old(taskIdToBotId) ==> taskIdToBotId == old(taskIdToBotId)
      ensures taskId !in old(taskIdToBotId) ==> bot.Some? && taskIdToBotId == old(taskIdToBotId)[taskId := bot.value.BotId]
      ensures bot.None? <==> err.Some?
      ensures err.Some? ==> err.value == ErrBotNotFound && taskId in old(taskIdToBotId) && old(taskIdToBotId)[taskId] !in discordBots
      ensures bot.Some? ==> taskId in taskIdToBotId && taskIdToBotId[taskId] in discordBots
                            && bot.value == discordBots[taskIdToBotId[taskId]]
    {
      if taskId !in taskIdToBotId {
        var key :| key in discordBots;
        bot := Some(discordBots[key]);
        taskIdToBotId := taskIdToBotId[taskId := discordBots[key].BotId];
        return bot, None;
      }
      var botId := taskIdToBotId[taskId];
      if botId !in discordBots {
        return None, Some(ErrBotNotFound);
      }
      return Some(discordBots[botId]), None;
    }

    /**
     * The bot an entry point works on: for "" some bot of the pool
     * (GetRandomBot, which is not part of this model, so any bot may be
     * chosen; the pool must not be empty), otherwise the bot filed under
     * `botId`, or None when there is none.
     */
    method SelectBot(botId: string) returns (bot: Option<DiscordBot>)
      requires Valid()
      requires botId == "" ==> |discordBots| > 0
      ensures botId == "" ==> bot.Some?
      ensures botId != "" ==> (bot.Some? <==> botId in discordBots)
      ensures bot.Some? ==> bot.value.BotId in discordBots && discordBots[bot.value.BotId] == bot.value
      ensures bot.Some? && botId != "" ==> bot.value.BotId == botId
    {
      if botId == "" {
        var key :| key in discordBots;
        return Some(discordBots[key]);
      }
      if botId !in discordBots {
        return None;
      }
      return Some(discordBots[botId]);
    }

    /**
     * Imagine: ErrBotNotFound for an unknown bot id, with nothing changed;
     * otherwise what AdmitImagine does on the selected bot, whose id is
     * returned, every other bot staying as it was.
     */
    method Imagine(botId: string, prompt: string, params: string, fastMode: bool, autoUpscale: bool)
      returns (allocatedBotId: string, taskId: string, resultChan: Option<ChanId>, err: Option<Error>)
      requires Valid()
      requires botId == "" ==> |discordBots| > 0
      requires forall id :: id in discordBots ==>
        |discordBots[id].taskRuntimes| <= discordBots[id].MaxUnfinishedTasks ==> |discordBots[id].taskChan| < TaskChanCapacity
      modifies discordBots.Values, BotChannels()
      ensures Valid()
      ensures botId != "" && botId !in discordBots ==>
        err == Some(ErrBotNotFound) && allocatedBotId == "" && taskId == "" && resultChan.None?
        && forall id :: id in old(discordBots) ==> unchanged(old(discordBots)[id]) && unchanged(old(discordBots)[id].channels)
      ensures botId == "" || botId in discordBots ==>
        && allocatedBotId in discordBots && (botId != "" ==> allocatedBotId == botId)
        && var bot := discordBots[allocatedBotId];
        && OthersUnchanged(old(discordBots), bot)
        && bot.OutboxKept() && bot.FileHeaders == old(bot.FileHeaders)
        && (|old(bot.taskRuntimes)| > bot.MaxUnfinishedTasks <==> err == Some(ErrTooManyTasks))
        && (err == Some(ErrTooManyTasks) ==> taskId == "" && resultChan.None? && bot.Unchanged())
        && (err.None? ==>
              && resultChan == Some(old(bot.channels.next)) && taskId in bot.taskRuntimes
              && bot.taskRuntimes[taskId].ResultChan == resultChan.value
              && IsNewRuntime(bot.taskRuntimes[taskId], taskId, autoUpscale)
              && bot.taskRuntimes == old(bot.taskRuntimes)[taskId := bot.taskRuntimes[taskId]]
              && exists seed :: (IsDrawnSeed(seed) && taskId == ImagineTaskId(bot.md5, prompt, params, seed)
                 && bot.taskChan == old(bot.taskChan) + [MidjourneyTask(taskId, ImageGeneration,
                      EncodeGeneration(ImageGenerationTaskPayload(NormalizePrompt(prompt, params, seed), fastMode, autoUpscale)))]))
      ensures err.Some? ==> err.value == ErrBotNotFound || err.value == ErrTooManyTasks
    {
      var selected := SelectBot(botId);
      if selected.None? {
        return "", "", None, Some(ErrBotNotFound);
      }
      var bot := selected.value;
      allocatedBotId := bot.BotId;
      var seed;
      taskId, seed, resultChan, err := bot.AdmitImagine(prompt, params, fastMode, autoUpscale);
      OthersKeepValid(bot);
    }

    /**
     * Upscale: ErrBotNotFound for an unknown bot id, with nothing changed;
     * otherwise what AdmitUpscale does on the selected bot, every other bot
     * staying as it was.
     */
    method Upscale(botId: string, taskId: string, index: string)
      returns (allocatedBotId: string, waiter: Option<ChanId>, err: Option<Error>)
      requires Valid()
      requires botId == "" ==> |discordBots| > 0
      requires forall id :: id in discordBots ==>
        taskId in discordBots[id].taskRuntimes ==> |discordBots[id].taskChan| < TaskChanCapacity
      modifies discordBots.Values, BotChannels()
      ensures Valid()
      ensures botId != "" && botId !in discordBots ==>
        err == Some(ErrBotNotFound) && allocatedBotId == "" && waiter.None?
        && forall id :: id in old(discordBots) ==> unchanged(old(discordBots)[id]) && unchanged(old(discordBots)[id].channels)
      ensures botId == "" || botId in discordBots ==>
        && allocatedBotId in discordBots && (botId != "" ==> allocatedBotId == botId)
        && var bot := discordBots[allocatedBotId];
        && OthersUnchanged(old(discordBots), bot)
        && bot.OutboxKept() && bot.FileHeaders == old(bot.FileHeaders)
        && (taskId !in old(bot.taskRuntimes) <==> err == Some(ErrTaskNotFound))
        && (err == Some(ErrTaskNotFound) ==> waiter.None? && bot.Unchanged())
        && (err.None? ==>
              var r0 := old(bot.taskRuntimes)[taskId];
              && waiter == Some(old(bot.channels.next))
              && bot.taskRuntimes == old(bot.taskRuntimes)[taskId := r0.(State := ManualUpscaling,
                   UpscaleResultChannels := r0.UpscaleResultChannels[index := old(bot.channels.next)])]
              && bot.taskChan == old(bot.taskChan) + [MidjourneyTask(taskId, ImageUpscale,
                   EncodeUpscale(ImageUpscaleTaskPayload(r0.OriginImageId, index, r0.OriginImageMessageId)))])
      ensures err.Some? ==> err.value == ErrBotNotFound || err.value == ErrTaskNotFound
    {
      var selected := SelectBot(botId);
      if selected.None? {
        return "", None, Some(ErrBotNotFound);
      }
      var bot := selected.value;
      allocatedBotId := bot.BotId;
      waiter, err := bot.AdmitUpscale(taskId, index);
      OthersKeepValid(bot);
    }

    /**
     * Describe: ErrBotNotFound for an unknown bot id, with nothing changed;
     * otherwise what AdmitDescribe does on the selected bot, every other
     * bot staying as it was.
     */
    method Describe(botId: string, taskId: string, file: FileHeader, filename: string, size: int)
      returns (allocatedBotId: string, resultChan: Option<ChanId>, err: Option<Error>)
      requires Valid()
      requires botId == "" ==> |discordBots| > 0
      requires forall id :: id in discordBots ==> |discordBots[id].taskChan| < TaskChanCapacity
      modifies discordBots.Values, BotChannels()
      ensures Valid()
      ensures botId != "" && botId !in discordBots ==>
        err == Some(ErrBotNotFound) && allocatedBotId == "" && resultChan.None?
        && forall id :: id in old(discordBots) ==> unchanged(old(discordBots)[id]) && unchanged(old(discordBots)[id].channels)
      ensures botId == "" || botId in discordBots ==>
        && err.None? && allocatedBotId in discordBots && (botId != "" ==> allocatedBotId == botId)
        && var bot := discordBots[allocatedBotId];
        && OthersUnchanged(old(discordBots), bot)
        && bot.OutboxKept()
        && resultChan == Some(old(bot.channels.next))
        && bot.FileHeaders == old(bot.FileHeaders)[taskId := file]
        && taskId in bot.taskRuntimes && IsNewRuntime(bot.taskRuntimes[taskId], taskId, false)
        && bot.taskRuntimes[taskId].ResultChan == resultChan.value
        && bot.taskRuntimes == old(bot.taskRuntimes)[taskId := bot.taskRuntimes[taskId]]
        && bot.taskChan == old(bot.taskChan) + [MidjourneyTask(taskId, ImageDescribe, EncodeDescribe(ImageDescribeTaskPayload(filename, size)))]
    {
      var selected := SelectBot(botId);
      if selected.None? {
        return "", None, Some(ErrBotNotFound);
      }
      var bot := selected.value;
      allocatedBotId := bot.BotId;
      var c := bot.AdmitDescribe(taskId, file, filename, size);
      resultChan, err := Some(c), None;
      OthersKeepValid(bot);
    }

    /**
     * After an operation that changed only `bot` and its channels and left
     * it valid, the pool is still valid.
     */
    twostate lemma OthersKeepValid(bot: DiscordBot)
      requires old(Valid()) && bot.BotId in old(discordBots) && old(discordBots)[bot.BotId] == bot
      requires discordBots == old(discordBots) && bot.Valid() && OthersUnchanged(old(discordBots), bot)
      ensures Valid()
    {
      forall id | id in discordBots && id != bot.BotId
        ensures discordBots[id].Valid()
      {
        var o := discordBots[id];
        assert old(o.Valid());
      }
    }
  }
}
