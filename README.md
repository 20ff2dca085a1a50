# Task correlation and lifecycle engine of midjourney-http, in Dafny

`internal/discordmd` drives image jobs (imagine, upscale, describe) through a
chat service. That service returns no id when it accepts a command, so the
engine has to do its own correlation.

It builds a task id from text: the normalised prompt with `--seed N`
appended, links replaced by the seed, then hashed. Later it recovers the
same key from what comes back:
- the prompt echoed between `**…**` in a posted message;
- the footer of a failure embed;
- the file UUID in an attachment URL;
- the `Image #N` index of an upscale reply.

Each bot keeps a registry from task id to a `TaskRuntime`. A runtime moves
from Created to AutoUpscaling or ManualUpscaling, and ends when it is
delivered or removed. Inbound events advance it:
- a failure-titled embed fails the task;
- an origin grid binds the task to its message;
- upscaled images are counted up to `UpscaleCount`, or routed to the waiter
  registered for their index.

The entry points handle admission:
- `ErrTooManyTasks`, `ErrTaskNotFound` and `ErrBotNotFound`;
- a queue of depth one towards each bot's worker;
- pinning a task to one bot.

Three generations of the package sit side by side in the repository, and
each has its own module here:

- **Current version.** Modules `Parse`, `Prompt`, `Runtime`, `Tasks`,
  `Events`, `Bot` and `Service` model a pool of `DiscordBot`s. They cover
  `parse.go`, `runtime.go`, `bot.go`, `bot_event_handler.go`,
  `bot_task_handler.go`, `service.go` and `service_interaction.go`.
- **`LegacyRegistry`** models `interaction.go`. There, one service owns the
  registry and the queue. It reuses the runtime record and the registry
  invariant of `Bot`.
- **`LegacyMaps`** and **`LegacyParse`** model `discord.go`. That is the
  oldest service: four maps instead of runtimes, and its own hash helpers.

## How the model is built

- **Text.** Strings are `seq<char>`. Every regular expression the code uses
  is a hand-written scanner with RE2's leftmost-first semantics:
  - `\s` is `[\t\n\f\r ]`;
  - `.` excludes `\n`;
  - `FindAll` takes non-overlapping matches.
- **External functions.** MD5 is a parameter `md5: string -> string`. The
  code's truncation of the hex digest to 32 characters is modelled.
  `uuid.Parse` is an abstract predicate `IsUUID`.
- **Channels.** A Go channel is a `ChanId`. Everything ever sent is kept,
  in order, in the outbox `sent` of a `Channels` object, which also records
  the closed channels.
- **The registry and the invariant.** A runtime is a value in the registry
  map. The invariant `Bot.RegistryOk` says:
  - every runtime is filed under its own id;
  - all of its channels are open;
  - no channel is shared.

  It is kept by every operation, so removing a runtime never closes a
  channel twice.
- **Outbound calls.** Each call (imagine, upscale, describe, switch mode,
  upload) is a method whose status code and interaction id are chosen
  nondeterministically. It is logged with its outcome in `calls`, and the
  contracts speak about that log. In `LegacyMaps` the codes are ignored, so
  only the commands are logged, in `requests`.
- **Queues.** `taskChan` is a sequence of pending tasks. A send on a full
  queue blocks in Go, so every enqueue requires room.
- **Task payloads.** A payload is a `RawPayload`: either text that
  `json.Unmarshal` rejects, or an object with every field any payload
  struct declares. Marshalling a payload struct fills its own fields and
  leaves the others at their zero values; unmarshalling into a struct reads
  its own fields and fails exactly on malformed text. The JSON text itself
  is not modelled, so the handlers' contracts speak of these values.
- **Seeds.** The seed drawn by `Imagine` is any decimal below
  `math.MaxUint32` (`Prompt.IsDrawnSeed`).

## Model

| member | source | states |
|---|---|---|
| Parse.Digest | internal/discordmd/parse.go:15-19 | the key is the hex digest cut to at most 32 characters, and the digest itself when it is no longer |
| Parse.HashFromPrompt | internal/discordmd/parse.go:11-21 | the key has at most 32 characters; HashIgnoresLinkText and ReplaceLinksAtLink state what it is taken of |
| Parse.HashIgnoresLinkText | internal/discordmd/parse.go:11-20 | two prompts that differ only in the text of one link (scheme up to whitespace) get the same key |
| Parse.ReplaceLinksNoLinks | internal/discordmd/parse.go:83-86 | text without `http://` or `https://` is returned unchanged |
| Parse.ReplaceLinksAtLink | internal/discordmd/parse.go:83-86 | a link, from its scheme up to the next whitespace, becomes the seed; the text on each side is replaced independently |
| Parse.ReplaceLinksAppend | internal/discordmd/parse.go:83-86 | replacing links distributes over a split that follows whitespace |
| Parse.LastSeedFromMessageSpec | internal/discordmd/parse.go:72-80 | no seed exactly when `--seed\s+\d+` never matches; otherwise the non-empty digit group of the last non-overlapping match |
| Parse.LastSeedOfSuffix | internal/discordmd/parse.go:72-80 | a text that ends with `--seed N` yields N |
| Parse.HashFromEmbeds | internal/discordmd/parse.go:24-45 | "" when the footer has no space or when the part after its first word has no seed; the key has at most 32 characters |
| Parse.HashFromEmbedsOfFooter | internal/discordmd/parse.go:27-44 | for a footer `w rest`, the first word is dropped, and the key is getHashFromPrompt of the trimmed rest with the rest's last seed |
| Parse.HashFromMessageSpec | internal/discordmd/parse.go:48-70 | ("", "") when there is no `**…**` segment or no seed in the whole message; otherwise the key of the trimmed first bold segment with `<http…>` links replaced by the last seed |
| Parse.HashFromMessage | internal/discordmd/parse.go:48-70 | the key has at most 32 characters |
| Parse.ReplaceAngleLinksNoLinks | internal/discordmd/parse.go:61-62 | a prompt without links is left unchanged by the `<https?://\S+>` replacement |
| Parse.ReplaceAngleLinksAppend | internal/discordmd/parse.go:61-62 | replacing `<https?://\S+>` links distributes over a split that follows whitespace |
| Parse.ReplaceAngleLinksAtLink | internal/discordmd/parse.go:61-62 | a link `<L>` between whitespace becomes the seed, `<` and `>` included; the text on each side is replaced independently |
| Parse.ReplaceAngleLinksKeepsBareLink | internal/discordmd/parse.go:61-62 | a link not wrapped in `<…>` is kept as it is |
| Parse.FileIdFromURL | internal/discordmd/parse.go:89-100 | the file id is "" or a 36-character lower-case hexadecimal 8-4-4-4-12 UUID text |
| Parse.FileIdFromURLLocated | internal/discordmd/parse.go:89-100 | a non-empty id is a UUID text of the URL after which no `/` follows |
| Parse.FileIdFromURLSpec | internal/discordmd/parse.go:89-100 | the id is "" exactly when no position of the URL starts a UUID text followed by no `/` |
| Parse.ImageIndexFromMessage | internal/discordmd/parse.go:102-109 | the index is "" or all digits |
| Parse.ImageIndexFromMessageSpec | internal/discordmd/parse.go:102-109 | "" exactly when `Image #` followed by a digit occurs nowhere |
| Parse.ImageIndexRoundTrip | internal/discordmd/parse.go:102-109 | for `…Image #N…` with no `#` before the marker, the index is the decimal text of N |
| Prompt.NormalizedShape | internal/discordmd/service_interaction.go:33-38 | the normalised prompt is single-spaced, has no leading or trailing space and no `—`, and ends with the word pair `--seed <seed>` |
| Prompt.NormalizedSeedRecovered | internal/discordmd/service_interaction.go:33-38 | getLastSeedFromMessage of the normalised prompt recovers the appended seed |
| Prompt.NormalizedIsWords | internal/discordmd/service_interaction.go:36-38 | normalising again changes nothing: joining its fields, trimming and replacing `—` all return the normalised prompt |
| Prompt.ImagineTaskId | internal/discordmd/service_interaction.go:40 | the task id is the key of the normalised prompt and has at most 32 characters |
| Prompt.FooterCorrelates | internal/discordmd/parse.go:24-45 | a failure footer `command <normalised prompt>` yields exactly the task id Imagine computed |
| Prompt.EchoBoldLine | internal/discordmd/parse.go:49-54 | a one-line text without `**` inside and without `*` at its end, written between `**` and `**`, is exactly what `\*{2}(.+?)\*{2}` captures |
| Prompt.EchoCorrelates | internal/discordmd/parse.go:48-70 | an echoed `**<normalised prompt>**…` without links or `**` in the prompt and without a seed after it yields the task id and the normalised prompt |
| Prompt.EchoWithLinkCorrelates | internal/discordmd/parse.go:48-70 | a normalised prompt `p L q` echoed as `**p <L2> q**…`, with any link L2 in place of L and no seed after it, yields the task id Imagine computed and the prompt `p <seed> q` |
| LegacyParse.FirstSeed | internal/discordmd/discord.go:319-323 | the seed found is a non-empty digit run |
| LegacyParse.FirstSeedSpec | internal/discordmd/discord.go:319-323 | no seed exactly when `--seed\s+\d+` never matches; otherwise the group of the leftmost match |
| LegacyParse.FirstIsLastWhenUnique | internal/discordmd/discord.go:319-323 | with exactly one seed match, the older first-match rule and the newer last-match rule agree |
| LegacyParse.MessageHashesAgree | internal/discordmd/discord.go:310-332 | with exactly one seed match, the older and the newer getHashFromMessage return the same key and prompt |
| LegacyParse.LegacyHashFromPrompt | internal/discordmd/discord.go:334-345 | the key has at most 32 characters |
| LegacyParse.ReplaceWordLinksNoLinks | internal/discordmd/discord.go:336-337 | the `\bhttps?://\S+\b` replacement leaves a prompt without links unchanged |
| LegacyParse.ReplaceWordLinksAtLink | internal/discordmd/discord.go:336-337 | a link between whitespace that ends in a word character becomes the seed; link-free text on each side is kept |
| LegacyParse.WordLinkKeepsTrailingSlash | internal/discordmd/discord.go:336-337 | `http://a/` becomes `1/` under seed `1`: the match must end at a word boundary, so a trailing `/` survives |
| LegacyParse.AngleLinkTakesTrailingSlash | internal/discordmd/discord.go:312-324 | `<http://a/>` becomes `1` under seed `1`: the angle-bracket pattern takes the whole link |
| LegacyParse.LegacyHashFromMessage | internal/discordmd/discord.go:310-332 | ("", "") when there is no `**…**` segment or no seed; the key has at most 32 characters |
| LegacyParse.LegacyHashFromEmbeds | internal/discordmd/discord.go:347-370 | "" when the footer has no seed or its trimmed text has no space; the key has at most 32 characters |
| LegacyParse.FooterHashesLikePrompt | internal/discordmd/discord.go:347-370 | a footer `command prompt`, whose prompt has no links and no trailing space, hashes like getHashFromPrompt of the prompt with the footer's first seed |
| LegacyParse.FooterWithLinkHashesLikePrompt | internal/discordmd/discord.go:347-370 | a footer `command p <L2> q` whose first seed is `seed` hashes like getHashFromPrompt of `p L q` with `seed`, when L ends in a word character |
| LegacyParse.GetIdFromURL | internal/discordmd/discord.go:286-303 | a non-empty id passes uuid.Parse, contains no `_` or `.`, and is the last `_` piece (of two or more) of the second-to-last `.` piece of the URL; a URL without `.` gives "" |
| LegacyParse.GetIdFromURLOfName | internal/discordmd/discord.go:286-303 | a URL `…_<uuid>.<ext>` yields the UUID |
| Runtime.NewTaskRuntime | internal/discordmd/runtime.go:30-40 | the runtime carries the given id and auto-upscale flag and is Created; it has no waiters, no images, an empty keyword hash and zero ids and count; its result channel is new, open and empty |
| Runtime.Response | internal/discordmd/runtime.go:42-49 | exactly one result is sent on the runtime's channel, carrying its task id and the given flag, message and payload |
| Events.FailureTitleSets | internal/discordmd/service.go:20-35 | the create-failure set has 11 titles, the update-failure set has 1, and the two sets are disjoint |
| Bot.RegistryInsert | internal/discordmd/service_interaction.go:43-53 | filing a fresh runtime with a new result channel keeps the registry invariant |
| Bot.RegistryAddWaiter | internal/discordmd/service_interaction.go:87-89 | installing a new channel as the waiter for an index keeps the registry invariant |
| Bot.RegistryUpdate | internal/discordmd/bot_event_handler.go:59-61 | changing a runtime's fields but not its channels keeps the registry invariant |
| Bot.RegistryRemove | internal/discordmd/bot.go:166-171 | deleting a runtime and closing its result channel keeps the registry invariant |
| Bot.FirstFailureEmbed | internal/discordmd/bot_event_handler.go:16-45 | None exactly when no embed has a create-failure title and a footer; otherwise the first such embed |
| Bot.DiscordBot.RemoveTaskRuntime | internal/discordmd/bot.go:166-171 | only the given id is deleted and its result channel closed; an absent id changes nothing |
| Bot.DiscordBot.TaskRuntimeByOriginMessageId | internal/discordmd/bot.go:173-180 | None exactly when no runtime has that origin message id ("" included); otherwise a registered runtime that has it |
| Bot.DiscordBot.TaskRuntimeByInteractionId | internal/discordmd/bot.go:182-191 | None for "" or when no runtime has that interaction id; otherwise a registered runtime that has it |
| Bot.DiscordBot.FailTask | internal/discordmd/bot_event_handler.go:26-39 | a registered task gets one failed image result with the message, its channel is closed and it is removed; an unknown id changes nothing |
| Bot.DiscordBot.WorkerStep | internal/discordmd/bot.go:75-160 | the oldest task leaves the queue; a task of unknown type has no other effect |
| Bot.DiscordBot.RunImageGeneration | internal/discordmd/bot.go:79-114 | an undecodable payload has no effect; otherwise one imagine request, inside switch-to-fast and switch-back requests when FastMode is set, whatever the status; status >= 400 fails and removes the task if still registered |
| Bot.DiscordBot.RunImageUpscale | internal/discordmd/bot.go:115-125 | a decoded payload yields one upscale request for its image, index and message; nothing else changes |
| Bot.DiscordBot.RunImageDescribe | internal/discordmd/bot.go:126-157 | without a payload or a header nothing happens; a header that fails to open is dropped; status >= 400 sends a failure and keeps header and runtime; success drops the header |
| Bot.DiscordBot.ImagineTaskHandler | internal/discordmd/bot_task_handler.go:14-46 | a decode error or a missing runtime returns an error with nothing sent; otherwise the fast-mode bracket, the interaction id bound whatever the status, and one failure result for status >= 400 with the runtime kept |
| Bot.DiscordBot.UpscaleTaskHandler | internal/discordmd/bot_task_handler.go:48-66 | a decode error sends nothing; otherwise one upscale request, and a failure result only for status >= 400 on a registered task |
| Bot.DiscordBot.DescribeTaskHandler | internal/discordmd/bot_task_handler.go:68-111 | a decode error or a missing runtime or header is an error with nothing sent; a found header is deleted; an unopenable header is an error; otherwise as UploadAndDescribe |
| Bot.DiscordBot.UploadAndDescribe | internal/discordmd/bot_task_handler.go:95-108 | the upload comes first, and a failed upload is an error; then one describe request, the interaction id bound, and one failure result for status >= 400 |
| Bot.DiscordBot.OnMessageCreate | internal/discordmd/bot_event_handler.go:14-128 | the first failure embed with a footer fails the task hashed from that footer, and nothing else happens; footerless ones are skipped; without failure embeds or attachments nothing changes |
| Bot.DiscordBot.OnOriginAttachment | internal/discordmd/bot_event_handler.go:52-85 | a hash naming a live task binds the origin message, URL and file id; without auto-upscale it delivers the origin and stops, keeping the task; with it the task moves to AutoUpscaling and failed requests are counted as processed; a miss changes nothing |
| Bot.DiscordBot.DeliverOrigin | internal/discordmd/bot_event_handler.go:62-70 | one success carrying the origin URL and no images; the task stays registered |
| Bot.DiscordBot.StartAutoUpscale | internal/discordmd/bot_event_handler.go:73-82 | exactly the upscale requests for 1..UpscaleCount are made; the state becomes AutoUpscaling and the count grows by the number of failed requests |
| Bot.DiscordBot.RequestUpscales | internal/discordmd/bot_event_handler.go:74-82 | the requests are for indices 1..UpscaleCount against the origin message, in order; `failed` counts those with status >= 400 |
| Bot.DiscordBot.OnDerivedAttachment | internal/discordmd/bot_event_handler.go:86-125 | no owning task means stop with no change; otherwise the URL is appended in every state, then the AutoUpscaling or ManualUpscaling rule applies |
| Bot.DiscordBot.AddAutoUpscaledImage | internal/discordmd/bot_event_handler.go:97-110 | the count goes up by one; exactly when it reaches UpscaleCount, all URLs and the origin are delivered and the task is removed |
| Bot.DiscordBot.AddManualUpscaledImage | internal/discordmd/bot_event_handler.go:111-124 | only the waiter for the `Image #N` index of the content gets the image; with no such waiter nothing is sent and the handler stops |
| Bot.DiscordBot.OnUpdateEmbed | internal/discordmd/bot_event_handler.go:133-161 | an image-filter title fails the task hashed from the content; a `describe` interaction sends the description to the task bound to that interaction id; anything else changes nothing |
| Bot.DiscordBot.OnMessageUpdate | internal/discordmd/bot_event_handler.go:131-163 | a second image-filter embed deadlocks on the lock already held; runtimes are only removed, never changed; an event with neither filter embeds nor an interaction changes nothing |
| Bot.DiscordBot.AdmitImagine | internal/discordmd/service_interaction.go:25-66 | ErrTooManyTasks with no change exactly when the registry holds more than MaxUnfinishedTasks; otherwise a fresh Created runtime under the key of the normalised prompt, overwriting, and one generation task carrying that prompt |
| Bot.DiscordBot.AdmitUpscale | internal/discordmd/service_interaction.go:79-101 | ErrTaskNotFound with no change for an unknown id; otherwise ManualUpscaling, a new waiter for the index, and one upscale task with the origin image and message ids |
| Bot.DiscordBot.AdmitDescribe | internal/discordmd/service_interaction.go:112-129 | the file header is stored, a fresh runtime without auto-upscale is filed under the id, and one describe task is queued |
| Bot.DiscordBot.Enqueue | internal/discordmd/service_interaction.go:60-64 | the task joins the back of the queue; the registry, the file headers and the calls are unchanged |
| Service.AddBotsContents | internal/discordmd/service.go:53-62 | after Start the pool holds exactly the earlier bots and the created ones; bots not replaced are kept |
| Service.AddBotsLastWins | internal/discordmd/service.go:53-62 | a created bot is filed under its id unless a later created bot has the same id |
| Service.MidJourneyService.Start | internal/discordmd/service.go:53-63 | only the bots that were created are added, in order, keyed by BotId; pins are kept |
| Service.MidJourneyService.AddBot | internal/discordmd/service.go:60 | the bot is filed under its id, and the pool stays valid |
| Service.MidJourneyService.GetBot | internal/discordmd/service.go:66-82 | an unseen task is pinned to a pool bot; a pinned task gets its bot, or ErrBotNotFound when that bot has left the pool; a pin never changes |
| Service.MidJourneyService.SelectBot | internal/discordmd/service_interaction.go:19-24 | "" selects some bot of the pool; an explicit id selects that bot, or none when it is unknown |
| Service.MidJourneyService.Imagine | internal/discordmd/service_interaction.go:16-66 | an unknown explicit bot gives ErrBotNotFound with no change; otherwise AdmitImagine on the selected bot: ErrTooManyTasks with no change, or the result channel is the next new channel, only the task id's runtime is set, one generation task is queued, and no call, send, close or header change happens; every other bot is unchanged |
| Service.MidJourneyService.Upscale | internal/discordmd/service_interaction.go:69-101 | an unknown explicit bot gives ErrBotNotFound with no change; otherwise AdmitUpscale on the selected bot: ErrTaskNotFound with no change, or ManualUpscaling with a new waiter and one upscale task; no call, send, close or header change; every other bot is unchanged |
| Service.MidJourneyService.Describe | internal/discordmd/service_interaction.go:103-129 | an unknown explicit bot gives ErrBotNotFound with no change; otherwise AdmitDescribe on the selected bot: the header stored, a fresh runtime under the id and nothing else in the registry, one describe task, and no call, send or close; every other bot is unchanged |
| LegacyRegistry.RegistryService.Enqueue | internal/discordmd/interaction.go:49-53 | `m.taskChan <- task` (also at interaction.go:75 and :94): the task joins the back of the service's queue, the registry is unchanged, and the invariant is kept |
| LegacyRegistry.RegistryService.Imagine | internal/discordmd/interaction.go:15-55 | ErrTooManyTasks with no change exactly when more than MaxUnfinishedTasks are registered; otherwise a fresh Created runtime under the key of the normalised prompt, and one generation task |
| LegacyRegistry.RegistryService.Upscale | internal/discordmd/interaction.go:58-81 | ErrTaskNotFound with no change for an unknown id; otherwise ManualUpscaling, a waiter under the index, and one upscale task |
| LegacyRegistry.RegistryService.Describe | internal/discordmd/interaction.go:83-100 | any runtime under the id is replaced by a fresh one without auto-upscale, and one describe task is queued |
| LegacyMaps.UpscaleCommands | internal/discordmd/discord.go:170-177 | the upscale requests for variants 1..n of the file id against the message, in order |
| LegacyMaps.FailKeepsInv | internal/discordmd/discord.go:145-153 | failing a task keeps the map invariant and leaves the image and message maps alone |
| LegacyMaps.OriginKeepsInv | internal/discordmd/discord.go:167-177 | binding an origin keeps the map invariant |
| LegacyMaps.UpscaledKeepsInv | internal/discordmd/discord.go:183-210 | handling an upscaled image keeps the invariant: mapped task ids are non-empty and a task has 1 to UpscaleCount-1 collected URLs |
| LegacyMaps.AttachmentKeepsInv | internal/discordmd/discord.go:161-211 | handling one attachment keeps the map invariant |
| LegacyMaps.AttachmentsKeepInv | internal/discordmd/discord.go:161-212 | handling all attachments of a message keeps the map invariant |
| LegacyMaps.CompletionSendsAllImages | internal/discordmd/discord.go:183-207 | stop exactly for an unmapped message; a result is sent exactly when the URL is the last one still missing and the task has a channel; it carries every collected URL and the origin, and all four entries are deleted |
| LegacyMaps.EchoCorrelates | internal/discordmd/discord.go:310-345 | an echoed `**<normalised prompt>**…` without links or `**` in the prompt yields the key Imagine computed |
| LegacyMaps.EchoWithLinkCorrelates | internal/discordmd/discord.go:310-345 | a normalised prompt `p L q` echoed as `**p <L2> q**…` yields the key Imagine computed, when L ends in a word character and Imagine's seed is the first seed match of the message |
| LegacyMaps.MapsService.Imagine | internal/discordmd/discord.go:67-89 | the result channel is registered under the key before the queue check; ErrTooManyTasks exactly when the queue is full, and then nothing is queued; otherwise one generation task |
| LegacyMaps.MapsService.WorkerStep | internal/discordmd/discord.go:112-132 | the oldest task leaves the queue and one imagine request goes out; status >= 400 sends one failure and forgets the task's channel if present |
| LegacyMaps.MapsService.FailTask | internal/discordmd/discord.go:145-153 | one failure result on the task's channel, if it has one, and the channel is forgotten |
| LegacyMaps.MapsService.OnDiscordMessage | internal/discordmd/discord.go:136-213 | the first embed with one of the five failure titles fails the task hashed from its footer, or panics on a nil footer with no change; without one, the attachments are handled in order |
| LegacyMaps.MapsService.FindFailureEmbed | internal/discordmd/discord.go:137-139 | None exactly when no embed has one of the five titles; otherwise the first one that has |
| LegacyMaps.MapsService.HandleAttachments | internal/discordmd/discord.go:159-212 | the attachments are handled in order until an unmapped reference stops the handler |
| LegacyMaps.MapsService.HandleAttachment | internal/discordmd/discord.go:161-211 | one attachment: an origin grid without a reference, an upscaled image with one |
| LegacyMaps.MapsService.OnOriginImage | internal/discordmd/discord.go:162-180 | for a live task, the message is mapped to it, the origin URL recorded and UpscaleCount requests made; otherwise no change |
| LegacyMaps.MapsService.RequestUpscales | internal/discordmd/discord.go:170-177 | exactly the requests for variants 1..UpscaleCount, in order; no map changes |
| LegacyMaps.MapsService.OnUpscaledImage | internal/discordmd/discord.go:181-211 | an unmapped message stops the handler with no change; otherwise the URL is collected, and on the last one the success is sent and the entries are deleted |

## Left out

- Concurrency. The registry lock, `sync.Map` and goroutines are not modelled: each handler and each entry point runs atomically, so no interleaving and no waiting is captured. The code makes blocking sends while it holds the lock, and the model does not see these stalls:
  - admission holds `runtimesLock` across the send on `taskChan` (service_interaction.go:26-27 with :60, :80-81 with :95, :113-114 with :123), so a full queue stalls every handler of that bot;
  - the worker takes the lock on status >= 400 and sends the failure under it (bot.go:96-106);
  - the task handlers hold the lock for their whole run, result sends included (bot_task_handler.go:19-20, 55-56, 73-74);
  - `onDiscordMessageCreate` holds the lock while it sends on result channels and on the unbuffered upscale waiter (bot_event_handler.go:48-49 with :119), so an upscale reply that nobody receives blocks the handler.
  - One stall is modelled. In `onDiscordMessageUpdate` the lock is taken with a deferred unlock inside the loop, so a second image-filter embed blocks the handler for ever (bot_event_handler.go:135-136). `OnMessageUpdate` reports this as `deadlocked` and stops there.
- Blocking sends. A send on `taskChan` (capacity 1, bot.go:53 and discord.go:30) blocks in Go when the queue is full. Here every enqueue requires room instead. A response requires an open channel. The channel `interaction.go` sends on (`m.taskChan`, interaction.go:49, :75, :94) is created outside the files modelled here, so `LegacyRegistry` assumes the same capacity of 1 for it.
- Channel capacities. A send on a result channel never blocks in the model: neither a channel's capacity nor whether a receiver is waiting is modelled. The code creates these channels:
  - the runtime's result channel with one slot (runtime.go:36);
  - imagine result channels with `MaxUnfinishedTasks` slots (service_interaction.go:42, interaction.go:31) and with 30 in `discord.go` (discord.go:78);
  - unbuffered describe channels (service_interaction.go:47, interaction.go:36) and upscale waiters (service_interaction.go:88, interaction.go:68).
- Result channels. The files of the current version mix two revisions. In one, a runtime keeps separate imagine and describe channels (`ImagineResultChannel`, `DescribeResultChannel`): bot.go:98, :148, :168, bot_event_handler.go:30, :64, :101, :139, :154 and service_interaction.go:45, :47, :117. In the other, a runtime has the single `taskResultChan` (runtime.go:27, :36, :43; bot_task_handler.go:37, :58, :102). The same mix shows in `FileHeaders`: bot_task_handler.go:80 calls `LoadAndDelete`, a `sync.Map` method, but bot.go:29 declares a plain map. The model merges both revisions into the runtime's single `ResultChan` plus its upscale waiters, and treats `FileHeaders` as a map.
- Bot.DiscordBot.OnMessageCreate: its contract states the failure-embed path and the empty case exactly. For the attachment loop it states only that the registry invariant and the queue are kept. Each attachment's effect is stated by OnOriginAttachment and OnDerivedAttachment, which the loop calls in order until one stops it.
- Bot.DiscordBot.OnMessageUpdate: the contract states the deadlock condition, that runtimes are only removed, and the no-op case. Each embed's effect is stated by OnUpdateEmbed.
- Bot.DiscordBot.WorkerStep: it states the dequeue and the unknown-type case. Each task type's effect is stated by RunImageGeneration, RunImageUpscale and RunImageDescribe.
- The legacy map-invariant lemmas (`UpscaledKeepsInv`, `AttachmentKeepsInv`, `AttachmentsKeepInv`, `CompletionSendsAllImages`) need `UpscaleCount >= 1`. With a count of 0 or less the code never completes a task, and the invariant as stated does not hold.
- In `discord.go`, a failure embed with a nil footer dereferences nil and panics. This is modelled as a `panicked` result with no change of state.
- Sleeps and random jitter between requests are not modelled, nor is `rand.Seed`. The drawn seed is any decimal below `math.MaxUint32`.
- Session setup is not modelled: `NewDiscordBot` (bot.go:38-70), the `discord.go` `Start` prologue (discord.go:91-110) and application-command discovery. `Service.MidJourneyService.Start` takes the outcome of `NewDiscordBot` for each config as its input.
- The HTTP encoding of outbound commands is not modelled; the code for it is in `bot_command.go`, `command.go` and `utils.go`. Each command is a `Command` value with a nondeterministic outcome.
- MD5 and hex encoding are the parameter `md5`, and `uuid.Parse` is the parameter `IsUUID`. Neither is defined here.
- `GetRandomBot` is not part of this model. `SelectBot` may choose any bot of a non-empty pool, and on an empty pool the code panics, so this is a precondition.
- Bytes and runes: Go slices strings by byte and the model works on characters. The two agree for ASCII text, which is all that the regular expressions and slices here inspect.
- LegacyParse.ReplaceWordLinksAtLink: the `\bhttps?://\S+\b` replacement is stated for text without links and for one link between whitespace that ends in a word character. A link that ends in another character is shown only by the example WordLinkKeepsTrailingSlash, and several links in one prompt are not stated.
- Both `parse.go` and `discord.go` define `getHashFromPrompt`, and it is not clear which one `interaction.go` calls (interaction.go:29). `LegacyRegistry` uses the `parse.go` version, `Parse.HashFromPrompt`.
- LegacyMaps.EchoWithLinkCorrelates and LegacyParse.FooterWithLinkHashesLikePrompt require the link of the prompt to end in a word character, and the seed Imagine appended to be the first seed match of the echo or the footer. The code needs both: `\bhttps?://\S+\b` leaves a trailing non-word character in place (WordLinkKeepsTrailingSlash), and `discord.go` takes the first `--seed` match, so an earlier `--seed` in the prompt wins.
- Service.MidJourneyService.GetBot: it requires a non-empty pool when the task is not yet pinned. On an empty pool `rand.Intn(0)` panics (service.go:73), and this panic is not modelled as a result.
