/**
 * The per-task record and its result channels (internal/discordmd/runtime.go).
 *
 * A Go channel is modelled by a number naming it; everything ever sent is
 * kept, in order, in one outbox of deliveries owned by a `Channels` object,
 * which also remembers which channels were closed.
 */
module Runtime {

  type ChanId = nat

  datatype TaskState = Created | AutoUpscaling | ManualUpscaling

  /** What a result carries besides its id, flag and message. */
  datatype Payload =
    | NoPayload
    | ImagePayload(OriginImageURL: string, ImageURLs: seq<string>)
    | UpscalePayload(ImageURL: string, Index: string)
    | DescribePayload(Description: string)

  datatype TaskResult = TaskResult(TaskId: string, Successful: bool, Message: string, Payload: Payload)

  /** One value sent on one channel. */
  datatype Delivery = Delivery(Chan: ChanId, Result: TaskResult)

  datatype TaskRuntime = TaskRuntime(
    TaskId: string,
    TaskKeywordHash: string,
    InteractionId: string,
    UpscaleResultChannels: map<string, ChanId>,
    OriginImageURL: string,
    OriginImageId: string,
    OriginImageMessageId: string,
    UpscaledImageURLs: seq<string>,
    UpscaleProcessCount: int,
    AutoUpscale: bool,
    State: TaskState,
    ResultChan: ChanId)

  /** The record NewTaskRuntime builds, apart from its fresh result channel. */
  predicate IsNewRuntime(r: TaskRuntime, taskId: string, autoUpscale: bool) {
    && r.TaskId == taskId && r.AutoUpscale == autoUpscale && r.State == Created
    && r.TaskKeywordHash == "" && r.InteractionId == ""
    && r.UpscaleResultChannels == map[] && r.UpscaledImageURLs == []
    && r.OriginImageURL == "" && r.OriginImageId == "" && r.OriginImageMessageId == ""
    && r.UpscaleProcessCount == 0
  }

  /** How many values were sent on channel `c`. */
  function SentOn(sent: seq<Delivery>, c: ChanId): (n: nat)
    ensures n <= |sent|
  {
    if sent == [] then 0
    else SentOn(sent[..|sent| - 1], c) + (if sent[|sent| - 1].Chan == c then 1 else 0)
  }

  lemma {:induction false} SentOnUnused(sent: seq<Delivery>, c: ChanId)
    requires forall i :: 0 <= i < |sent| ==> sent[i].Chan != c
    ensures SentOn(sent, c) == 0
  {
    if sent != [] {
      SentOnUnused(sent[..|sent| - 1], c);
    }
  }

  lemma SentOnAppend(sent: seq<Delivery>, d: Delivery, c: ChanId)
    ensures SentOn(sent + [d], c) == SentOn(sent, c) + (if d.Chan == c then 1 else 0)
  {
    assert (sent + [d])[..|sent|] == sent;
  }

  /** Replacing an entry and then removing it is removing it. */
  lemma UpdateThenRemove<V>(m: map<string, V>, k: string, v: V)
    ensures m[k := v] - {k} == m - {k}
  {
  }

  class Channels {
    /** Every value sent on any channel, in sending order. */
    var sent: seq<Delivery>
    var closed: set<ChanId>
    /** The number of channels made so far; channel ids are 0 .. next - 1. */
    var next: ChanId

    predicate Valid()
      reads this
    {
      && (forall i :: 0 <= i < |sent| ==> sent[i].Chan < next)
      && (forall c :: c in closed ==> c < next)
    }

    constructor ()
      ensures Valid() && sent == [] && closed == {} && next == 0
    {
      sent, closed, next := [], {}, 0;
    }

    /** `make(chan …)`: a channel nothing was sent on and that is open. */
    method Make() returns (c: ChanId)
      requires Valid()
      modifies this
      ensures Valid()
      ensures c == old(next) && next == old(next) + 1
      ensures sent == old(sent) && closed == old(closed)
      ensures SentOn(sent, c) == 0 && c !in closed
    {
      c := next;
      next := next + 1;
      SentOnUnused(sent, c);
    }

    /** `c <- r` on an open channel. */
    method Send(c: ChanId, r: TaskResult)
      requires Valid() && c < next && c !in closed
      modifies this
      ensures Valid()
      ensures sent == old(sent) + [Delivery(c, r)]
      ensures closed == old(closed) && next == old(next)
    {
      sent := sent + [Delivery(c, r)];
    }

    /** `close(c)`; closing a closed channel panics in Go, so `c` must be open. */
    method Close(c: ChanId)
      requires Valid() && c < next && c !in closed
      modifies this
      ensures Valid()
      ensures closed == old(closed) + {c}
      ensures sent == old(sent) && next == old(next)
    {
      closed := closed + {c};
    }
  }

  /**
   * NewTaskRuntime: the id and the auto-upscale flag from the arguments,
   * state Created, everything else empty, and a fresh result channel.
   */
  method NewTaskRuntime(channels: Channels, taskId: string, autoUpscale: bool) returns (r: TaskRuntime)
    requires channels.Valid()
    modifies channels
    ensures channels.Valid()
    ensures IsNewRuntime(r, taskId, autoUpscale)
    ensures r.ResultChan == old(channels.next) && channels.next == old(channels.next) + 1
    ensures channels.sent == old(channels.sent) && channels.closed == old(channels.closed)
    ensures SentOn(channels.sent, r.ResultChan) == 0 && r.ResultChan !in channels.closed
  {
    var c := channels.Make();
    r := TaskRuntime(taskId, "", "", map[], "", "", "", [], 0, autoUpscale, Created, c);
  }

  /** Response: exactly one result, carrying the runtime's id, on its result channel. */
  method Response(channels: Channels, r: TaskRuntime, successful: bool, message: string, payload: Payload)
    requires channels.Valid() && r.ResultChan < channels.next && r.ResultChan !in channels.closed
    modifies channels
    ensures channels.Valid()
    ensures channels.sent == old(channels.sent) + [Delivery(r.ResultChan, TaskResult(r.TaskId, successful, message, payload))]
    ensures channels.closed == old(channels.closed) && channels.next == old(channels.next)
    ensures SentOn(channels.sent, r.ResultChan) == SentOn(old(channels.sent), r.ResultChan) + 1
  {
    channels.Send(r.ResultChan, TaskResult(r.TaskId, successful, message, payload));
    SentOnAppend(old(channels.sent), Delivery(r.ResultChan, TaskResult(r.TaskId, successful, message, payload)), r.ResultChan);
  }
}
