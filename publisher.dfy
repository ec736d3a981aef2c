/**
 * `update_stats`, the timer task that keeps one status message in the
 * monitor channel up to date. The chat service is reduced to the outcome
 * each of its calls would have during a tick.
 */
module Publisher {
  import opened Wrappers

  /**
   * The exceptions a chat call can raise, as the tick tells them apart.
   * `NotFound` and `Forbidden` are kinds of `HTTPException`, so an
   * `except HTTPException` clause catches them too when no earlier clause
   * does. `Transport` is a connection-level failure (`aiohttp.ClientError`,
   * `asyncio.TimeoutError`) that the library does not wrap in an
   * `HTTPException`, so no clause of the tick catches it.
   */
  datatype ApiError = NotFound | Forbidden | OtherHttpError | Transport

  /** The outcome of a call that returns nothing the tick uses. */
  datatype Outcome = Done | Raises(error: ApiError)

  /** What the chat service would do, this tick, with each call the tick can make. */
  datatype Chat = Chat(
    channelFound: bool,               // `bot.get_channel(MONITOR_CHANNEL_ID)` returns a channel
    embed: Build,                     // `create_stats_embed()`
    fetch: Outcome,                   // `channel.fetch_message(monitor_message_id)`
    edit: Outcome,                    // `message.edit(embed=embed)`
    send: Result<nat, ApiError>)      // `channel.send(embed=embed)`: the new message's id

  /**
   * How building the embed ends: it returns, or it raises an exception of a
   * class `tasks.loop` retries by default (`OSError`, `aiohttp.ClientError`,
   * `asyncio.TimeoutError`, among others), or one that ends the task.
   */
  datatype Build = Built | Transient | Fatal

  /** The calls a tick makes on the chat service, in order. */
  datatype ApiCall = Fetch(id: nat) | Edit(id: nat) | Send

  /**
   * An exception that leaves the tick: one raised while building the embed
   * (line 110 is outside every `try`), retried by the loop or not, or one
   * raised by the last chat call of the tick: any failure of the unguarded
   * resend, or a transport failure of any call.
   */
  datatype Escape = EmbedFailed(transient: bool) | CallFailed(error: ApiError)

  /**
   * `tasks.loop` ends the task on an escaped exception unless it is of a
   * class it retries; a transport failure is, an `HTTPException` is not.
   */
  predicate EndsTask(e: Escape)
  {
    !(e.EmbedFailed? && e.transient) && !(e.CallFailed? && e.error == Transport)
  }

  /**
   * The result of one tick: the tracked message id afterwards, the calls made,
   * and the exception that leaves the tick, if one does.
   */
  datatype Tick = Tick(tracked: Option<nat>, calls: seq<ApiCall>, escaped: Option<Escape>)

  /** `if monitor_message_id:` on `None` or an int: an id of 0 counts as no message. */
  predicate Tracks(tracked: Option<nat>)
  {
    tracked.Some? && tracked.value != 0
  }

  /** The tick gets past the channel checks and builds its embed, so it goes on to the chat calls. */
  predicate Reaches(channelId: int, chat: Chat)
  {
    channelId != 0 && chat.channelFound && chat.embed == Built
  }

  /** One tick of `update_stats`, from the tracked id before it. */
  function Step(channelId: int, tracked: Option<nat>, chat: Chat): (r: Tick)
    ensures |r.calls| <= 3
    ensures r.escaped.Some? ==> r.tracked == tracked
    ensures r.tracked != tracked ==> Send in r.calls
  {
    if channelId == 0 || !chat.channelFound then Tick(tracked, [], None)
    else if chat.embed != Built then Tick(tracked, [], Some(EmbedFailed(chat.embed == Transient)))
    else if Tracks(tracked) then
      var id := tracked.value;
      var calls := if chat.fetch.Raises? then [Fetch(id)] else [Fetch(id), Edit(id)];
      var outcome := if chat.fetch.Raises? then chat.fetch else chat.edit;
      if outcome == Raises(NotFound) then
        // the message is gone: send a new one, outside any try
        match chat.send
        case Ok(n) => Tick(Some(n), calls + [Send], None)
        case Err(e) => Tick(tracked, calls + [Send], Some(CallFailed(e)))
      else if outcome == Raises(Transport) then Tick(tracked, calls, Some(CallFailed(Transport)))
      else Tick(tracked, calls, None)
    else
      match chat.send
      case Ok(n) => Tick(Some(n), [Send], None)
      case Err(e) => Tick(tracked, [Send], if e == Transport then Some(CallFailed(Transport)) else None)
  }

  /** The module-level state of the bot that `update_stats` reads and writes. */
  class Monitor {
    const channelId: int          // MONITOR_CHANNEL_ID
    var monitorMessageId: Option<nat>

    constructor (channelId: int)
      ensures this.channelId == channelId && monitorMessageId == None
    {
      this.channelId := channelId;
      monitorMessageId := None;
    }

    /** One run of the task body against the chat service's answers `chat`. */
    method UpdateStats(chat: Chat) returns (calls: seq<ApiCall>, escaped: Option<Escape>)
      modifies this
      ensures Tick(monitorMessageId, calls, escaped) == Step(channelId, old(monitorMessageId), chat)
    {
      calls, escaped := [], None;
      if channelId == 0 {
        return;
      }
      if !chat.channelFound {
        return;
      }
      if chat.embed != Built {
        escaped := Some(EmbedFailed(chat.embed == Transient));
        return;
      }
      if monitorMessageId.Some? && monitorMessageId.value != 0 {
        var id := monitorMessageId.value;
        calls := calls + [Fetch(id)];
        var outcome := chat.fetch;
        if outcome == Done {
          calls := calls + [Edit(id)];
          outcome := chat.edit;
        }
        if outcome == Raises(NotFound) {
          calls := calls + [Send];
          match chat.send {
            case Ok(n) =>
              monitorMessageId := Some(n);
            case Err(e) =>
              escaped := Some(CallFailed(e));
          }
        } else if outcome == Raises(Transport) {
          escaped := Some(CallFailed(Transport));
        }
      } else {
        calls := calls + [Send];
        match chat.send {
          case Ok(n) =>
            monitorMessageId := Some(n);
          case Err(e) =>
            if e == Transport {
              escaped := Some(CallFailed(Transport));
            }
        }
      }
    }
  }

  // ---- One tick ----

  /** Without a configured channel id, or when the lookup finds no channel, a tick does nothing. */
  lemma NoChannelNoCalls(channelId: int, tracked: Option<nat>, chat: Chat)
    requires channelId == 0 || !chat.channelFound
    ensures Step(channelId, tracked, chat) == Tick(tracked, [], None)
  {
  }

  /**
   * With no message tracked, a tick sends one message and tracks it if the
   * send succeeds. Every `HTTPException` of the send is handled; a transport
   * failure escapes.
   */
  lemma UntrackedSends(channelId: int, tracked: Option<nat>, chat: Chat)
    requires Reaches(channelId, chat) && !Tracks(tracked)
    ensures Step(channelId, tracked, chat).calls == [Send]
    ensures Step(channelId, tracked, chat).escaped ==
      if chat.send == Err(Transport) then Some(CallFailed(Transport)) else None
    ensures chat.send.Ok? ==> Step(channelId, tracked, chat).tracked == Some(chat.send.value)
    ensures chat.send.Err? ==> Step(channelId, tracked, chat).tracked == tracked
  {
  }

  /** With a message tracked and a successful fetch and edit, the same message stays tracked. */
  lemma TrackedEdits(channelId: int, id: nat, chat: Chat)
    requires Reaches(channelId, chat) && id != 0
    requires chat.fetch == Done && chat.edit == Done
    ensures Step(channelId, Some(id), chat) == Tick(Some(id), [Fetch(id), Edit(id)], None)
  {
  }

  /** A tracked message that has disappeared is replaced by exactly one new message. */
  lemma TrackedNotFoundResends(channelId: int, id: nat, chat: Chat)
    requires Reaches(channelId, chat) && id != 0
    requires chat.fetch == Raises(NotFound) || (chat.fetch == Done && chat.edit == Raises(NotFound))
    ensures var t := Step(channelId, Some(id), chat);
      && t.calls[|t.calls| - 1] == Send
      && (forall k :: 0 <= k < |t.calls| - 1 ==> t.calls[k] != Send)
      && (chat.send.Ok? ==> t.tracked == Some(chat.send.value) && t.escaped == None)
      && (chat.send.Err? ==> t.tracked == Some(id) && t.escaped == Some(CallFailed(chat.send.error)))
  {
  }

  /** A tracked message that cannot be fetched or edited for another HTTP reason stays tracked, and nothing is sent. */
  lemma TrackedOtherErrorKeeps(channelId: int, id: nat, chat: Chat, e: ApiError)
    requires Reaches(channelId, chat) && id != 0 && (e == Forbidden || e == OtherHttpError)
    requires chat.fetch == Raises(e) || (chat.fetch == Done && chat.edit == Raises(e))
    ensures var t := Step(channelId, Some(id), chat);
      t.tracked == Some(id) && t.escaped == None && Send !in t.calls
  {
  }

  /** A transport failure of the fetch or the edit escapes the tick right after that call, with the id kept. */
  lemma TrackedTransportEscapes(channelId: int, id: nat, chat: Chat)
    requires Reaches(channelId, chat) && id != 0
    requires chat.fetch == Raises(Transport) || (chat.fetch == Done && chat.edit == Raises(Transport))
    ensures var t := Step(channelId, Some(id), chat);
      && t.tracked == Some(id) && t.escaped == Some(CallFailed(Transport))
      && t.calls == if chat.fetch == Raises(Transport) then [Fetch(id)] else [Fetch(id), Edit(id)]
  {
  }

  /** A tick whose embed cannot be built leaves before any call, with the tracked id kept. */
  lemma EmbedFailureEscapes(channelId: int, tracked: Option<nat>, chat: Chat)
    requires channelId != 0 && chat.channelFound && chat.embed != Built
    ensures Step(channelId, tracked, chat) == Tick(tracked, [], Some(EmbedFailed(chat.embed == Transient)))
  {
  }

  /** `call` is the chat call that raised `e` this tick. */
  predicate RaisedBy(call: ApiCall, chat: Chat, e: ApiError)
  {
    match call
    case Fetch(_) => chat.fetch == Raises(e)
    case Edit(_) => chat.edit == Raises(e)
    case Send => chat.send == Err(e)
  }

  /** The tick goes on after `call`: a fetch that returned, or a call that found the message gone. */
  predicate LetsTickGoOn(call: ApiCall, chat: Chat)
  {
    (call.Fetch? && chat.fetch == Done) || RaisedBy(call, chat, NotFound)
  }

  /**
   * What holds of every tick: at most one send, every fetch and edit is of the
   * tracked message, and the tracked id changes only to the id of a message
   * the tick has just sent. An exception leaves the tick either before any
   * call, exactly when building the embed fails, or from the last call made,
   * with the error that call raised:
   * an `HTTPException` only from the resend that follows a fetch, a
   * transport failure from any call. Either way the tracked id is kept.
   * Every call before the last one returned, or found the message gone.
   */
  lemma StepInvariant(channelId: int, tracked: Option<nat>, chat: Chat)
    ensures var t := Step(channelId, tracked, chat);
      && (forall k, l :: 0 <= k < l < |t.calls| ==> t.calls[k] != Send || t.calls[l] != Send)
      && (forall k :: 0 <= k < |t.calls| && !t.calls[k].Send? ==> tracked == Some(t.calls[k].id))
      && (t.tracked != tracked ==> chat.send.Ok? && t.tracked == Some(chat.send.value)
                                   && |t.calls| > 0 && t.calls[|t.calls| - 1] == Send)
      && (t.escaped.Some? && t.escaped.value.EmbedFailed? <==> channelId != 0 && chat.channelFound && chat.embed != Built)
      && (t.escaped.Some? && t.escaped.value.EmbedFailed? ==> t.calls == [])
      && (t.escaped.Some? && t.escaped.value.CallFailed? ==>
            |t.calls| > 0 && RaisedBy(t.calls[|t.calls| - 1], chat, t.escaped.value.error))
      && (t.escaped.Some? && t.escaped.value.CallFailed? && t.escaped.value.error != Transport ==>
            |t.calls| > 1 && t.calls[0].Fetch? && t.calls[|t.calls| - 1] == Send)
      && (t.escaped.Some? ==> t.tracked == tracked)
      && (forall k :: 0 <= k < |t.calls| - 1 ==> LetsTickGoOn(t.calls[k], chat))
  {
  }

  // ---- Several ticks ----

  /**
   * Consecutive ticks from the tracked id `tracked`. An exception that leaves
   * a tick ends the timer task, so no later tick runs, unless `tasks.loop`
   * retries it; then the next tick starts from the same tracked id.
   */
  function Run(channelId: int, tracked: Option<nat>, chats: seq<Chat>): (r: (Option<nat>, seq<ApiCall>))
    ensures |r.1| <= 3 * |chats|
    ensures Send !in r.1 ==> r.0 == tracked
    decreases |chats|
  {
    if chats == [] then (tracked, [])
    else
      var t := Step(channelId, tracked, chats[0]);
      if t.escaped.Some? && EndsTask(t.escaped.value) then (t.tracked, t.calls)
      else
        var rest := Run(channelId, t.tracked, chats[1..]);
        (rest.0, t.calls + rest.1)
  }

  /** The chat service accepts every fetch and every edit this tick. */
  predicate EditsSucceed(chat: Chat)
  {
    chat.channelFound && chat.embed == Built && chat.fetch == Done && chat.edit == Done
  }

  /** Once a message is tracked, ticks whose edits succeed keep editing that one message and never send. */
  lemma {:induction false} TrackedStaysTracked(channelId: int, id: nat, chats: seq<Chat>)
    requires channelId != 0 && id != 0
    requires forall k :: 0 <= k < |chats| ==> EditsSucceed(chats[k])
    ensures Run(channelId, Some(id), chats).0 == Some(id)
    ensures forall k :: 0 <= k < |Run(channelId, Some(id), chats).1| ==>
      Run(channelId, Some(id), chats).1[k] in {Fetch(id), Edit(id)}
    ensures |Run(channelId, Some(id), chats).1| == 2 * |chats|
  {
    if chats != [] {
      TrackedStaysTracked(channelId, id, chats[1..]);
      var rest := Run(channelId, Some(id), chats[1..]);
      assert Run(channelId, Some(id), chats).1 == [Fetch(id), Edit(id)] + rest.1;
    }
  }

  /** An embed failure the loop does not retry ends the task: no call, and no later tick runs. */
  lemma EmbedFailureEndsRun(channelId: int, tracked: Option<nat>, chat: Chat, later: seq<Chat>)
    requires channelId != 0 && chat.channelFound && chat.embed == Fatal
    ensures Run(channelId, tracked, [chat] + later).0 == tracked
    ensures Run(channelId, tracked, [chat] + later).1 == []
  {
    assert ([chat] + later)[0] == chat;
  }

  /** An embed failure the loop retries costs one tick: the later ticks run from the same tracked id. */
  lemma TransientEmbedFailureRetries(channelId: int, tracked: Option<nat>, chat: Chat, later: seq<Chat>)
    requires channelId != 0 && chat.channelFound && chat.embed == Transient
    ensures Run(channelId, tracked, [chat] + later).0 == Run(channelId, tracked, later).0
    ensures Run(channelId, tracked, [chat] + later).1 == Run(channelId, tracked, later).1
  {
    assert ([chat] + later)[0] == chat && ([chat] + later)[1..] == later;
  }

  /** A transport failure that the loop retries: the later ticks run from the same tracked id. */
  lemma TransportFailureRetries(channelId: int, tracked: Option<nat>, chat: Chat, later: seq<Chat>)
    requires Step(channelId, tracked, chat).escaped == Some(CallFailed(Transport))
    ensures Run(channelId, tracked, [chat] + later).0 == Run(channelId, tracked, later).0
    ensures Run(channelId, tracked, [chat] + later).1 == Step(channelId, tracked, chat).calls + Run(channelId, tracked, later).1
  {
    assert ([chat] + later)[0] == chat && ([chat] + later)[1..] == later;
  }

  /** A send that fails, handled or retried by the loop, leaves nothing tracked, so the next tick sends again. */
  lemma FailedSendRetries(channelId: int, first: Chat, second: Chat)
    requires Reaches(channelId, first) && Reaches(channelId, second) && first.send.Err?
    ensures Run(channelId, None, [first, second]).1 == [Send, Send]
    ensures Run(channelId, None, [first, second]).0 == if second.send.Ok? then Some(second.send.value) else None
  {
    var t1 := Step(channelId, None, first);
    assert t1.tracked == None && t1.calls == [Send] && (t1.escaped.Some? ==> !EndsTask(t1.escaped.value));
    var t := Step(channelId, None, second);
    assert t.calls == [Send] && (t.escaped.Some? ==> !EndsTask(t.escaped.value));
    assert Run(channelId, t.tracked, []) == (t.tracked, []);
    assert [second][0] == second && [second][1..] == [];
    assert Run(channelId, None, [second]).1 == [Send];
    assert [first, second][0] == first && [first, second][1..] == [second];
  }

  /**
   * From start-up: a first tick whose send returns message `id`, then ticks
   * whose edits succeed. Every later call is a fetch or an edit of `id`.
   */
  lemma {:induction false} SendThenEdits(channelId: int, id: nat, first: Chat, later: seq<Chat>)
    requires id != 0 && Reaches(channelId, first) && first.send == Ok(id)
    requires forall k :: 0 <= k < |later| ==> EditsSucceed(later[k])
    ensures Run(channelId, None, [first] + later).0 == Some(id)
    ensures Run(channelId, None, [first] + later).1[0] == Send
    ensures forall k :: 1 <= k < |Run(channelId, None, [first] + later).1| ==>
      Run(channelId, None, [first] + later).1[k] in {Fetch(id), Edit(id)}
    ensures |Run(channelId, None, [first] + later).1| == 1 + 2 * |later|
  {
    assert ([first] + later)[1..] == later;
    TrackedStaysTracked(channelId, id, later);
  }

  /** Three ticks, the first sending and the next two editing: all of them about one message. */
  lemma ThreeTicks(channelId: int, id: nat, c1: Chat, c2: Chat, c3: Chat)
    requires id != 0 && Reaches(channelId, c1) && c1.send == Ok(id)
    requires EditsSucceed(c2) && EditsSucceed(c3)
    ensures Run(channelId, None, [c1, c2, c3]).0 == Some(id)
    ensures Run(channelId, None, [c1, c2, c3]).1 == [Send, Fetch(id), Edit(id), Fetch(id), Edit(id)]
  {
    assert Step(channelId, None, c1) == Tick(Some(id), [Send], None);
    assert Step(channelId, Some(id), c2) == Tick(Some(id), [Fetch(id), Edit(id)], None);
    assert Step(channelId, Some(id), c3) == Tick(Some(id), [Fetch(id), Edit(id)], None);
    assert Run(channelId, Some(id), []) == (Some(id), []);
    assert [c3][0] == c3 && [c3][1..] == [];
    assert Run(channelId, Some(id), [c3]).1 == [Fetch(id), Edit(id)];
    assert [c2, c3][0] == c2 && [c2, c3][1..] == [c3];
    assert Run(channelId, Some(id), [c2, c3]).1 == [Fetch(id), Edit(id), Fetch(id), Edit(id)];
    assert [c1, c2, c3][0] == c1 && [c1, c2, c3][1..] == [c2, c3];
  }

  /** A message id of 0 is never edited: the next tick sends a new message instead. */
  lemma ZeroIdIsUntracked(channelId: int, chat: Chat)
    requires Reaches(channelId, chat)
    ensures Step(channelId, Some(0), chat).calls == [Send]
  {
  }

  /** The class method performs exactly the transitions of `Step`, tick after tick. */
  method ClientTicks(channelId: int, id: nat, c1: Chat, c2: Chat, c3: Chat)
    returns (calls: seq<ApiCall>, tracked: Option<nat>)
    requires id != 0 && Reaches(channelId, c1) && c1.send == Ok(id)
    requires EditsSucceed(c2) && EditsSucceed(c3)
    ensures calls == [Send, Fetch(id), Edit(id), Fetch(id), Edit(id)]
    ensures tracked == Some(id)
  {
    var m := new Monitor(channelId);
    var calls1, e1 := m.UpdateStats(c1);
    assert calls1 == [Send] && m.monitorMessageId == Some(id);
    var calls2, e2 := m.UpdateStats(c2);
    var calls3, e3 := m.UpdateStats(c3);
    assert calls2 == calls3 == [Fetch(id), Edit(id)];
    calls, tracked := calls1 + calls2 + calls3, m.monitorMessageId;
  }
}
