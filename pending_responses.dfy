/** The pending-response registry of the MCP server: `pending_responses`, the
    futures that `wait_for_response` awaits and their timeout tasks.

    The registry is a Python dict, so it is kept here as the insertion order of
    its keys (`order`) beside the key-to-entry table. Each wait owns one future
    and one timeout task; both are named by the same handle, drawn fresh from
    `nextHandle`. A future is a one-shot slot; a timeout task sleeps until its
    deadline fires or it is cancelled. Each operation is a function on a
    `Registry` value; the class `ResponseRegistry` performs the same operations
    in place and is proved to agree with them. */
module PendingResponses {

  import opened Wrappers
  import opened Text
  import SendPath

  type RoomId = string
  type UserId = string
  type Handle = nat

  /** The dict key `f"{room_id}:{loop time}"`. The loop time is written without
      a colon, so the pair and the string determine each other. */
  datatype ResponseId = ResponseId(room: RoomId, time: nat)

  /** One entry of `pending_responses`. */
  datatype PendingResponse = PendingResponse(
    roomId: RoomId,
    responseFrom: Option<string>,
    future: Handle,
    timeoutTask: Option<Handle>)

  /** A room message as the sync loop delivers it. */
  datatype MessageEvent = MessageEvent(roomId: RoomId, sender: UserId, body: string, timestamp: int)

  /** The dict a matched future is completed with. */
  datatype Response = Response(message: string, sender: string, roomId: RoomId, timestamp: int)

  datatype FutureState = Pending | Resolved(data: Response) | TimedOut(seconds: nat) | Cancelled
  {
    predicate Done() { !Pending? }
  }

  datatype TaskState = Sleeping(seconds: nat) | Finished | TaskCancelled
  {
    predicate Done() { !Sleeping? }
  }

  datatype Registry = Registry(
    order: seq<ResponseId>,
    table: map<ResponseId, PendingResponse>,
    futures: map<Handle, FutureState>,
    tasks: map<Handle, TaskState>,
    nextHandle: Handle)

  const Empty := Registry([], map[], map[], map[], 0)

  /** An entry's future and timeout task exist and carry the same handle. */
  predicate Tracked(r: Registry, p: PendingResponse)
  {
    p.future in r.futures && p.timeoutTask == Some(p.future) && p.future in r.tasks
  }

  /** The registry invariant: the key order lists each key of the table once,
      every entry's future and task exist, and no handle is at or above `nextHandle`. */
  ghost predicate WellFormed(r: Registry)
  {
    && (forall i, j :: 0 <= i < j < |r.order| ==> r.order[i] != r.order[j])
    && (forall k :: k in r.table <==> k in r.order)
    && (forall k :: k in r.table ==> Tracked(r, r.table[k]))
    && (forall h :: h in r.futures ==> h < r.nextHandle)
    && (forall h :: h in r.tasks ==> h < r.nextHandle)
  }

  /** Every future still pending has its timeout task still sleeping, so its
      deadline is still to come. */
  ghost predicate Live(r: Registry)
  {
    forall h :: h in r.futures && r.futures[h].Pending? ==> h in r.tasks && r.tasks[h].Sleeping?
  }

  /** Once a future is done it stays done with the same outcome, and no future
      disappears. */
  ghost predicate Settled(r: Registry, r': Registry)
  {
    forall h :: h in r.futures ==>
      h in r'.futures && (r.futures[h].Done() ==> r'.futures[h] == r.futures[h])
  }

  lemma SettledTransitive(r1: Registry, r2: Registry, r3: Registry)
    requires Settled(r1, r2) && Settled(r2, r3)
    ensures Settled(r1, r3)
  {
  }

  function RemoveAt<T>(s: seq<T>, i: nat): seq<T>
    requires i < |s|
  {
    s[..i] + s[i + 1..]
  }

  /** Removing one position of a duplicate-free sequence removes exactly that
      element and keeps the rest duplicate-free. */
  lemma RemoveAtDistinct<T>(s: seq<T>, i: nat)
    requires i < |s|
    requires forall a, b :: 0 <= a < b < |s| ==> s[a] != s[b]
    ensures forall a, b :: 0 <= a < b < |RemoveAt(s, i)| ==> RemoveAt(s, i)[a] != RemoveAt(s, i)[b]
    ensures forall x :: x in RemoveAt(s, i) <==> x in s && x != s[i]
  {
    var t := RemoveAt(s, i);
    assert forall a :: 0 <= a < |t| ==> t[a] == if a < i then s[a] else s[a + 1];
    forall x | x in s && x != s[i] ensures x in t {
      var a :| 0 <= a < |s| && s[a] == x;
      assert t[if a < i then a else a - 1] == x;
    }
  }

  // ---------------------------------------------------------------------------
  // Matching an incoming message (`_check_pending_responses`)

  /** The entry wants this event: same room and, when a non-empty
      `response_from` is set, that exact sender. */
  predicate Matches(p: PendingResponse, evt: MessageEvent)
    ensures evt.roomId != p.roomId ==> !Matches(p, evt)
    ensures evt.roomId == p.roomId && p.responseFrom == Some(evt.sender) ==> Matches(p, evt)
    ensures p.responseFrom.Some? && p.responseFrom.value != "" && evt.sender != p.responseFrom.value ==> !Matches(p, evt)
    ensures evt.roomId == p.roomId && (p.responseFrom.None? || p.responseFrom.value == "") ==> Matches(p, evt)
  {
    && evt.roomId == p.roomId
    && (p.responseFrom.None? || p.responseFrom.value == "" || evt.sender == p.responseFrom.value)
  }

  predicate EntryMatches(table: map<ResponseId, PendingResponse>, k: ResponseId, evt: MessageEvent)
  {
    k in table && Matches(table[k], evt)
  }

  /** The position of the earliest-inserted entry that wants the event. */
  function FirstMatch(order: seq<ResponseId>, table: map<ResponseId, PendingResponse>, evt: MessageEvent): (r: Option<nat>)
    ensures r.Some? ==> r.value < |order| && EntryMatches(table, order[r.value], evt)
    ensures r.Some? ==> forall j :: 0 <= j < r.value ==> !EntryMatches(table, order[j], evt)
    ensures r.None? ==> forall j :: 0 <= j < |order| ==> !EntryMatches(table, order[j], evt)
  {
    if order == [] then None
    else if EntryMatches(table, order[0], evt) then Some(0)
    else match FirstMatch(order[1..], table, evt)
      case None => None
      case Some(i) => Some(i + 1)
  }

  function ResponseOf(evt: MessageEvent): Response
  {
    Response(evt.body, evt.sender, evt.roomId, evt.timestamp)
  }

  /** `future.set_result(...)` guarded by `not future.done()`. */
  function Resolve(fs: map<Handle, FutureState>, h: Handle, data: Response): map<Handle, FutureState>
  {
    if h in fs && fs[h].Pending? then fs[h := Resolved(data)] else fs
  }

  /** `timeout_task.cancel()` guarded by `timeout_task and not timeout_task.done()`. */
  function CancelTask(ts: map<Handle, TaskState>, t: Option<Handle>): map<Handle, TaskState>
  {
    if t.Some? && t.value in ts && ts[t.value].Sleeping? then ts[t.value := TaskCancelled] else ts
  }

  /** The effect of one incoming message on the registry. */
  function Delivered(r: Registry, evt: MessageEvent, own: UserId): (r': Registry)
    ensures r'.nextHandle == r.nextHandle
    ensures r'.table.Keys <= r.table.Keys
    ensures forall k :: k in r.table && k !in r'.table ==> evt.sender != own && Matches(r.table[k], evt)
    ensures forall k :: k in r'.table ==> r'.table[k] == r.table[k]
    ensures r'.futures.Keys == r.futures.Keys && r'.tasks.Keys == r.tasks.Keys
  {
    if evt.sender == own then r
    else match FirstMatch(r.order, r.table, evt)
      case None => r
      case Some(i) =>
        var k := r.order[i];
        var p := r.table[k];
        Registry(RemoveAt(r.order, i), r.table - {k}, Resolve(r.futures, p.future, ResponseOf(evt)),
                 CancelTask(r.tasks, p.timeoutTask), r.nextHandle)
  }

  /** A message from the client's own user leaves the registry and every wait as they were. */
  lemma OwnMessageIgnored(r: Registry, evt: MessageEvent, own: UserId)
    requires evt.sender == own
    ensures Delivered(r, evt, own) == r
  {
  }

  /** With no entry wanting the event (wrong room, or a sender filter that
      differs), nothing changes. */
  lemma UnwantedMessageIgnored(r: Registry, evt: MessageEvent, own: UserId)
    requires WellFormed(r)
    requires forall k :: k in r.table ==> !Matches(r.table[k], evt)
    ensures Delivered(r, evt, own) == r
  {
  }

  /** A message from another user removes exactly the earliest-inserted entry
      that wants it, completes that entry's future with the message if it was
      still pending, cancels its timeout task if still sleeping, and leaves
      every other entry, future and task as it was. */
  lemma DeliveryTakesEarliestMatch(r: Registry, evt: MessageEvent, own: UserId, i: nat)
    requires WellFormed(r) && evt.sender != own
    requires i < |r.order| && Matches(r.table[r.order[i]], evt)
    requires forall j :: 0 <= j < i ==> !Matches(r.table[r.order[j]], evt)
    ensures var r' := Delivered(r, evt, own);
      var k := r.order[i];
      var h := r.table[k].future;
      && r'.order == r.order[..i] + r.order[i + 1..]
      && r'.table == r.table - {k}
      && r'.futures.Keys == r.futures.Keys
      && (forall g :: g in r.futures && g != h ==> r'.futures[g] == r.futures[g])
      && r'.futures[h] == (if r.futures[h].Pending? then Resolved(Response(evt.body, evt.sender, evt.roomId, evt.timestamp)) else r.futures[h])
      && r'.tasks.Keys == r.tasks.Keys
      && (forall g :: g in r.tasks && g != h ==> r'.tasks[g] == r.tasks[g])
      && r'.tasks[h] == (if r.tasks[h].Sleeping? then TaskCancelled else r.tasks[h])
  {
    var m := FirstMatch(r.order, r.table, evt);
    assert EntryMatches(r.table, r.order[i], evt);
    assert m == Some(i);
  }

  lemma DeliveredWellFormed(r: Registry, evt: MessageEvent, own: UserId)
    requires WellFormed(r)
    ensures WellFormed(Delivered(r, evt, own))
  {
    if evt.sender != own {
      var m := FirstMatch(r.order, r.table, evt);
      if m.Some? {
        var i := m.value;
        var k := r.order[i];
        var p := r.table[k];
        var r' := Delivered(r, evt, own);
        assert r' == Registry(RemoveAt(r.order, i), r.table - {k}, Resolve(r.futures, p.future, ResponseOf(evt)),
                              CancelTask(r.tasks, p.timeoutTask), r.nextHandle);
        RemoveAtDistinct(r.order, i);
        assert r'.futures.Keys == r.futures.Keys && r'.tasks.Keys == r.tasks.Keys;
        forall k2 | k2 in r'.table
          ensures Tracked(r', r'.table[k2])
        {
          assert r'.table[k2] == r.table[k2];
        }
      }
    }
  }

  // ---------------------------------------------------------------------------
  // Registering a wait (`_wait_for_response`, lines 254-273)

  /** A new entry under `ResponseId(roomId, now)` with a fresh pending future and
      a sleeping timeout task. Assigning to a key already present replaces its
      entry in place, as a dict does; other waits on the same room are untouched. */
  function Registered(r: Registry, roomId: RoomId, responseFrom: Option<string>, now: nat, seconds: nat): (r': Registry)
    ensures ResponseId(roomId, now) in r'.table && r'.table[ResponseId(roomId, now)].future == r.nextHandle
    ensures r.nextHandle in r'.futures && r'.futures[r.nextHandle] == Pending
    ensures r.nextHandle in r'.tasks && r'.tasks[r.nextHandle] == Sleeping(seconds)
    ensures r'.nextHandle > r.nextHandle
  {
    var key := ResponseId(roomId, now);
    var h := r.nextHandle;
    Registry(if key in r.table then r.order else r.order + [key],
             r.table[key := PendingResponse(roomId, responseFrom, h, Some(h))],
             r.futures[h := Pending], r.tasks[h := Sleeping(seconds)], h + 1)
  }

  /** Registering adds or replaces only its own key, keeps every other entry,
      future and task, and creates a pending future with a sleeping timer. */
  lemma RegisteredSpec(r: Registry, roomId: RoomId, responseFrom: Option<string>, now: nat, seconds: nat)
    requires WellFormed(r)
    ensures var r' := Registered(r, roomId, responseFrom, now, seconds);
      var key := ResponseId(roomId, now);
      var h := r.nextHandle;
      && h !in r.futures && h !in r.tasks
      && r'.table[key] == PendingResponse(roomId, responseFrom, h, Some(h))
      && r'.futures[h] == Pending && r'.tasks[h] == Sleeping(seconds)
      && (forall k :: k in r.table && k != key ==> k in r'.table && r'.table[k] == r.table[k])
      && r'.table.Keys == r.table.Keys + {key}
      && (key !in r.table ==> r'.order == r.order + [key])
      && (key in r.table ==> r'.order == r.order)
      && (forall g :: g in r.futures ==> g in r'.futures && r'.futures[g] == r.futures[g])
      && (forall g :: g in r.tasks ==> g in r'.tasks && r'.tasks[g] == r.tasks[g])
  {
  }

  /** A wait registered under a new key goes to the end of the order, so a
      message that an older entry already wants still goes to that entry. */
  lemma NewWaitDoesNotOvertake(r: Registry, roomId: RoomId, responseFrom: Option<string>, now: nat, seconds: nat,
                               evt: MessageEvent)
    requires WellFormed(r)
    requires ResponseId(roomId, now) !in r.table
    requires FirstMatch(r.order, r.table, evt).Some?
    ensures var r' := Registered(r, roomId, responseFrom, now, seconds);
      FirstMatch(r'.order, r'.table, evt) == FirstMatch(r.order, r.table, evt)
  {
    var r' := Registered(r, roomId, responseFrom, now, seconds);
    var key := ResponseId(roomId, now);
    var i := FirstMatch(r.order, r.table, evt).value;
    assert r'.order == r.order + [key];
    forall j | 0 <= j <= i
      ensures r'.order[j] == r.order[j] && r'.table[r.order[j]] == r.table[r.order[j]]
    {
      assert r.order[j] in r.table;
    }
    assert EntryMatches(r'.table, r'.order[i], evt);
    assert forall j :: 0 <= j < i ==> !EntryMatches(r'.table, r'.order[j], evt);
  }

  /** Registering keeps the registry well formed. */
  lemma RegisteredWellFormed(r: Registry, roomId: RoomId, responseFrom: Option<string>, now: nat, seconds: nat)
    requires WellFormed(r)
    ensures WellFormed(Registered(r, roomId, responseFrom, now, seconds))
  {
    var r' := Registered(r, roomId, responseFrom, now, seconds);
    var key := ResponseId(roomId, now);
    if key !in r.table {
      assert forall i :: 0 <= i < |r.order| ==> r'.order[i] == r.order[i];
      assert r'.order[|r.order|] == key;
    }
  }

  // ---------------------------------------------------------------------------
  // The deadline (`timeout_handler`, lines 259-262)

  /** The timeout task wakes: the wait's future times out unless already done.
      A task that is not sleeping any more never wakes. */
  function DeadlineFired(r: Registry, h: Handle): (r': Registry)
    ensures r'.order == r.order && r'.table == r.table && r'.nextHandle == r.nextHandle
    ensures r'.futures.Keys == r.futures.Keys && r'.tasks.Keys == r.tasks.Keys
    ensures h in r.tasks ==> !r'.tasks[h].Sleeping?
  {
    if h in r.tasks && r.tasks[h].Sleeping? then
      var fs := if h in r.futures && r.futures[h].Pending? then r.futures[h := TimedOut(r.tasks[h].seconds)] else r.futures;
      r.(futures := fs, tasks := r.tasks[h := Finished])
    else r
  }

  /** The deadline completes a wait that is still pending, and touches no entry
      and no other future or task. */
  lemma DeadlineSpec(r: Registry, h: Handle)
    requires Live(r)
    ensures var r' := DeadlineFired(r, h);
      && r'.order == r.order && r'.table == r.table
      && (h in r.futures && r.futures[h].Pending? ==> r'.futures[h] == TimedOut(r.tasks[h].seconds))
      && (forall g :: g in r.futures && (g != h || r.futures[g].Done()) ==> g in r'.futures && r'.futures[g] == r.futures[g])
      && r'.futures.Keys == r.futures.Keys
      && (h in r.tasks ==> r'.tasks[h].Done())
      && r'.tasks.Keys == r.tasks.Keys
      && (forall g :: g in r.tasks && g != h ==> r'.tasks[g] == r.tasks[g])
  {
  }

  // ---------------------------------------------------------------------------
  // The waiter resumes (`finally`, lines 289-294)

  /** The position of a key in a sequence that holds it. */
  function IndexOf(s: seq<ResponseId>, x: ResponseId): (i: nat)
    requires x in s
    ensures i < |s| && s[i] == x
  {
    if s[0] == x then 0 else 1 + IndexOf(s[1..], x)
  }

  /** Drop the wait's key if still present; cancel its timeout task if still sleeping. */
  function Resumed(r: Registry, key: ResponseId, h: Handle): (r': Registry)
    ensures r'.table.Keys == r.table.Keys - {key}
    ensures r'.futures == r.futures && r'.nextHandle == r.nextHandle
    ensures h in r.tasks ==> h in r'.tasks && !r'.tasks[h].Sleeping?
  {
    var order := if key in r.order then RemoveAt(r.order, IndexOf(r.order, key)) else r.order;
    r.(order := order, table := r.table - {key}, tasks := CancelTask(r.tasks, Some(h)))
  }

  /** After the waiter's cleanup its key is gone, its timer is not sleeping, and
      every other entry, every future and every other task is unchanged. */
  lemma ResumedSpec(r: Registry, key: ResponseId, h: Handle)
    requires WellFormed(r)
    ensures var r' := Resumed(r, key, h);
      && WellFormed(r')
      && key !in r'.table && key !in r'.order
      && (forall k :: k in r.table && k != key ==> k in r'.table && r'.table[k] == r.table[k])
      && r'.futures == r.futures
      && (h in r.tasks ==> h in r'.tasks && r'.tasks[h].Done())
      && (forall g :: g in r.tasks && g != h ==> g in r'.tasks && r'.tasks[g] == r.tasks[g])
      && (key !in r.order ==> r'.order == r.order)
      && (key in r.order ==> exists i :: 0 <= i < |r.order| && r.order[i] == key && r'.order == r.order[..i] + r.order[i + 1..])
  {
    if key in r.order {
      var i := IndexOf(r.order, key);
      RemoveAtDistinct(r.order, i);
      assert r.order[i] == key && Resumed(r, key, h).order == r.order[..i] + r.order[i + 1..];
    }
  }

  /** What `_wait_for_response` returns once its future is done: the reply text,
      the timeout text, or `Abandoned` for a cancelled future, whose
      `CancelledError` is not an `Exception` and propagates out of the tool call. */
  datatype WaitOutcome = Reply(text: string) | Abandoned

  function ReplyText(sender: string, message: string): (t: string)
    ensures "Received response from " <= t
    ensures |t| >= |message| && t[|t| - |message|..] == message
  {
    "Received response from " + sender + ": " + message
  }

  function TimeoutText(seconds: nat): (t: string)
    ensures "Timeout: " <= t
    ensures var tail := Decimal(seconds) + " seconds";
      |t| >= |tail| && t[|t| - |tail|..] == tail
  {
    "Timeout: No response received within " + Decimal(seconds) + " seconds"
  }

  function OutcomeOf(f: FutureState): (o: WaitOutcome)
    requires f.Done()
    ensures o.Abandoned? <==> f.Cancelled?
    ensures f.Resolved? ==>
      && o.Reply? && "Received response from " <= o.text
      && |o.text| >= |f.data.message| && o.text[|o.text| - |f.data.message|..] == f.data.message
    ensures f.TimedOut? ==> o == Reply(TimeoutText(f.seconds)) && "Timeout: " <= o.text
  {
    match f
    case Resolved(data) => Reply(ReplyText(data.sender, data.message))
    case TimedOut(seconds) => Reply(TimeoutText(seconds))
    case Cancelled => Abandoned
  }

  // ---------------------------------------------------------------------------
  // Shutdown (`cleanup`, lines 352-359)

  /** `future.cancel()` for every not-done future of the entries at `keys`, in order. */
  function CancelFutures(fs: map<Handle, FutureState>, table: map<ResponseId, PendingResponse>, keys: seq<ResponseId>): map<Handle, FutureState>
    decreases |keys|
  {
    if keys == [] then fs
    else
      var before := CancelFutures(fs, table, keys[..|keys| - 1]);
      var k := keys[|keys| - 1];
      if k in table && table[k].future in before && before[table[k].future].Pending?
      then before[table[k].future := Cancelled]
      else before
  }

  /** `timeout_task.cancel()` for every sleeping timer of the entries at `keys`, in order. */
  function CancelTasks(ts: map<Handle, TaskState>, table: map<ResponseId, PendingResponse>, keys: seq<ResponseId>): map<Handle, TaskState>
    decreases |keys|
  {
    if keys == [] then ts
    else
      var before := CancelTasks(ts, table, keys[..|keys| - 1]);
      var k := keys[|keys| - 1];
      if k in table then CancelTask(before, table[k].timeoutTask) else before
  }

  /** One more visited entry: the futures after `keys[..i + 1]` are those after
      `keys[..i]` with entry `keys[i]`'s future cancelled if still pending. */
  lemma CancelFuturesNext(fs: map<Handle, FutureState>, table: map<ResponseId, PendingResponse>, keys: seq<ResponseId>, i: nat)
    requires i < |keys|
    ensures var before := CancelFutures(fs, table, keys[..i]);
      var k := keys[i];
      CancelFutures(fs, table, keys[..i + 1]) ==
        if k in table && table[k].future in before && before[table[k].future].Pending?
        then before[table[k].future := Cancelled]
        else before
  {
    assert keys[..i + 1][..i] == keys[..i] && keys[..i + 1][i] == keys[i];
  }

  /** One more visited entry: the timers after `keys[..i + 1]` are those after
      `keys[..i]` with entry `keys[i]`'s timer cancelled if still sleeping. */
  lemma CancelTasksNext(ts: map<Handle, TaskState>, table: map<ResponseId, PendingResponse>, keys: seq<ResponseId>, i: nat)
    requires i < |keys|
    ensures var before := CancelTasks(ts, table, keys[..i]);
      var k := keys[i];
      CancelTasks(ts, table, keys[..i + 1]) ==
        if k in table then CancelTask(before, table[k].timeoutTask) else before
  {
    assert keys[..i + 1][..i] == keys[..i] && keys[..i + 1][i] == keys[i];
  }

  /** Some entry at `keys` owns future `h`. */
  ghost predicate OwnsFuture(table: map<ResponseId, PendingResponse>, keys: seq<ResponseId>, h: Handle)
  {
    exists j :: 0 <= j < |keys| && keys[j] in table && table[keys[j]].future == h
  }

  /** Some entry at `keys` owns timer `t`. */
  ghost predicate OwnsTask(table: map<ResponseId, PendingResponse>, keys: seq<ResponseId>, t: Handle)
  {
    exists j :: 0 <= j < |keys| && keys[j] in table && table[keys[j]].timeoutTask == Some(t)
  }

  /** The visited entries' cancellations keep every future and change one only
      when it was pending and some visited entry owns it; it then becomes Cancelled. */
  lemma {:induction false} CancelFuturesAt(fs: map<Handle, FutureState>, table: map<ResponseId, PendingResponse>, keys: seq<ResponseId>, h: Handle)
    requires h in fs
    ensures h in CancelFutures(fs, table, keys)
    ensures CancelFutures(fs, table, keys)[h] == if fs[h].Pending? && OwnsFuture(table, keys, h) then Cancelled else fs[h]
    decreases |keys|
  {
    if keys != [] {
      var init := keys[..|keys| - 1];
      var last := keys[|keys| - 1];
      CancelFuturesAt(fs, table, init, h);
      if OwnsFuture(table, keys, h) {
        var j :| 0 <= j < |keys| && keys[j] in table && table[keys[j]].future == h;
        if j < |keys| - 1 {
          assert init[j] == keys[j];
        }
      }
      if OwnsFuture(table, init, h) {
        var j :| 0 <= j < |init| && init[j] in table && table[init[j]].future == h;
        assert keys[j] == init[j];
      }
      if last in table && table[last].future == h {
        assert OwnsFuture(table, keys, h);
      }
    }
  }

  lemma {:induction false} CancelFuturesKeys(fs: map<Handle, FutureState>, table: map<ResponseId, PendingResponse>, keys: seq<ResponseId>)
    ensures CancelFutures(fs, table, keys).Keys == fs.Keys
    decreases |keys|
  {
    if keys != [] {
      CancelFuturesKeys(fs, table, keys[..|keys| - 1]);
    }
  }

  /** The same for timers: one changes only when it was sleeping and some
      visited entry owns it; it then becomes cancelled. */
  lemma {:induction false} CancelTasksAt(ts: map<Handle, TaskState>, table: map<ResponseId, PendingResponse>, keys: seq<ResponseId>, t: Handle)
    requires t in ts
    ensures t in CancelTasks(ts, table, keys)
    ensures CancelTasks(ts, table, keys)[t] == if ts[t].Sleeping? && OwnsTask(table, keys, t) then TaskCancelled else ts[t]
    decreases |keys|
  {
    if keys != [] {
      var init := keys[..|keys| - 1];
      var last := keys[|keys| - 1];
      CancelTasksAt(ts, table, init, t);
      if OwnsTask(table, keys, t) {
        var j :| 0 <= j < |keys| && keys[j] in table && table[keys[j]].timeoutTask == Some(t);
        if j < |keys| - 1 {
          assert init[j] == keys[j];
        }
      }
      if OwnsTask(table, init, t) {
        var j :| 0 <= j < |init| && init[j] in table && table[init[j]].timeoutTask == Some(t);
        assert keys[j] == init[j];
      }
      if last in table && table[last].timeoutTask == Some(t) {
        assert OwnsTask(table, keys, t);
      }
    }
  }

  lemma {:induction false} CancelTasksKeys(ts: map<Handle, TaskState>, table: map<ResponseId, PendingResponse>, keys: seq<ResponseId>)
    ensures CancelTasks(ts, table, keys).Keys == ts.Keys
    decreases |keys|
  {
    if keys != [] {
      CancelTasksKeys(ts, table, keys[..|keys| - 1]);
    }
  }

  function CleanedUp(r: Registry): (r': Registry)
    ensures r'.table == map[] && r'.order == []
    ensures r'.futures.Keys == r.futures.Keys && r'.tasks.Keys == r.tasks.Keys
  {
    CancelFuturesKeys(r.futures, r.table, r.order);
    CancelTasksKeys(r.tasks, r.table, r.order);
    Registry([], map[], CancelFutures(r.futures, r.table, r.order), CancelTasks(r.tasks, r.table, r.order), r.nextHandle)
  }

  /** After `cleanup` the registry is empty; every registered wait's future is
      done, the pending ones now Cancelled; every registered wait's timer is
      not sleeping; the futures and timers of no entry are untouched. */
  lemma CleanedUpSpec(r: Registry)
    requires WellFormed(r)
    ensures WellFormed(CleanedUp(r))
    ensures CleanedUp(r).order == [] && CleanedUp(r).table == map[]
    ensures CleanedUp(r).futures.Keys == r.futures.Keys && CleanedUp(r).tasks.Keys == r.tasks.Keys
    ensures forall k :: k in r.table && r.futures[r.table[k].future].Pending? ==>
      CleanedUp(r).futures[r.table[k].future] == Cancelled
    ensures forall k :: k in r.table && r.futures[r.table[k].future].Done() ==>
      CleanedUp(r).futures[r.table[k].future] == r.futures[r.table[k].future]
    ensures forall k :: k in r.table ==> CleanedUp(r).tasks[r.table[k].future].Done()
    ensures forall h :: h in r.futures && !OwnsFuture(r.table, r.order, h) ==> CleanedUp(r).futures[h] == r.futures[h]
    ensures forall t :: t in r.tasks && !OwnsTask(r.table, r.order, t) ==> CleanedUp(r).tasks[t] == r.tasks[t]
  {
    var r' := CleanedUp(r);
    CancelFuturesKeys(r.futures, r.table, r.order);
    CancelTasksKeys(r.tasks, r.table, r.order);
    forall k | k in r.table
      ensures r.futures[r.table[k].future].Pending? ==> r'.futures[r.table[k].future] == Cancelled
      ensures r.futures[r.table[k].future].Done() ==> r'.futures[r.table[k].future] == r.futures[r.table[k].future]
      ensures r'.tasks[r.table[k].future].Done()
    {
      var h := r.table[k].future;
      var j :| 0 <= j < |r.order| && r.order[j] == k;
      assert OwnsFuture(r.table, r.order, h);
      assert OwnsTask(r.table, r.order, h);
      CancelFuturesAt(r.futures, r.table, r.order, h);
      CancelTasksAt(r.tasks, r.table, r.order, h);
    }
    forall h | h in r.futures && !OwnsFuture(r.table, r.order, h)
      ensures r'.futures[h] == r.futures[h]
    {
      CancelFuturesAt(r.futures, r.table, r.order, h);
    }
    forall t | t in r.tasks && !OwnsTask(r.table, r.order, t)
      ensures r'.tasks[t] == r.tasks[t]
    {
      CancelTasksAt(r.tasks, r.table, r.order, t);
    }
  }

  // ---------------------------------------------------------------------------
  // Interleavings of all the above

  /** One atomic step of the server: a wait registers, a message arrives, a
      deadline fires, a waiter whose future is done resumes, or the server shuts down. */
  datatype Op =
    | Wait(roomId: RoomId, responseFrom: Option<string>, now: nat, seconds: nat)
    | Deliver(evt: MessageEvent)
    | Deadline(task: Handle)
    | Resume(key: ResponseId, handle: Handle)
    | Shutdown

  function Step(r: Registry, op: Op, own: UserId): Registry
  {
    match op
    case Wait(roomId, responseFrom, now, seconds) => Registered(r, roomId, responseFrom, now, seconds)
    case Deliver(evt) => Delivered(r, evt, own)
    case Deadline(h) => DeadlineFired(r, h)
    case Resume(key, h) =>
      // `await future` returns only once the future is done
      if h in r.futures && r.futures[h].Done() then Resumed(r, key, h) else r
    case Shutdown => CleanedUp(r)
  }

  function Run(r: Registry, ops: seq<Op>, own: UserId): Registry
    decreases |ops|
  {
    if ops == [] then r else Run(Step(r, ops[0], own), ops[1..], own)
  }

  /** Every step keeps the invariant, never changes a completed future, and
      never leaves a pending future without a sleeping timer. */
  lemma StepSpec(r: Registry, op: Op, own: UserId)
    requires WellFormed(r) && Live(r)
    ensures WellFormed(Step(r, op, own))
    ensures Settled(r, Step(r, op, own))
    ensures Live(Step(r, op, own))
  {
    match op
    case Wait(roomId, responseFrom, now, seconds) =>
      RegisteredKeeps(r, roomId, responseFrom, now, seconds);
    case Deliver(evt) =>
      DeliveredKeeps(r, evt, own);
    case Deadline(h) =>
      DeadlineSpec(r, h);
    case Resume(key, h) =>
      if h in r.futures && r.futures[h].Done() {
        ResumedKeeps(r, key, h);
      }
    case Shutdown =>
      CleanedUpSpec(r);
      CleanupLive(r);
  }

  /** The three invariants across one change of the registry. */
  ghost predicate Keeps(r: Registry, r': Registry)
  {
    WellFormed(r') && Settled(r, r') && Live(r')
  }

  lemma RegisteredKeeps(r: Registry, roomId: RoomId, responseFrom: Option<string>, now: nat, seconds: nat)
    requires WellFormed(r) && Live(r)
    ensures Keeps(r, Registered(r, roomId, responseFrom, now, seconds))
  {
    RegisteredWellFormed(r, roomId, responseFrom, now, seconds);
    RegisteredSpec(r, roomId, responseFrom, now, seconds);
  }

  lemma DeliveredKeeps(r: Registry, evt: MessageEvent, own: UserId)
    requires WellFormed(r) && Live(r)
    ensures Keeps(r, Delivered(r, evt, own))
  {
    DeliveredWellFormed(r, evt, own);
    DeliveredSettledLive(r, evt, own);
  }

  lemma DeliveredSettledLive(r: Registry, evt: MessageEvent, own: UserId)
    requires WellFormed(r) && Live(r)
    ensures Settled(r, Delivered(r, evt, own)) && Live(Delivered(r, evt, own))
  {
    if evt.sender != own {
      var m := FirstMatch(r.order, r.table, evt);
      if m.Some? {
        DeliveryTakesEarliestMatch(r, evt, own, m.value);
      }
    }
  }

  lemma ResumedKeeps(r: Registry, key: ResponseId, h: Handle)
    requires WellFormed(r) && Live(r)
    requires h in r.futures && r.futures[h].Done()
    ensures Keeps(r, Resumed(r, key, h))
  {
    ResumedSpec(r, key, h);
  }

  lemma CleanupLive(r: Registry)
    requires WellFormed(r) && Live(r)
    ensures Live(CleanedUp(r))
  {
    var r' := CleanedUp(r);
    CancelFuturesKeys(r.futures, r.table, r.order);
    CancelTasksKeys(r.tasks, r.table, r.order);
    forall h | h in r'.futures && r'.futures[h].Pending?
      ensures h in r'.tasks && r'.tasks[h].Sleeping?
    {
      CancelFuturesAt(r.futures, r.table, r.order, h);
      CancelTasksAt(r.tasks, r.table, r.order, h);
      assert !OwnsFuture(r.table, r.order, h);
    }
  }

  /** Over any interleaving of operations, each wait completes at most once and
      its first completion is final, the registry stays well formed, and no wait
      is left pending without a deadline still to fire. */
  lemma {:induction false} RunSpec(r: Registry, ops: seq<Op>, own: UserId)
    requires WellFormed(r) && Live(r)
    ensures WellFormed(Run(r, ops, own)) && Live(Run(r, ops, own))
    ensures Settled(r, Run(r, ops, own))
    decreases |ops|
  {
    if ops != [] {
      var r1 := Step(r, ops[0], own);
      StepSpec(r, ops[0], own);
      RunSpec(r1, ops[1..], own);
      SettledTransitive(r, r1, Run(r1, ops[1..], own));
    }
  }

  /** A wait still pending is completed by its deadline: no wait blocks forever. */
  lemma DeadlineCompletes(r: Registry, h: Handle)
    requires Live(r)
    requires h in r.futures && r.futures[h].Pending?
    ensures DeadlineFired(r, h).futures[h].TimedOut?
  {
  }

  // ---------------------------------------------------------------------------
  // The registry as the server holds it, changed in place

  class ResponseRegistry {
    var order: seq<ResponseId>
    var table: map<ResponseId, PendingResponse>
    var futures: map<Handle, FutureState>
    var tasks: map<Handle, TaskState>
    var nextHandle: Handle

    function State(): Registry
      reads this
    {
      Registry(order, table, futures, tasks, nextHandle)
    }

    ghost predicate Valid()
      reads this
    {
      WellFormed(State()) && Live(State())
    }

    /** `self.pending_responses = {}` (line 38). */
    constructor ()
      ensures Valid() && State() == Empty
    {
      order, table, futures, tasks, nextHandle := [], map[], map[], map[], 0;
    }

    /** Creates the future and its timeout task and stores the entry (lines 254-273). */
    method Register(roomId: RoomId, responseFrom: Option<string>, now: nat, seconds: nat) returns (key: ResponseId, h: Handle)
      requires Valid()
      modifies this
      ensures Valid() && State() == Registered(old(State()), roomId, responseFrom, now, seconds)
      ensures key == ResponseId(roomId, now) && h == old(nextHandle) && h !in old(futures)
      ensures key in table && table[key].future == h && futures[h] == Pending
    {
      ghost var r := State();
      key := ResponseId(roomId, now);
      h := nextHandle;
      if key !in table {
        order := order + [key];
      }
      table := table[key := PendingResponse(roomId, responseFrom, h, Some(h))];
      futures := futures[h := Pending];
      tasks := tasks[h := Sleeping(seconds)];
      nextHandle := h + 1;
      assert State() == Registered(r, roomId, responseFrom, now, seconds);
      RegisteredKeeps(r, roomId, responseFrom, now, seconds);
    }

    /** `_wait_for_response` up to its `await`: send the message, joining if
        needed; resolve the room string again; register the wait under the
        resolved id (lines 237-273). When the send raises, nothing is registered. */
    method BeginWait(room: string, message: string, responseFrom: Option<string>, seconds: nat, now: nat,
                     view: SendPath.ServerView)
      returns (sent: SendPath.SendOutcome, wait: Option<(ResponseId, Handle)>)
      requires Valid()
      modifies this
      ensures Valid()
      ensures sent == SendPath.SendMessage(room, message, true, view)
      ensures sent.result.Err? ==> wait.None? && State() == old(State())
      ensures sent.result.Ok? ==>
        && SendPath.ResolveRoom(room, view).Ok?
        && var id := SendPath.ResolveRoom(room, view).value;
        && wait == Some((ResponseId(id, now), old(nextHandle)))
        && State() == Registered(old(State()), id, responseFrom, now, seconds)
    {
      sent := SendPath.SendMessage(room, message, true, view);
      if sent.result.Err? {
        wait := None;
        return;
      }
      var id := SendPath.ResolveRoom(room, view).value;
      var key, h := Register(id, responseFrom, now, seconds);
      wait := Some((key, h));
    }

    /** `_check_pending_responses`: ignores the client's own messages, finds
        the first entry that wants the message and settles it. */
    method CheckPendingResponses(evt: MessageEvent, own: UserId)
      requires Valid()
      modifies this
      ensures Valid() && State() == Delivered(old(State()), evt, own)
    {
      ghost var r := State();
      DeliveredKeeps(r, evt, own);
      if evt.sender == own {
        return;
      }
      var m := FindMatch(evt);
      if m.Some? {
        Settle(m.value, evt);
      }
    }

    /** The loop of `_check_pending_responses` over the entries in insertion
        order, up to its first match (lines 170-177). */
    method FindMatch(evt: MessageEvent) returns (m: Option<nat>)
      ensures m == FirstMatch(order, table, evt)
    {
      var i := 0;
      while i < |order|
        invariant 0 <= i <= |order|
        invariant forall j :: 0 <= j < i ==> !EntryMatches(table, order[j], evt)
      {
        var k := order[i];
        if k in table && Matches(table[k], evt) {
          assert EntryMatches(table, order[i], evt);
          return Some(i);
        }
        i := i + 1;
      }
      return None;
    }

    /** The matched entry at position `i`: resolve its future if not done,
        cancel its timer if not done, and delete it (lines 178-193). */
    method Settle(i: nat, evt: MessageEvent)
      requires i < |order| && order[i] in table
      modifies this
      ensures var k := old(order[i]);
        var p := old(table[k]);
        State() == Registry(RemoveAt(old(order), i), old(table) - {k},
                            Resolve(old(futures), p.future, ResponseOf(evt)),
                            CancelTask(old(tasks), p.timeoutTask), old(nextHandle))
    {
      var k := order[i];
      var p := table[k];
      if p.future in futures && futures[p.future].Pending? {
        futures := futures[p.future := Resolved(ResponseOf(evt))];
      }
      if p.timeoutTask.Some? && p.timeoutTask.value in tasks && tasks[p.timeoutTask.value].Sleeping? {
        tasks := tasks[p.timeoutTask.value := TaskCancelled];
      }
      order := RemoveAt(order, i);
      table := table - {k};
    }

    /** The timeout task wakes after `seconds` (lines 259-262). */
    method FireTimeout(h: Handle)
      requires Valid()
      modifies this
      ensures Valid() && State() == DeadlineFired(old(State()), h)
    {
      StepSpec(State(), Deadline(h), "");
      if h in tasks && tasks[h].Sleeping? {
        if h in futures && futures[h].Pending? {
          futures := futures[h := TimedOut(tasks[h].seconds)];
        }
        tasks := tasks[h := Finished];
      }
    }

    /** `await future` has returned or raised: report the outcome and run the
        `finally` block (lines 277-294). */
    method FinishWait(key: ResponseId, h: Handle) returns (outcome: WaitOutcome)
      requires Valid()
      requires h in futures && futures[h].Done()
      modifies this
      ensures Valid() && State() == Resumed(old(State()), key, h)
      ensures outcome == OutcomeOf(old(futures[h]))
      ensures key !in table && (h in tasks ==> tasks[h].Done())
    {
      ghost var r := State();
      ResumedKeeps(r, key, h);
      ResumedSpec(r, key, h);
      outcome := OutcomeOf(futures[h]);
      Release(key, h);
    }

    /** The `finally` block: delete the key if still present, cancel the timer
        if not done (lines 291-294). */
    method Release(key: ResponseId, h: Handle)
      requires key in table <==> key in order
      modifies this
      ensures State() == Resumed(old(State()), key, h)
    {
      if key in table {
        order := RemoveAt(order, IndexOf(order, key));
        table := table - {key};
      }
      if h in tasks && tasks[h].Sleeping? {
        tasks := tasks[h := TaskCancelled];
      }
    }

    /** `cleanup`: cancels every entry's future and timer, then clears the registry. */
    method Cleanup()
      requires Valid()
      modifies this
      ensures Valid() && State() == CleanedUp(old(State()))
    {
      ghost var r := State();
      CancelEntries();
      order, table := [], map[];
      assert State() == CleanedUp(r);
      StepSpec(r, Shutdown, "");
    }

    /** The loop of `cleanup` over `pending_responses.values()` (lines 353-357). */
    method CancelEntries()
      requires forall k :: k in order ==> k in table
      modifies this
      ensures order == old(order) && table == old(table) && nextHandle == old(nextHandle)
      ensures futures == CancelFutures(old(futures), table, order)
      ensures tasks == CancelTasks(old(tasks), table, order)
    {
      var i := 0;
      while i < |order|
        invariant 0 <= i <= |order|
        invariant order == old(order) && table == old(table) && nextHandle == old(nextHandle)
        invariant futures == CancelFutures(old(futures), table, order[..i])
        invariant tasks == CancelTasks(old(tasks), table, order[..i])
      {
        CancelFuturesNext(old(futures), table, order, i);
        CancelTasksNext(old(tasks), table, order, i);
        var p := table[order[i]];
        if p.future in futures && futures[p.future].Pending? {
          futures := futures[p.future := Cancelled];
        }
        if p.timeoutTask.Some? && p.timeoutTask.value in tasks && tasks[p.timeoutTask.value].Sleeping? {
          tasks := tasks[p.timeoutTask.value := TaskCancelled];
        }
        i := i + 1;
      }
      assert order[..i] == order;
    }
  }
}
