/** The decisions `_send_message` makes before and while posting a message:
    whether the room string is an alias to resolve, whether to join, and where
    the message goes. The homeserver's answers are abstract inputs. */
module SendPath {

  import opened Wrappers

  /** What the homeserver would answer: alias resolution, the joined-room list,
      and the room references that a join request accepts. */
  datatype ServerView = ServerView(
    aliases: map<string, string>,
    joined: set<string>,
    joinable: set<string>)

  /** The client calls `_send_message` makes, in order. */
  datatype Call =
    | ResolveAlias(alias: string)
    | GetJoinedRooms
    | JoinRoom(roomRef: string)
    | SendText(message: string, roomId: string)

  /** The exceptions the send path can raise. */
  datatype SendError = AliasNotFound(alias: string) | JoinRejected(roomRef: string)

  /** The calls made, and either the tool's reply text or the exception raised. */
  datatype SendOutcome = SendOutcome(calls: seq<Call>, result: Result<string, SendError>)

  /** `room_id.startswith('#')`. */
  predicate IsAlias(room: string)
  {
    |room| > 0 && room[0] == '#'
  }

  /** The room id a room string stands for: an alias is looked up, anything else
      is the id itself. */
  function ResolveRoom(room: string, view: ServerView): (r: Result<string, SendError>)
    ensures !IsAlias(room) ==> r == Ok(room)
    ensures IsAlias(room) ==> (r.Ok? <==> room in view.aliases)
    ensures IsAlias(room) && r.Ok? ==> r.value == view.aliases[room]
    ensures r.Err? ==> r.error == AliasNotFound(room)
  {
    if IsAlias(room) then
      if room in view.aliases then Ok(view.aliases[room]) else Err(AliasNotFound(room))
    else Ok(room)
  }

  /** A join is needed when the caller allows it and the resolved id is not joined. */
  predicate NeedsJoin(id: string, joinIfNeeded: bool, view: ServerView)
  {
    joinIfNeeded && id !in view.joined
  }

  function SendMessage(room: string, message: string, joinIfNeeded: bool, view: ServerView): (out: SendOutcome)
    ensures 1 <= |out.calls| <= 4
    ensures out.result.Ok? ==> out.calls[|out.calls| - 1].SendText?
    ensures out.result.Err? ==> out.result.error == AliasNotFound(room) || out.result.error == JoinRejected(room)
  {
    var lookup := if IsAlias(room) then [ResolveAlias(room)] else [];
    match ResolveRoom(room, view)
    case Err(e) => SendOutcome(lookup, Err(e))
    case Ok(id) =>
      var check := if joinIfNeeded then [GetJoinedRooms] else [];
      if NeedsJoin(id, joinIfNeeded, view) && room !in view.joinable then
        SendOutcome(lookup + check + [JoinRoom(room)], Err(JoinRejected(room)))
      else
        var join := if NeedsJoin(id, joinIfNeeded, view) then [JoinRoom(room)] else [];
        SendOutcome(lookup + check + join + [SendText(message, id)],
                    Ok("Message sent to " + room + ": " + message))
  }

  /** Only a room string starting with `#` is looked up, and it is looked up as given. */
  lemma AliasLookedUpIffHash(room: string, message: string, joinIfNeeded: bool, view: ServerView)
    ensures var calls := SendMessage(room, message, joinIfNeeded, view).calls;
      && (ResolveAlias(room) in calls <==> IsAlias(room))
      && (forall c :: c in calls && c.ResolveAlias? ==> c.alias == room)
  {
  }

  /** A join is attempted exactly when it is allowed and the resolved id is not
      among the joined rooms, and always with the room string as the caller gave it. */
  lemma JoinDecision(room: string, message: string, joinIfNeeded: bool, view: ServerView)
    ensures var out := SendMessage(room, message, joinIfNeeded, view);
      && (forall c :: c in out.calls && c.JoinRoom? ==> c.roomRef == room)
      && (JoinRoom(room) in out.calls <==>
            ResolveRoom(room, view).Ok? && NeedsJoin(ResolveRoom(room, view).value, joinIfNeeded, view))
      && (GetJoinedRooms in out.calls <==> ResolveRoom(room, view).Ok? && joinIfNeeded)
  {
  }

  /** A send succeeds exactly when the room resolves and any needed join is
      accepted; it then ends with one transmission, to the resolved id. */
  lemma SentToResolvedRoom(room: string, message: string, joinIfNeeded: bool, view: ServerView)
    ensures var out := SendMessage(room, message, joinIfNeeded, view);
      && (out.result.Ok? <==>
            ResolveRoom(room, view).Ok? &&
            (NeedsJoin(ResolveRoom(room, view).value, joinIfNeeded, view) ==> room in view.joinable))
      && (out.result.Ok? ==>
            && |out.calls| > 0
            && out.calls[|out.calls| - 1] == SendText(message, ResolveRoom(room, view).value)
            && out.result.value == "Message sent to " + room + ": " + message)
      && (forall i :: 0 <= i < |out.calls| - 1 ==> !out.calls[i].SendText?)
      && (out.result.Err? ==> forall c :: c in out.calls ==> !c.SendText?)
  {
  }
}
