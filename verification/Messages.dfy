/** The message store's state and its event reducer (frontend/src/stores/messages.ts). */
module Messages {
  import opened Wrappers
  import opened Reactions

  /** A property of a JavaScript object: absent, null or there. */
  datatype Slot<+T> = Absent | Null | Has(value: T)

  datatype Field = Content | ReplyCount | Pinned | DeletedAt | Other(name: string)

  datatype Value = Nothing | Text(text: string) | Number(n: nat) | Flag(b: bool) | Time(at: int)

  /** The properties of a message besides its id. */
  datatype Attrs = Attrs(channel: Slot<Id>, parent: Slot<Id>, reactions: Slot<seq<Reaction>>, fields: map<Field, Value>)

  datatype Message = Message(id: Id, attrs: Attrs)

  /** A thread's replies under its parent's id; the list of threads is in insertion order. */
  datatype Thread = Thread(parent: Id, replies: seq<Message>)

  datatype State = State(byChannel: map<Id, seq<Message>>, threads: seq<Thread>)

  const EMPTY_STATE := State(map[], [])

  // ---- Spreading ------------------------------------------------------------------

  function Over0<T>(a: Slot<T>, b: Slot<T>): Slot<T> {
    if b == Absent then a else b
  }

  /** `{ ...a, ...b }`. */
  function Over(a: Attrs, b: Attrs): Attrs {
    Attrs(Over0(a.channel, b.channel), Over0(a.parent, b.parent), Over0(a.reactions, b.reactions), a.fields + b.fields)
  }

  function FieldPatch(fields: map<Field, Value>): Attrs {
    Attrs(Absent, Absent, Absent, fields)
  }

  function ReactionPatch(list: seq<Reaction>): Attrs {
    Attrs(Absent, Absent, Has(list), map[])
  }

  // ---- Lists of messages ---------------------------------------------------------------

  predicate HasId(list: seq<Message>, id: Id) {
    exists i :: 0 <= i < |list| && list[i].id == id
  }

  /** The first message with the id, as findIndex finds it. */
  function FindIn(list: seq<Message>, id: Id): Option<Message> {
    if list == [] then None
    else if list[0].id == id then Some(list[0])
    else FindIn(list[1..], id)
  }

  /** The first message with the id gets the patch. */
  function PatchIn(list: seq<Message>, id: Id, p: Attrs): seq<Message> {
    if list == [] then []
    else if list[0].id == id then [Message(id, Over(list[0].attrs, p))] + list[1..]
    else [list[0]] + PatchIn(list[1..], id, p)
  }

  function PatchThreads(threads: seq<Thread>, id: Id, p: Attrs): (r: seq<Thread>)
    ensures |r| == |threads|
    ensures forall i :: 0 <= i < |r| ==> r[i] == Thread(threads[i].parent, PatchIn(threads[i].replies, id, p))
  {
    seq(|threads|, i requires 0 <= i < |threads| => Thread(threads[i].parent, PatchIn(threads[i].replies, id, p)))
  }

  function FindInThreads(threads: seq<Thread>, id: Id): Option<Message> {
    if threads == [] then None
    else if FindIn(threads[0].replies, id).Some? then FindIn(threads[0].replies, id)
    else FindInThreads(threads[1..], id)
  }

  // ---- The helpers -------------------------------------------------------------------------

  function ChannelList(s: State, ch: Id): seq<Message> {
    if ch in s.byChannel then s.byChannel[ch] else []
  }

  /** findMessage: the channel first, then the threads in order. */
  function Find(s: State, ch: Id, id: Id): Option<Message> {
    var hit := FindIn(ChannelList(s, ch), id);
    if hit.Some? then hit else FindInThreads(s.threads, id)
  }

  function Prepend(s: State, ch: Id, m: Message): State {
    if HasId(ChannelList(s, ch), m.id) then s
    else s.(byChannel := s.byChannel[ch := [m] + ChannelList(s, ch)])
  }

  /** mergeMessage and patchMessage: the channel's copy and every thread's copy get the patch. */
  function Patch(s: State, ch: Id, id: Id, p: Attrs): State {
    State(if ch in s.byChannel then s.byChannel[ch := PatchIn(s.byChannel[ch], id, p)] else s.byChannel,
          PatchThreads(s.threads, id, p))
  }

  function Listed(m: Message): seq<Reaction> {
    if m.attrs.reactions.Has? then m.attrs.reactions.value else []
  }

  /** patchReaction. */
  function React(s: State, ch: Id, id: Id, emoji: Emoji, actor: Option<Actor>, add: bool, now: int): State {
    if actor == None || Find(s, ch, id) == None then s
    else
      var list := Listed(Find(s, ch, id).value);
      Patch(s, ch, id, ReactionPatch(
        if add then AddReaction(list, id, emoji, actor.value, now) else RemoveReaction(list, emoji, actor.value.id)))
  }

  // ---- Threads ---------------------------------------------------------------------------------

  function AppendReply(threads: seq<Thread>, parent: Id, m: Message): seq<Thread> {
    if threads == [] then [Thread(parent, [m])]
    else if threads[0].parent == parent then
      [if HasId(threads[0].replies, m.id) then threads[0] else Thread(parent, threads[0].replies + [m])] + threads[1..]
    else [threads[0]] + AppendReply(threads[1..], parent, m)
  }

  function Replies(m: Message): nat {
    if ReplyCount in m.attrs.fields && m.attrs.fields[ReplyCount].Number? then m.attrs.fields[ReplyCount].n else 0
  }

  function BumpReplies(s: State, ch: Id, parent: Id): State {
    var found := Find(s, ch, parent);
    if found == None then s
    else Patch(s, ch, parent, FieldPatch(map[ReplyCount := Number(Replies(found.value) + 1)]))
  }

  // ---- Events ------------------------------------------------------------------------------------

  datatype ReactionPayload = ReactionPayload(
    message: Id, channel: Id, reactorType: Option<Reactor>, userId: Option<Id>, guestId: Option<Id>, emoji: Emoji)

  /** A message event names the channel its message is in; typing is not part of this model. */
  datatype Event =
    | Created(channel: Id, message: Message)
    | Updated(channel: Id, message: Message)
    | Deleted(channel: Id, message: Message)
    | ReactionAdded(payload: ReactionPayload)
    | ReactionRemoved(payload: ReactionPayload)
    | PinnedEvent(channel: Id, id: Id)
    | UnpinnedEvent(channel: Id, id: Id)

  /** reactionActorFromPayload. */
  function ActorOf(p: ReactionPayload): Option<Actor> {
    var reactor := if p.reactorType.Some? then p.reactorType.value else if Truthy(p.guestId) then Guest else User;
    var id := if reactor == Guest then p.guestId else p.userId;
    if Truthy(id) then Some(Actor(id.value, Some(reactor))) else None
  }

  /** The time a deletion is stamped with: the message's own, or the clock's. */
  function DeletionTime(m: Message, now: int): Value {
    if DeletedAt in m.attrs.fields && m.attrs.fields[DeletedAt] != Nothing then m.attrs.fields[DeletedAt] else Time(now)
  }

  function DeletionPatch(m: Message, now: int): Attrs {
    FieldPatch(map[DeletedAt := DeletionTime(m, now), Content := Text("")])
  }

  /** A parent id that is there and not the empty string. */
  predicate IsReply(m: Message) {
    m.attrs.parent.Has? && m.attrs.parent.value.name != ""
  }

  function ApplyEvent(s: State, e: Event, now: int): State {
    match e
    case Created(ch, m) =>
      if IsReply(m) then
        BumpReplies(s.(threads := AppendReply(s.threads, m.attrs.parent.value, m)), ch, m.attrs.parent.value)
      else Prepend(s, ch, m)
    case Updated(ch, m) => Patch(s, ch, m.id, m.attrs)
    case Deleted(ch, m) => Patch(s, ch, m.id, DeletionPatch(m, now))
    case ReactionAdded(p) => React(s, p.channel, p.message, p.emoji, ActorOf(p), true, now)
    case ReactionRemoved(p) => React(s, p.channel, p.message, p.emoji, ActorOf(p), false, now)
    case PinnedEvent(ch, id) => Patch(s, ch, id, FieldPatch(map[Pinned := Flag(true)]))
    case UnpinnedEvent(ch, id) => Patch(s, ch, id, FieldPatch(map[Pinned := Flag(false)]))
  }
}
