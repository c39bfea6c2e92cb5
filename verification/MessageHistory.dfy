/** What a channel shows, told from the events about it: which messages, in which order, and what has become
    of each. */
module MessageHistory {
  import opened Wrappers
  import opened Reactions
  import opened Messages
  import opened MessageEvents

  // ---- One message's own history -----------------------------------------------------------

  /** The actor of a reaction event: the guest's session for guests, the user's id otherwise. An event that
      does not say is a guest's if it names a session; ids that are missing or empty are nobody's. */
  predicate IsActor(p: ReactionPayload, id: Id, reactor: Reactor) {
    && id.name != ""
    && (match reactor case Guest => p.guestId == Some(id) case User => p.userId == Some(id))
    && (p.reactorType == Some(reactor)
        || (p.reactorType == None && (reactor == Guest <==> p.guestId.Some? && p.guestId.value.name != "")))
  }

  lemma ActorExactly(p: ReactionPayload, id: Id, reactor: Reactor)
    ensures ActorOf(p) == Some(Actor(id, Some(reactor))) <==> IsActor(p, id, reactor)
    ensures ActorOf(p).Some? ==> ActorOf(p).value.reactorType.Some?
  {}

  /** Whose a reaction is: a guest's by the guest's session alone, anyone else's by the user's id, or by the
      guest's session when there is none. */
  lemma ActorIdExactly(r: Reaction, id: Id)
    ensures ActorId(r) == Some(id) <==>
            (r.guestId == Some(id) && (r.reactorType == Some(Guest) || r.userId == None))
            || (r.userId == Some(id) && r.reactorType != Some(Guest))
  {}

  /** Someone with this actor id has the emoji on the list. */
  ghost predicate On(list: seq<Reaction>, emoji: Emoji, actor: Id) {
    exists r :: r in list && r.emoji == emoji && ActorId(r) == Some(actor)
  }

  /** Adding puts exactly the actor's emoji on the list, at the end; what is there stays. */
  lemma AddedExactly(list: seq<Reaction>, msg: Id, emoji: Emoji, actor: Id, reactor: Reactor, now: int)
    ensures var r := AddReaction(list, msg, emoji, Actor(actor, Some(reactor)), now);
            && (forall e, x :: On(r, e, x) <==> On(list, e, x) || (e == emoji && x == actor))
            && (if On(list, emoji, actor) then r == list
                else r == list + [Reaction(msg, Some(reactor), if reactor == User then Some(actor) else None,
                                           if reactor == Guest then Some(actor) else None, emoji, now)])
  {
    var a := Actor(actor, Some(reactor));
    var r := AddReaction(list, msg, emoji, a, now);
    if On(list, emoji, actor) {
      var x :| x in list && x.emoji == emoji && ActorId(x) == Some(actor);
      var i :| 0 <= i < |list| && list[i] == x;
      assert Matches(list[i], emoji, actor);
    } else {
      assert !Reacted(list, emoji, actor);
      assert r == list + [LocalReaction(msg, emoji, a, now)];
      forall e, x ensures On(r, e, x) <==> On(list, e, x) || (e == emoji && x == actor) {
        assert r[|list|] == LocalReaction(msg, emoji, a, now);
      }
    }
  }

  /** Removing takes exactly the actor's emoji off a list that has nobody's emoji twice. */
  lemma {:induction false} RemovedExactly(list: seq<Reaction>, emoji: Emoji, actor: Id)
    requires PairsUnique(list)
    ensures forall e, x :: On(RemoveReaction(list, emoji, actor), e, x) <==> On(list, e, x) && !(e == emoji && x == actor)
  {
    if list != [] {
      var rest := RemoveReaction(list[1..], emoji, actor);
      RemovedExactly(list[1..], emoji, actor);
      forall e, x
        ensures On(RemoveReaction(list, emoji, actor), e, x) <==> On(list, e, x) && !(e == emoji && x == actor)
      {
        OnHead(list, e, x);
        if Matches(list[0], emoji, actor) {
          NotAgain(list, emoji, actor);
        } else {
          OnHead([list[0]] + rest, e, x);
          assert ([list[0]] + rest)[1..] == rest;
        }
      }
    }
  }

  lemma OnHead(list: seq<Reaction>, e: Emoji, x: Id)
    requires list != []
    ensures On(list, e, x) <==> Matches(list[0], e, x) || On(list[1..], e, x)
  {
    assert list == [list[0]] + list[1..];
  }

  lemma NotAgain(list: seq<Reaction>, emoji: Emoji, actor: Id)
    requires PairsUnique(list) && list != [] && Matches(list[0], emoji, actor)
    ensures !On(list[1..], emoji, actor)
  {
    forall r | r in list[1..] ensures !(r.emoji == emoji && ActorId(r) == Some(actor)) {
      var i :| 0 <= i < |list[1..]| && list[1..][i] == r;
      assert list[i + 1] == r && !SamePair(list[0], list[i + 1]);
    }
  }

  function With(m: Message, f: Field, v: Value): Message {
    m.(attrs := m.attrs.(fields := m.attrs.fields[f := v]))
  }

  function Kept<T>(a: Slot<T>, b: Slot<T>): Slot<T> {
    match b case Absent => a case Null => Null case Has(v) => Has(v)
  }

  /** Every property the update brings is the message's now, and every other is kept. */
  function Updating(m: Message, a: Attrs): Message {
    Message(m.id, Attrs(Kept(m.attrs.channel, a.channel), Kept(m.attrs.parent, a.parent), Kept(m.attrs.reactions, a.reactions),
                        map f | f in m.attrs.fields.Keys + a.fields.Keys ::
                          if f in a.fields then a.fields[f] else m.attrs.fields[f]))
  }

  function WithReactions(m: Message, list: seq<Reaction>): Message {
    m.(attrs := m.attrs.(reactions := Has(list)))
  }

  function ListOf(m: Message): seq<Reaction> {
    match m.attrs.reactions case Has(list) => list case _ => []
  }

  function CountOf(m: Message): nat {
    if ReplyCount in m.attrs.fields then
      match m.attrs.fields[ReplyCount] case Number(n) => n case _ => 0
    else 0
  }

  /** The parent of a reply. */
  function ParentOf(m: Message): Option<Id> {
    match m.attrs.parent
    case Has(p) => if p.name == "" then None else Some(p)
    case _ => None
  }

  /** What one event makes of the channel's copy of a message. */
  function Next(before: Option<Message>, e: Event, now: int, ch: Id, id: Id): Option<Message> {
    if before == None then
      if e.Created? && e.channel == ch && e.message.id == id && ParentOf(e.message) == None then Some(e.message) else None
    else
      var m := before.value;
      match e
      case Created(c, r) =>
        if c == ch && ParentOf(r) == Some(id) then Some(With(m, ReplyCount, Number(CountOf(m) + 1))) else before
      case Updated(c, u) => if c == ch && u.id == id then Some(Updating(m, u.attrs)) else before
      case Deleted(c, d) =>
        if c == ch && d.id == id then
          var at := if DeletedAt in d.attrs.fields && d.attrs.fields[DeletedAt] != Nothing
                    then d.attrs.fields[DeletedAt] else Time(now);
          Some(With(With(m, Content, Text("")), DeletedAt, at))
        else before
      case ReactionAdded(p) =>
        if p.channel == ch && p.message == id && ActorOf(p).Some?
        then Some(WithReactions(m, AddReaction(ListOf(m), id, p.emoji, ActorOf(p).value, now))) else before
      case ReactionRemoved(p) =>
        if p.channel == ch && p.message == id && ActorOf(p).Some?
        then Some(WithReactions(m, RemoveReaction(ListOf(m), p.emoji, ActorOf(p).value.id))) else before
      case PinnedEvent(c, x) => if c == ch && x == id then Some(With(m, Pinned, Flag(true))) else before
      case UnpinnedEvent(c, x) => if c == ch && x == id then Some(With(m, Pinned, Flag(false))) else before
  }

  function History(events: seq<Timed>, ch: Id, id: Id): Option<Message> {
    if events == [] then None
    else
      var n := |events| - 1;
      Next(History(events[..n], ch, id), events[n].event, events[n].now, ch, id)
  }

  function Copy(s: State, ch: Id, id: Id): Option<Message> {
    FindIn(ChannelList(s, ch), id)
  }

  lemma {:induction false} OtherInPatched(list: seq<Message>, id: Id, p: Attrs, other: Id)
    requires other != id
    ensures FindIn(PatchIn(list, id, p), other) == FindIn(list, other)
  {
    if list != [] && list[0].id != id {
      OtherInPatched(list[1..], id, p, other);
      assert PatchIn(list, id, p)[1..] == PatchIn(list[1..], id, p);
    }
  }

  lemma PatchedCopy(s: State, c: Id, x: Id, p: Attrs, ch: Id, id: Id)
    ensures Copy(Patch(s, c, x, p), ch, id) ==
            match Copy(s, ch, id)
            case None => None
            case Some(m) => if c == ch && x == id then Some(Message(id, Over(m.attrs, p))) else Some(m)
  {
    if x == id {
      FindInPatched(ChannelList(s, ch), id, p);
    } else {
      OtherInPatched(ChannelList(s, ch), x, p, id);
    }
  }

  lemma {:induction false} CopyHasId(list: seq<Message>, id: Id)
    ensures FindIn(list, id) == None <==> !HasId(list, id)
    ensures FindIn(list, id).Some? ==> FindIn(list, id).value.id == id
  {
    if list != [] && list[0].id != id {
      CopyHasId(list[1..], id);
      if HasId(list, id) {
        var i :| 0 <= i < |list| && list[i].id == id;
        assert list[1..][i - 1].id == id;
      }
    }
  }

  lemma SpreadField(m: Message, f: Field, v: Value)
    ensures Message(m.id, Over(m.attrs, FieldPatch(map[f := v]))) == With(m, f, v)
  {}

  lemma SpreadDeletion(m: Message, at: Value)
    ensures Message(m.id, Over(m.attrs, FieldPatch(map[DeletedAt := at, Content := Text("")])))
         == With(With(m, Content, Text("")), DeletedAt, at)
  {}

  lemma SpreadUpdate(m: Message, a: Attrs)
    ensures Message(m.id, Over(m.attrs, a)) == Updating(m, a)
  {}

  lemma SpreadReactions(m: Message, list: seq<Reaction>)
    ensures Message(m.id, Over(m.attrs, ReactionPatch(list))) == WithReactions(m, list)
  {}

  lemma CreatedCopy(s: State, c: Id, r: Message, now: int, ch: Id, id: Id)
    ensures Copy(ApplyEvent(s, Created(c, r), now), ch, id) == Next(Copy(s, ch, id), Created(c, r), now, ch, id)
  {
    CopyHasId(ChannelList(s, ch), id);
    if ParentOf(r).Some? {
      var parent := r.attrs.parent.value;
      var t := s.(threads := AppendReply(s.threads, parent, r));
      var found := Find(t, c, parent);
      if found.Some? {
        PatchedCopy(t, c, parent, FieldPatch(map[ReplyCount := Number(Replies(found.value) + 1)]), ch, id);
        if Copy(s, ch, id).Some? {
          SpreadField(Copy(s, ch, id).value, ReplyCount, Number(Replies(found.value) + 1));
        }
      }
    } else {
      CopyHasId(ChannelList(s, ch), r.id);
      assert c == ch ==> ([r] + ChannelList(s, ch))[1..] == ChannelList(s, ch);
    }
  }

  lemma ReactedCopy(s: State, p: ReactionPayload, add: bool, now: int, ch: Id, id: Id)
    ensures Copy(React(s, p.channel, p.message, p.emoji, ActorOf(p), add, now), ch, id) ==
            match Copy(s, ch, id)
            case None => None
            case Some(m) =>
              if p.channel == ch && p.message == id && ActorOf(p).Some? then
                Some(WithReactions(m, if add then AddReaction(ListOf(m), id, p.emoji, ActorOf(p).value, now)
                                      else RemoveReaction(ListOf(m), p.emoji, ActorOf(p).value.id)))
              else Some(m)
  {
    CopyHasId(ChannelList(s, ch), id);
    var found := Find(s, p.channel, p.message);
    if ActorOf(p).Some? && found.Some? {
      var list := Listed(found.value);
      var changed := if add then AddReaction(list, p.message, p.emoji, ActorOf(p).value, now)
                     else RemoveReaction(list, p.emoji, ActorOf(p).value.id);
      PatchedCopy(s, p.channel, p.message, ReactionPatch(changed), ch, id);
      if Copy(s, ch, id).Some? {
        SpreadReactions(Copy(s, ch, id).value, changed);
      }
    }
  }

  lemma EventCopy(s: State, e: Event, now: int, ch: Id, id: Id)
    ensures Copy(ApplyEvent(s, e, now), ch, id) == Next(Copy(s, ch, id), e, now, ch, id)
  {
    CopyHasId(ChannelList(s, ch), id);
    var before := Copy(s, ch, id);
    match e
    case Created(c, r) => CreatedCopy(s, c, r, now, ch, id);
    case Updated(c, u) =>
      PatchedCopy(s, c, u.id, u.attrs, ch, id);
      if before.Some? { SpreadUpdate(before.value, u.attrs); }
    case Deleted(c, d) =>
      PatchedCopy(s, c, d.id, DeletionPatch(d, now), ch, id);
      if before.Some? { SpreadDeletion(before.value, DeletionTime(d, now)); }
    case ReactionAdded(p) => ReactedCopy(s, p, true, now, ch, id);
    case ReactionRemoved(p) => ReactedCopy(s, p, false, now, ch, id);
    case PinnedEvent(c, x) =>
      PatchedCopy(s, c, x, FieldPatch(map[Pinned := Flag(true)]), ch, id);
      if before.Some? { SpreadField(before.value, Pinned, Flag(true)); }
    case UnpinnedEvent(c, x) =>
      PatchedCopy(s, c, x, FieldPatch(map[Pinned := Flag(false)]), ch, id);
      if before.Some? { SpreadField(before.value, Pinned, Flag(false)); }
  }

  /** Over every run: the channel's copy of each message is what its own events have made of it. */
  lemma {:induction false} CopiesFollowHistory(events: seq<Timed>, ch: Id, id: Id)
    ensures Copy(Run(events), ch, id) == History(events, ch, id)
  {
    if events != [] {
      var n := |events| - 1;
      CopiesFollowHistory(events[..n], ch, id);
      EventCopy(Run(events[..n]), events[n].event, events[n].now, ch, id);
    }
  }

  // ---- The order of a channel ------------------------------------------------------------------

  function Ids(list: seq<Message>): (r: seq<Id>)
    ensures |r| == |list| && forall i :: 0 <= i < |r| ==> r[i] == list[i].id
  {
    seq(|list|, i requires 0 <= i < |list| => list[i].id)
  }

  /** The ids created in the channel, the newest first. */
  function CreatedIds(events: seq<Timed>, ch: Id): seq<Id> {
    if events == [] then []
    else
      var before := CreatedIds(events[..|events| - 1], ch);
      var e := events[|events| - 1].event;
      if e.Created? && e.channel == ch && ParentOf(e.message) == None && e.message.id !in before
      then [e.message.id] + before
      else before
  }

  lemma {:induction false} PatchKeepsIds(list: seq<Message>, id: Id, p: Attrs)
    ensures Ids(PatchIn(list, id, p)) == Ids(list)
  {
    if list != [] && list[0].id != id {
      PatchKeepsIds(list[1..], id, p);
      assert Ids(list) == [list[0].id] + Ids(list[1..]);
    }
  }

  lemma EventOrder(s: State, e: Event, now: int, ch: Id)
    ensures Ids(ChannelList(ApplyEvent(s, e, now), ch)) ==
            var before := Ids(ChannelList(s, ch));
            if e.Created? && e.channel == ch && ParentOf(e.message) == None && e.message.id !in before
            then [e.message.id] + before
            else before
  {
    var list := ChannelList(s, ch);
    forall id, p ensures Ids(PatchIn(list, id, p)) == Ids(list) {
      PatchKeepsIds(list, id, p);
    }
    if e.Created? && ParentOf(e.message) == None && e.channel == ch {
      assert HasId(list, e.message.id) <==> e.message.id in Ids(list);
      assert Ids([e.message] + list) == [e.message.id] + Ids(list);
    }
  }

  /** Over every run: a channel lists exactly the messages created in it, each once, the newest first. */
  lemma {:induction false} ChannelsAreNewestFirst(events: seq<Timed>, ch: Id)
    ensures Ids(ChannelList(Run(events), ch)) == CreatedIds(events, ch)
  {
    if events != [] {
      var n := |events| - 1;
      ChannelsAreNewestFirst(events[..n], ch);
      EventOrder(Run(events[..n]), events[n].event, events[n].now, ch);
    }
  }

  // ---- Threads ----------------------------------------------------------------------------------

  function RepliesTo(threads: seq<Thread>, parent: Id): seq<Message> {
    if threads == [] then []
    else if threads[0].parent == parent then threads[0].replies
    else RepliesTo(threads[1..], parent)
  }

  /** The ids replied with, in the order they came. */
  function ReplyIds(events: seq<Timed>, parent: Id): seq<Id> {
    if events == [] then []
    else
      var before := ReplyIds(events[..|events| - 1], parent);
      var e := events[|events| - 1].event;
      if e.Created? && ParentOf(e.message) == Some(parent) && e.message.id !in before then before + [e.message.id]
      else before
  }

  lemma {:induction false} PatchKeepsReplyIds(threads: seq<Thread>, id: Id, p: Attrs, parent: Id)
    ensures Ids(RepliesTo(PatchThreads(threads, id, p), parent)) == Ids(RepliesTo(threads, parent))
  {
    if threads != [] {
      PatchKeepsIds(threads[0].replies, id, p);
      PatchKeepsReplyIds(threads[1..], id, p, parent);
      assert PatchThreads(threads, id, p)[1..] == PatchThreads(threads[1..], id, p);
    }
  }

  lemma {:induction false} AppendedIds(threads: seq<Thread>, to: Id, m: Message, parent: Id)
    ensures Ids(RepliesTo(AppendReply(threads, to, m), parent)) ==
            var before := Ids(RepliesTo(threads, parent));
            if to == parent && m.id !in before then before + [m.id] else before
  {
    if threads == [] {
      assert Ids([m]) == [m.id];
    } else if threads[0].parent == to {
      var replies := threads[0].replies;
      assert HasId(replies, m.id) <==> m.id in Ids(replies);
      assert Ids(replies + [m]) == Ids(replies) + [m.id];
      assert AppendReply(threads, to, m)[1..] == threads[1..];
    } else {
      AppendedIds(threads[1..], to, m, parent);
      assert AppendReply(threads, to, m)[1..] == AppendReply(threads[1..], to, m);
    }
  }

  lemma EventReplies(s: State, e: Event, now: int, parent: Id)
    ensures Ids(RepliesTo(ApplyEvent(s, e, now).threads, parent)) ==
            var before := Ids(RepliesTo(s.threads, parent));
            if e.Created? && ParentOf(e.message) == Some(parent) && e.message.id !in before then before + [e.message.id]
            else before
  {
    forall threads, id, p
      ensures Ids(RepliesTo(PatchThreads(threads, id, p), parent)) == Ids(RepliesTo(threads, parent))
    {
      PatchKeepsReplyIds(threads, id, p, parent);
    }
    if e.Created? && ParentOf(e.message).Some? {
      AppendedIds(s.threads, e.message.attrs.parent.value, e.message, parent);
    }
  }

  /** Over every run: a thread lists exactly the replies to its parent, each once, in the order they came. */
  lemma {:induction false} ThreadsAreInOrder(events: seq<Timed>, parent: Id)
    ensures Ids(RepliesTo(Run(events).threads, parent)) == ReplyIds(events, parent)
  {
    if events != [] {
      var n := |events| - 1;
      ThreadsAreInOrder(events[..n], parent);
      EventReplies(Run(events[..n]), events[n].event, events[n].now, parent);
    }
  }
}
