/** What applying events does, over every state and every run. */
module MessageEvents {
  import opened Wrappers
  import opened Reactions
  import opened Messages

  // ---- Patches compose -----------------------------------------------------------------

  lemma OverAssociative(a: Attrs, b: Attrs, c: Attrs)
    ensures Over(Over(a, b), c) == Over(a, Over(b, c))
  {
    assert a.fields + b.fields + c.fields == a.fields + (b.fields + c.fields);
  }

  lemma OverSame(a: Attrs)
    ensures Over(a, a) == a
  {}

  lemma {:induction false} PatchInTwice(list: seq<Message>, id: Id, p: Attrs, q: Attrs)
    ensures PatchIn(PatchIn(list, id, p), id, q) == PatchIn(list, id, Over(p, q))
  {
    if list != [] {
      if list[0].id == id {
        OverAssociative(list[0].attrs, p, q);
        assert PatchIn(list, id, p)[1..] == list[1..];
      } else {
        PatchInTwice(list[1..], id, p, q);
        assert PatchIn(list, id, p)[1..] == PatchIn(list[1..], id, p);
      }
    }
  }

  /** Two patches of a message in a row are one: the second spread over the first. */
  lemma PatchTwice(s: State, ch: Id, id: Id, p: Attrs, q: Attrs)
    ensures Patch(Patch(s, ch, id, p), ch, id, q) == Patch(s, ch, id, Over(p, q))
  {
    if ch in s.byChannel {
      PatchInTwice(s.byChannel[ch], id, p, q);
    }
    forall i | 0 <= i < |s.threads|
      ensures PatchIn(PatchIn(s.threads[i].replies, id, p), id, q) == PatchIn(s.threads[i].replies, id, Over(p, q))
    {
      PatchInTwice(s.threads[i].replies, id, p, q);
    }
    assert PatchThreads(PatchThreads(s.threads, id, p), id, q) == PatchThreads(s.threads, id, Over(p, q));
  }

  lemma PatchIdempotent(s: State, ch: Id, id: Id, p: Attrs)
    ensures Patch(Patch(s, ch, id, p), ch, id, p) == Patch(s, ch, id, p)
  {
    PatchTwice(s, ch, id, p, p);
    OverSame(p);
  }

  // ---- Finding what was patched ------------------------------------------------------------

  lemma {:induction false} FindInPatched(list: seq<Message>, id: Id, p: Attrs)
    ensures FindIn(PatchIn(list, id, p), id) ==
            match FindIn(list, id) case None => None case Some(m) => Some(Message(id, Over(m.attrs, p)))
  {
    if list != [] && list[0].id != id {
      FindInPatched(list[1..], id, p);
      assert PatchIn(list, id, p)[1..] == PatchIn(list[1..], id, p);
    }
  }

  lemma {:induction false} FindInPatchedThreads(threads: seq<Thread>, id: Id, p: Attrs)
    ensures FindInThreads(PatchThreads(threads, id, p), id) ==
            match FindInThreads(threads, id) case None => None case Some(m) => Some(Message(id, Over(m.attrs, p)))
  {
    if threads != [] {
      FindInPatched(threads[0].replies, id, p);
      FindInPatchedThreads(threads[1..], id, p);
      assert PatchThreads(threads, id, p)[1..] == PatchThreads(threads[1..], id, p);
    }
  }

  /** A patched message is found with the patch spread over it. */
  lemma FindPatched(s: State, ch: Id, id: Id, p: Attrs)
    ensures Find(Patch(s, ch, id, p), ch, id) ==
            match Find(s, ch, id) case None => None case Some(m) => Some(Message(id, Over(m.attrs, p)))
  {
    FindInPatched(ChannelList(s, ch), id, p);
    FindInPatchedThreads(s.threads, id, p);
  }

  lemma {:induction false} PatchInMissing(list: seq<Message>, id: Id, p: Attrs)
    requires FindIn(list, id) == None
    ensures PatchIn(list, id, p) == list
  {
    if list != [] {
      PatchInMissing(list[1..], id, p);
      assert list == [list[0]] + list[1..];
    }
  }

  // ---- Reactions ------------------------------------------------------------------------------

  /** Adding a reaction event twice is adding it once, whatever the clock says. */
  lemma ReactTwice(s: State, ch: Id, id: Id, emoji: Emoji, actor: Option<Actor>, now: int, later: int)
    ensures React(React(s, ch, id, emoji, actor, true, now), ch, id, emoji, actor, true, later)
         == React(s, ch, id, emoji, actor, true, now)
  {
    if actor.Some? && Find(s, ch, id).Some? {
      var list := Listed(Find(s, ch, id).value);
      var p := ReactionPatch(AddReaction(list, id, emoji, actor.value, now));
      FindPatched(s, ch, id, p);
      AddIdempotent(list, id, emoji, actor.value, now, later);
      PatchIdempotent(s, ch, id, p);
    }
  }

  /** Removing a reaction twice is removing it once, if nobody has the same emoji twice. */
  lemma UnreactTwice(s: State, ch: Id, id: Id, emoji: Emoji, actor: Option<Actor>, now: int, later: int)
    requires Find(s, ch, id).Some? ==> PairsUnique(Listed(Find(s, ch, id).value))
    ensures React(React(s, ch, id, emoji, actor, false, now), ch, id, emoji, actor, false, later)
         == React(s, ch, id, emoji, actor, false, now)
  {
    if actor.Some? && Find(s, ch, id).Some? {
      var list := Listed(Find(s, ch, id).value);
      var p := ReactionPatch(RemoveReaction(list, emoji, actor.value.id));
      FindPatched(s, ch, id, p);
      UniquePairsCount(list, emoji, actor.value.id);
      RemoveIdempotentExactly(list, emoji, actor.value.id);
      PatchIdempotent(s, ch, id, p);
    }
  }

  /** Adding an absent reaction and removing it again leaves the message's copies with exactly the
      list it had. */
  lemma ReactThenUnreact(s: State, ch: Id, id: Id, emoji: Emoji, actor: Actor, now: int, later: int)
    requires Find(s, ch, id).Some? && !Reacted(Listed(Find(s, ch, id).value), emoji, actor.id)
    ensures var t := React(React(s, ch, id, emoji, Some(actor), true, now), ch, id, emoji, Some(actor), false, later);
            && t == Patch(s, ch, id, ReactionPatch(Listed(Find(s, ch, id).value)))
            && Find(t, ch, id).Some? && Listed(Find(t, ch, id).value) == Listed(Find(s, ch, id).value)
  {
    var list := Listed(Find(s, ch, id).value);
    var p := ReactionPatch(AddReaction(list, id, emoji, actor, now));
    FindPatched(s, ch, id, p);
    AddThenRemove(list, id, emoji, actor, now);
    PatchTwice(s, ch, id, p, ReactionPatch(list));
    assert Over(p, ReactionPatch(list)) == ReactionPatch(list);
    FindPatched(s, ch, id, ReactionPatch(list));
  }

  // ---- Applying an event twice ---------------------------------------------------------------------

  lemma PrependTwice(s: State, ch: Id, m: Message)
    ensures Prepend(Prepend(s, ch, m), ch, m) == Prepend(s, ch, m)
  {
    if !HasId(ChannelList(s, ch), m.id) {
      assert ChannelList(Prepend(s, ch, m), ch)[0].id == m.id;
    }
  }

  predicate Timestamped(m: Message) {
    DeletedAt in m.attrs.fields && m.attrs.fields[DeletedAt] != Nothing
  }

  /** Every event but a reply's creation and a deletion without a time. */
  predicate Repeatable(e: Event) {
    match e
    case Created(_, m) => !IsReply(m)
    case Deleted(_, m) => Timestamped(m)
    case _ => true
  }

  /** Applying an event twice, at any two times, is applying it once. */
  lemma ApplyTwice(s: State, e: Event, now: int, later: int)
    requires Repeatable(e) && WellFormed(s)
    ensures ApplyEvent(ApplyEvent(s, e, now), e, later) == ApplyEvent(s, e, now)
  {
    match e
    case Created(ch, m) => PrependTwice(s, ch, m);
    case Updated(ch, m) => PatchIdempotent(s, ch, m.id, m.attrs);
    case Deleted(ch, m) => PatchIdempotent(s, ch, m.id, DeletionPatch(m, now));
    case ReactionAdded(p) => ReactTwice(s, p.channel, p.message, p.emoji, ActorOf(p), now, later);
    case ReactionRemoved(p) =>
      FoundIsWellFormed(s, p.channel, p.message);
      UnreactTwice(s, p.channel, p.message, p.emoji, ActorOf(p), now, later);
    case PinnedEvent(ch, id) => PatchIdempotent(s, ch, id, FieldPatch(map[Pinned := Flag(true)]));
    case UnpinnedEvent(ch, id) => PatchIdempotent(s, ch, id, FieldPatch(map[Pinned := Flag(false)]));
  }

  /** Deleting twice at different times is deleting once exactly when the event carries its own time
      or the message is not in the store. */
  lemma DeleteTwiceExactly(s: State, ch: Id, m: Message, now: int, later: int)
    requires now != later
    ensures ApplyEvent(ApplyEvent(s, Deleted(ch, m), now), Deleted(ch, m), later) == ApplyEvent(s, Deleted(ch, m), now)
            <==> Timestamped(m) || Find(s, ch, m.id) == None
  {
    var p, q := DeletionPatch(m, now), DeletionPatch(m, later);
    PatchTwice(s, ch, m.id, p, q);
    assert Over(p, q) == q;
    FindPatched(s, ch, m.id, p);
    FindPatched(s, ch, m.id, q);
    if Find(s, ch, m.id) == None {
      NotFoundUnchanged(s, ch, m.id, p);
      NotFoundUnchanged(s, ch, m.id, q);
    } else {
      var a := Find(s, ch, m.id).value.attrs;
      assert Over(a, p).fields[DeletedAt] == DeletionTime(m, now);
      assert Over(a, q).fields[DeletedAt] == DeletionTime(m, later);
    }
  }

  lemma NotFoundUnchanged(s: State, ch: Id, id: Id, p: Attrs)
    requires Find(s, ch, id) == None
    ensures Patch(s, ch, id, p) == s
  {
    PatchInMissing(ChannelList(s, ch), id, p);
    NotFoundInThreads(s.threads, id, p);
  }

  lemma {:induction false} NotFoundInThreads(threads: seq<Thread>, id: Id, p: Attrs)
    requires FindInThreads(threads, id) == None
    ensures PatchThreads(threads, id, p) == threads
  {
    if threads != [] {
      PatchInMissing(threads[0].replies, id, p);
      NotFoundInThreads(threads[1..], id, p);
      assert PatchThreads(threads, id, p)[1..] == PatchThreads(threads[1..], id, p);
      assert threads == [threads[0]] + threads[1..];
      assert PatchThreads(threads, id, p) == [PatchThreads(threads, id, p)[0]] + PatchThreads(threads, id, p)[1..];
    }
  }

  // ---- What every run keeps ---------------------------------------------------------------------------

  ghost predicate IdsUnique(list: seq<Message>) {
    forall i, j :: 0 <= i < j < |list| ==> list[i].id != list[j].id
  }

  ghost predicate ReactionsUnique(list: seq<Message>) {
    forall i :: 0 <= i < |list| ==> PairsUnique(Listed(list[i]))
  }

  ghost predicate ListWellFormed(list: seq<Message>) {
    IdsUnique(list) && ReactionsUnique(list)
  }

  /** Ids are unique in each channel and thread list, and (actor, emoji) pairs on each message. */
  ghost predicate WellFormed(s: State) {
    && (forall ch :: ch in s.byChannel ==> ListWellFormed(s.byChannel[ch]))
    && (forall i :: 0 <= i < |s.threads| ==> ListWellFormed(s.threads[i].replies))
  }

  lemma {:induction false} FoundIn(list: seq<Message>, id: Id)
    ensures FindIn(list, id).Some? ==> FindIn(list, id).value in list && FindIn(list, id).value.id == id
  {
    if list != [] && list[0].id != id {
      FoundIn(list[1..], id);
    }
  }

  lemma {:induction false} FoundInThreads(threads: seq<Thread>, id: Id)
    requires forall i :: 0 <= i < |threads| ==> ListWellFormed(threads[i].replies)
    ensures FindInThreads(threads, id).Some? ==> PairsUnique(Listed(FindInThreads(threads, id).value))
  {
    if threads != [] {
      FoundIn(threads[0].replies, id);
      FoundInThreads(threads[1..], id);
    }
  }

  lemma FoundIsWellFormed(s: State, ch: Id, id: Id)
    requires WellFormed(s)
    ensures Find(s, ch, id).Some? ==> PairsUnique(Listed(Find(s, ch, id).value))
  {
    FoundIn(ChannelList(s, ch), id);
    FoundInThreads(s.threads, id);
  }

  /** A patch that brings no list of reactions, or one without repeated pairs. */
  ghost predicate PatchWellFormed(p: Attrs) {
    p.reactions.Has? ==> PairsUnique(p.reactions.value)
  }

  lemma {:induction false} PatchInWellFormed(list: seq<Message>, id: Id, p: Attrs)
    requires ListWellFormed(list) && PatchWellFormed(p)
    ensures ListWellFormed(PatchIn(list, id, p))
    ensures |PatchIn(list, id, p)| == |list|
    ensures forall i :: 0 <= i < |list| ==> PatchIn(list, id, p)[i].id == list[i].id
  {
    if list != [] {
      PatchInWellFormed(list[1..], id, p);
    }
  }

  lemma PatchKeepsWellFormed(s: State, ch: Id, id: Id, p: Attrs)
    requires WellFormed(s) && PatchWellFormed(p)
    ensures WellFormed(Patch(s, ch, id, p))
  {
    if ch in s.byChannel {
      PatchInWellFormed(s.byChannel[ch], id, p);
    }
    forall i | 0 <= i < |s.threads| ensures ListWellFormed(PatchIn(s.threads[i].replies, id, p)) {
      PatchInWellFormed(s.threads[i].replies, id, p);
    }
  }

  lemma {:induction false} AppendReplyWellFormed(threads: seq<Thread>, parent: Id, m: Message)
    requires forall i :: 0 <= i < |threads| ==> ListWellFormed(threads[i].replies)
    requires PairsUnique(Listed(m))
    ensures forall t :: t in AppendReply(threads, parent, m) ==> ListWellFormed(t.replies)
  {
    if threads != [] {
      AppendReplyWellFormed(threads[1..], parent, m);
      forall t | t in threads[1..] ensures ListWellFormed(t.replies) {
        var i :| 0 <= i < |threads[1..]| && threads[1..][i] == t;
        assert t == threads[i + 1];
      }
    }
  }

  lemma ReactKeepsWellFormed(s: State, ch: Id, id: Id, emoji: Emoji, actor: Option<Actor>, add: bool, now: int)
    requires WellFormed(s)
    ensures WellFormed(React(s, ch, id, emoji, actor, add, now))
  {
    if actor.Some? && Find(s, ch, id).Some? {
      FoundIsWellFormed(s, ch, id);
      var list := Listed(Find(s, ch, id).value);
      AddKeepsPairsUnique(list, id, emoji, actor.value, now);
      RemoveKeepsPairsUnique(list, emoji, actor.value.id);
      PatchKeepsWellFormed(s, ch, id, ReactionPatch(
        if add then AddReaction(list, id, emoji, actor.value, now) else RemoveReaction(list, emoji, actor.value.id)));
    }
  }

  /** Messages in payloads carry no repeated pairs. */
  ghost predicate PayloadWellFormed(e: Event) {
    match e
    case Created(_, m) => PatchWellFormed(m.attrs)
    case Updated(_, m) => PatchWellFormed(m.attrs)
    case _ => true
  }

  lemma FieldPatchKeepsWellFormed(s: State, ch: Id, id: Id, fields: map<Field, Value>)
    requires WellFormed(s)
    ensures WellFormed(Patch(s, ch, id, FieldPatch(fields)))
  {
    PatchKeepsWellFormed(s, ch, id, FieldPatch(fields));
  }

  lemma BumpKeepsWellFormed(s: State, ch: Id, parent: Id)
    requires WellFormed(s)
    ensures WellFormed(BumpReplies(s, ch, parent))
  {
    var found := Find(s, ch, parent);
    if found.Some? {
      FieldPatchKeepsWellFormed(s, ch, parent, map[ReplyCount := Number(Replies(found.value) + 1)]);
    }
  }

  lemma CreateKeepsWellFormed(s: State, ch: Id, m: Message, now: int)
    requires WellFormed(s) && PatchWellFormed(m.attrs)
    ensures WellFormed(ApplyEvent(s, Created(ch, m), now))
  {
    if IsReply(m) {
      var threads := AppendReply(s.threads, m.attrs.parent.value, m);
      AppendReplyWellFormed(s.threads, m.attrs.parent.value, m);
      forall i | 0 <= i < |threads| ensures ListWellFormed(threads[i].replies) {
        assert threads[i] in threads;
      }
      BumpKeepsWellFormed(s.(threads := threads), ch, m.attrs.parent.value);
    }
  }

  lemma EventKeepsWellFormed(s: State, e: Event, now: int)
    requires WellFormed(s) && PayloadWellFormed(e)
    ensures WellFormed(ApplyEvent(s, e, now))
  {
    match e
    case Created(ch, m) => CreateKeepsWellFormed(s, ch, m, now);
    case Updated(ch, m) => PatchKeepsWellFormed(s, ch, m.id, m.attrs);
    case Deleted(ch, m) => PatchKeepsWellFormed(s, ch, m.id, DeletionPatch(m, now));
    case ReactionAdded(p) => ReactKeepsWellFormed(s, p.channel, p.message, p.emoji, ActorOf(p), true, now);
    case ReactionRemoved(p) => ReactKeepsWellFormed(s, p.channel, p.message, p.emoji, ActorOf(p), false, now);
    case PinnedEvent(ch, id) => PatchKeepsWellFormed(s, ch, id, FieldPatch(map[Pinned := Flag(true)]));
    case UnpinnedEvent(ch, id) => PatchKeepsWellFormed(s, ch, id, FieldPatch(map[Pinned := Flag(false)]));
  }

  datatype Timed = Timed(event: Event, now: int)

  function Run(events: seq<Timed>): State {
    if events == [] then EMPTY_STATE
    else ApplyEvent(Run(events[..|events| - 1]), events[|events| - 1].event, events[|events| - 1].now)
  }

  /** Over every run of events: ids stay unique in each list and pairs on each message. */
  lemma {:induction false} RunKeepsWellFormed(events: seq<Timed>)
    requires forall i :: 0 <= i < |events| ==> PayloadWellFormed(events[i].event)
    ensures WellFormed(Run(events))
  {
    if events != [] {
      var n := |events| - 1;
      RunKeepsWellFormed(events[..n]);
      EventKeepsWellFormed(Run(events[..n]), events[n].event, events[n].now);
    }
  }

  /** Any event of a run that may be repeated could have been delivered twice with no effect. */
  lemma DuplicateDeliveryHarmless(events: seq<Timed>, e: Event, now: int, later: int)
    requires forall i :: 0 <= i < |events| ==> PayloadWellFormed(events[i].event)
    requires Repeatable(e)
    ensures Run(events + [Timed(e, now), Timed(e, later)]) == Run(events + [Timed(e, now)])
  {
    RunKeepsWellFormed(events);
    ApplyTwice(Run(events), e, now, later);
    var once, twice := events + [Timed(e, now)], events + [Timed(e, now), Timed(e, later)];
    assert once[..|events|] == events && twice[..|events| + 1] == once;
  }
}
