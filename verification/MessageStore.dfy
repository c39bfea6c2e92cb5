/** The message store as the object it is: each helper of the reducer a method, proved against its
    function in Messages (frontend/src/stores/messages.ts). */
module MessageStore {
  import opened Wrappers
  import opened Reactions
  import opened Messages

  /** findIndex by id; the length when there is none. */
  method FindIndex(list: seq<Message>, id: Id) returns (i: nat)
    ensures i <= |list| && forall j :: 0 <= j < i ==> list[j].id != id
    ensures i < |list| ==> list[i].id == id
  {
    i := 0;
    while i < |list| && list[i].id != id
      invariant 0 <= i <= |list|
      invariant forall j :: 0 <= j < i ==> list[j].id != id
    {
      i := i + 1;
    }
  }

  lemma {:induction false} FoundAt(list: seq<Message>, id: Id, n: nat)
    requires n <= |list| && forall j :: 0 <= j < n ==> list[j].id != id
    requires n < |list| ==> list[n].id == id
    ensures FindIn(list, id) == if n < |list| then Some(list[n]) else None
  {
    if n > 0 {
      FoundAt(list[1..], id, n - 1);
    }
  }

  lemma {:induction false} PatchedAt(list: seq<Message>, id: Id, p: Attrs, n: nat)
    requires n <= |list| && forall j :: 0 <= j < n ==> list[j].id != id
    requires n < |list| ==> list[n].id == id
    ensures PatchIn(list, id, p) == if n < |list| then list[n := Message(id, Over(list[n].attrs, p))] else list
  {
    if n > 0 {
      PatchedAt(list[1..], id, p, n - 1);
      assert list == [list[0]] + list[1..];
    }
  }

  method FindMessageIn(list: seq<Message>, id: Id) returns (found: Option<Message>)
    ensures found == FindIn(list, id)
  {
    var idx := FindIndex(list, id);
    FoundAt(list, id, idx);
    found := if idx < |list| then Some(list[idx]) else None;
  }

  method PatchList(list: seq<Message>, id: Id, p: Attrs) returns (r: seq<Message>)
    ensures r == PatchIn(list, id, p)
  {
    var idx := FindIndex(list, id);
    PatchedAt(list, id, p, idx);
    r := list;
    if idx < |list| {
      r := list[idx := Message(list[idx].id, Over(list[idx].attrs, p))];
    }
  }

  class Store {
    var byChannel: map<Id, seq<Message>>
    var threads: seq<Thread>

    constructor ()
      ensures View() == EMPTY_STATE
    {
      byChannel, threads := map[], [];
    }

    function View(): State
      reads this
    {
      State(byChannel, threads)
    }

    method FindMessage(ch: Id, id: Id) returns (found: Option<Message>)
      ensures found == Find(View(), ch, id)
    {
      if ch in byChannel {
        found := FindMessageIn(byChannel[ch], id);
        if found.Some? {
          return;
        }
      }
      for i := 0 to |threads|
        invariant FindInThreads(threads, id) == FindInThreads(threads[i..], id)
      {
        found := FindMessageIn(threads[i].replies, id);
        assert threads[i..][0] == threads[i] && threads[i..][1..] == threads[i + 1..];
        if found.Some? {
          return;
        }
      }
      found := None;
    }

    method PrependMessage(ch: Id, m: Message)
      modifies this
      ensures View() == Prepend(old(View()), ch, m)
    {
      var list := if ch in byChannel then byChannel[ch] else [];
      var idx := FindIndex(list, m.id);
      if idx < |list| {
        return;
      }
      byChannel := byChannel[ch := [m] + list];
    }

    /** mergeMessage, with the message's own properties as the patch, and patchMessage. */
    method PatchMessage(ch: Id, id: Id, p: Attrs)
      modifies this
      ensures View() == Patch(old(View()), ch, id, p)
    {
      if ch in byChannel {
        var list := PatchList(byChannel[ch], id, p);
        byChannel := byChannel[ch := list];
      }
      var next: seq<Thread> := [];
      for i := 0 to |threads|
        invariant |next| == i && threads == old(threads) && byChannel == Patch(old(View()), ch, id, p).byChannel
        invariant forall j :: 0 <= j < i ==> next[j] == Thread(threads[j].parent, PatchIn(threads[j].replies, id, p))
      {
        var replies := PatchList(threads[i].replies, id, p);
        next := next + [Thread(threads[i].parent, replies)];
      }
      assert next == PatchThreads(old(threads), id, p);
      threads := next;
    }

    method PatchReaction(ch: Id, id: Id, emoji: Emoji, actor: Option<Actor>, add: bool, now: int)
      modifies this
      ensures View() == React(old(View()), ch, id, emoji, actor, add, now)
    {
      if actor == None {
        return;
      }
      var existing := FindMessage(ch, id);
      if existing == None {
        return;
      }
      var list := ApplyReaction(Listed(existing.value), id, emoji, actor.value, add, now);
      PatchMessage(ch, id, ReactionPatch(list));
    }

    /** A reply goes to the end of its thread, once; a missing thread is started. */
    method AppendToThread(parent: Id, m: Message)
      modifies this`threads
      ensures threads == AppendReply(old(threads), parent, m)
    {
      var i := 0;
      while i < |threads| && threads[i].parent != parent
        invariant 0 <= i <= |threads| && threads == old(threads)
        invariant forall j :: 0 <= j < i ==> threads[j].parent != parent
      {
        i := i + 1;
      }
      AppendedAt(threads, parent, m, i);
      if i == |threads| {
        threads := threads + [Thread(parent, [m])];
      } else {
        var idx := FindIndex(threads[i].replies, m.id);
        if idx == |threads[i].replies| {
          threads := threads[i := Thread(parent, threads[i].replies + [m])];
        }
      }
    }

    method BumpReplyCount(ch: Id, parent: Id)
      modifies this
      ensures View() == BumpReplies(old(View()), ch, parent)
    {
      var found := FindMessage(ch, parent);
      if found.Some? {
        PatchMessage(ch, parent, FieldPatch(map[ReplyCount := Number(Replies(found.value) + 1)]));
      }
    }

    method ApplyEvent(e: Event, now: int)
      modifies this
      ensures View() == Messages.ApplyEvent(old(View()), e, now)
    {
      match e
      case Created(ch, m) =>
        if IsReply(m) {
          AppendToThread(m.attrs.parent.value, m);
          BumpReplyCount(ch, m.attrs.parent.value);
        } else {
          PrependMessage(ch, m);
        }
      case Updated(ch, m) =>
        PatchMessage(ch, m.id, m.attrs);
      case Deleted(ch, m) =>
        PatchMessage(ch, m.id, DeletionPatch(m, now));
      case ReactionAdded(p) =>
        PatchReaction(p.channel, p.message, p.emoji, ActorOf(p), true, now);
      case ReactionRemoved(p) =>
        PatchReaction(p.channel, p.message, p.emoji, ActorOf(p), false, now);
      case PinnedEvent(ch, id) =>
        PatchMessage(ch, id, FieldPatch(map[Pinned := Flag(true)]));
      case UnpinnedEvent(ch, id) =>
        PatchMessage(ch, id, FieldPatch(map[Pinned := Flag(false)]));
    }
  }

  lemma {:induction false} AppendedAt(threads: seq<Thread>, parent: Id, m: Message, n: nat)
    requires n <= |threads| && forall j :: 0 <= j < n ==> threads[j].parent != parent
    requires n < |threads| ==> threads[n].parent == parent
    ensures AppendReply(threads, parent, m) ==
            if n == |threads| then threads + [Thread(parent, [m])]
            else if HasId(threads[n].replies, m.id) then threads
            else threads[n := Thread(parent, threads[n].replies + [m])]
  {
    if n > 0 {
      AppendedAt(threads[1..], parent, m, n - 1);
      assert threads == [threads[0]] + threads[1..];
    }
  }
}
