/** Reactions on a message (frontend/src/lib/types.ts, frontend/src/stores/messages.ts). */
module Reactions {
  import opened Wrappers

  datatype Id = Id(name: string)

  datatype Emoji = Emoji(name: string)

  datatype Reactor = User | Guest

  /** A missing reactor type is None, a missing or null id likewise. */
  datatype Reaction = Reaction(messageId: Id, reactorType: Option<Reactor>, userId: Option<Id>,
                               guestId: Option<Id>, emoji: Emoji, createdAt: int)

  /** JavaScript's truth of an id: there and not the empty string. */
  predicate Truthy(id: Option<Id>) {
    id.Some? && id.value.name != ""
  }

  /** reactionActorId. */
  function ActorId(r: Reaction): Option<Id> {
    if r.reactorType == Some(Guest) then r.guestId else OrElse(r.userId, r.guestId)
  }

  datatype Actor = Actor(id: Id, reactorType: Option<Reactor>)

  predicate Matches(r: Reaction, emoji: Emoji, actor: Id) {
    r.emoji == emoji && ActorId(r) == Some(actor)
  }

  // ---- applyReaction ----------------------------------------------------------------

  function LocalReaction(msg: Id, emoji: Emoji, actor: Actor, now: int): Reaction {
    var reactor := if actor.reactorType.Some? then actor.reactorType.value else User;
    Reaction(msg, Some(reactor), if reactor == User then Some(actor.id) else None,
             if reactor == Guest then Some(actor.id) else None, emoji, now)
  }

  predicate Reacted(list: seq<Reaction>, emoji: Emoji, actor: Id) {
    exists i :: 0 <= i < |list| && Matches(list[i], emoji, actor)
  }

  function AddReaction(list: seq<Reaction>, msg: Id, emoji: Emoji, actor: Actor, now: int): seq<Reaction> {
    if Reacted(list, emoji, actor.id) then list else list + [LocalReaction(msg, emoji, actor, now)]
  }

  /** The first match is taken out. */
  function RemoveReaction(list: seq<Reaction>, emoji: Emoji, actor: Id): seq<Reaction> {
    if list == [] then []
    else if Matches(list[0], emoji, actor) then list[1..]
    else [list[0]] + RemoveReaction(list[1..], emoji, actor)
  }

  /** findIndex. */
  method FindReaction(list: seq<Reaction>, emoji: Emoji, actor: Id) returns (i: nat)
    ensures i <= |list| && forall j :: 0 <= j < i ==> !Matches(list[j], emoji, actor)
    ensures i < |list| ==> Matches(list[i], emoji, actor)
  {
    i := 0;
    while i < |list| && !Matches(list[i], emoji, actor)
      invariant 0 <= i <= |list|
      invariant forall j :: 0 <= j < i ==> !Matches(list[j], emoji, actor)
    {
      i := i + 1;
    }
  }

  method ApplyReaction(list: seq<Reaction>, msg: Id, emoji: Emoji, actor: Actor, add: bool, now: int)
    returns (r: seq<Reaction>)
    ensures r == if add then AddReaction(list, msg, emoji, actor, now) else RemoveReaction(list, emoji, actor.id)
  {
    var existing := FindReaction(list, emoji, actor.id);
    RemovePastPrefix(list, emoji, actor.id, existing);
    if add {
      if existing < |list| {
        return list;
      }
      r := list + [LocalReaction(msg, emoji, actor, now)];
    } else {
      if existing == |list| {
        return list;
      }
      assert list[existing..][1..] == list[existing + 1..];
      r := list[..existing] + list[existing + 1..];
    }
  }

  lemma {:induction false} RemovePastPrefix(list: seq<Reaction>, emoji: Emoji, actor: Id, n: nat)
    requires n <= |list| && forall j :: 0 <= j < n ==> !Matches(list[j], emoji, actor)
    ensures RemoveReaction(list, emoji, actor) == list[..n] + RemoveReaction(list[n..], emoji, actor)
    ensures n == |list| ==> RemoveReaction(list, emoji, actor) == list
  {
    if n > 0 {
      RemovePastPrefix(list[1..], emoji, actor, n - 1);
      assert list[1..][n - 1..] == list[n..];
      assert list[..n] == [list[0]] + list[1..][..n - 1];
      assert list == [list[0]] + list[1..];
    }
  }

  /** A new reaction carries its actor, whatever the reactor type. */
  lemma LocalReactionMatches(msg: Id, emoji: Emoji, actor: Actor, now: int)
    ensures Matches(LocalReaction(msg, emoji, actor, now), emoji, actor.id)
  {}

  /** Adding a reaction that is not there and removing it again restores the list. */
  lemma AddThenRemove(list: seq<Reaction>, msg: Id, emoji: Emoji, actor: Actor, now: int)
    requires !Reacted(list, emoji, actor.id)
    ensures RemoveReaction(AddReaction(list, msg, emoji, actor, now), emoji, actor.id) == list
  {
    var added := list + [LocalReaction(msg, emoji, actor, now)];
    LocalReactionMatches(msg, emoji, actor, now);
    RemovePastPrefix(added, emoji, actor.id, |list|);
    assert added[|list|..] == [LocalReaction(msg, emoji, actor, now)];
    assert added[..|list|] == list;
  }

  /** Adding again changes nothing, whatever the clock says. */
  lemma AddIdempotent(list: seq<Reaction>, msg: Id, emoji: Emoji, actor: Actor, now: int, later: int)
    ensures AddReaction(AddReaction(list, msg, emoji, actor, now), msg, emoji, actor, later)
         == AddReaction(list, msg, emoji, actor, now)
  {
    LocalReactionMatches(msg, emoji, actor, now);
    if !Reacted(list, emoji, actor.id) {
      var added := list + [LocalReaction(msg, emoji, actor, now)];
      assert Matches(added[|list|], emoji, actor.id);
    }
  }

  function CountMatches(list: seq<Reaction>, emoji: Emoji, actor: Id): nat {
    if list == [] then 0
    else (if Matches(list[0], emoji, actor) then 1 else 0) + CountMatches(list[1..], emoji, actor)
  }

  lemma {:induction false} RemoveUnmatched(list: seq<Reaction>, emoji: Emoji, actor: Id)
    ensures RemoveReaction(list, emoji, actor) == list <==> CountMatches(list, emoji, actor) == 0
    ensures |RemoveReaction(list, emoji, actor)| == |list| - if CountMatches(list, emoji, actor) == 0 then 0 else 1
  {
    if list != [] {
      RemoveUnmatched(list[1..], emoji, actor);
      assert list == [list[0]] + list[1..];
    }
  }

  lemma {:induction false} CountAfterRemove(list: seq<Reaction>, emoji: Emoji, actor: Id)
    ensures var n := CountMatches(list, emoji, actor);
            CountMatches(RemoveReaction(list, emoji, actor), emoji, actor) == if n == 0 then 0 else n - 1
  {
    if list != [] && !Matches(list[0], emoji, actor) {
      CountAfterRemove(list[1..], emoji, actor);
      assert ([list[0]] + RemoveReaction(list[1..], emoji, actor))[1..] == RemoveReaction(list[1..], emoji, actor);
    }
  }

  /** Removing again changes nothing exactly when the reaction was there at most once. */
  lemma RemoveIdempotentExactly(list: seq<Reaction>, emoji: Emoji, actor: Id)
    ensures RemoveReaction(RemoveReaction(list, emoji, actor), emoji, actor) == RemoveReaction(list, emoji, actor)
            <==> CountMatches(list, emoji, actor) <= 1
  {
    CountAfterRemove(list, emoji, actor);
    RemoveUnmatched(RemoveReaction(list, emoji, actor), emoji, actor);
  }

  // ---- One reaction an actor and emoji ----------------------------------------------------

  /** No actor has the same emoji twice. */
  ghost predicate PairsUnique(list: seq<Reaction>) {
    forall i, j :: 0 <= i < j < |list| ==> !SamePair(list[i], list[j])
  }

  predicate SamePair(a: Reaction, b: Reaction) {
    a.emoji == b.emoji && ActorId(a).Some? && ActorId(a) == ActorId(b)
  }

  lemma AddKeepsPairsUnique(list: seq<Reaction>, msg: Id, emoji: Emoji, actor: Actor, now: int)
    requires PairsUnique(list)
    ensures PairsUnique(AddReaction(list, msg, emoji, actor, now))
  {}

  lemma {:induction false} RemoveKeepsPairsUnique(list: seq<Reaction>, emoji: Emoji, actor: Id)
    requires PairsUnique(list)
    ensures PairsUnique(RemoveReaction(list, emoji, actor))
    ensures forall r :: r in RemoveReaction(list, emoji, actor) ==> r in list
  {
    if list != [] && !Matches(list[0], emoji, actor) {
      RemoveKeepsPairsUnique(list[1..], emoji, actor);
      var rest := RemoveReaction(list[1..], emoji, actor);
      forall j | 0 <= j < |rest| ensures !SamePair(list[0], rest[j]) {
        assert rest[j] in list[1..];
        var k :| 0 <= k < |list[1..]| && list[1..][k] == rest[j];
        assert list[1..][k] == list[k + 1];
      }
    }
  }

  lemma {:induction false} UniquePairsCount(list: seq<Reaction>, emoji: Emoji, actor: Id)
    requires PairsUnique(list)
    ensures CountMatches(list, emoji, actor) <= 1
    ensures CountMatches(list, emoji, actor) == 0 <==> !Reacted(list, emoji, actor)
  {
    if list != [] {
      UniquePairsCount(list[1..], emoji, actor);
      if Matches(list[0], emoji, actor) {
        assert !Reacted(list[1..], emoji, actor);
      } else if Reacted(list, emoji, actor) {
        var i :| 0 <= i < |list| && Matches(list[i], emoji, actor);
        assert Matches(list[1..][i - 1], emoji, actor);
      }
    }
  }

  // ---- aggregateReactions -------------------------------------------------------------------

  datatype Group = Group(emoji: Emoji, actorIds: seq<Id>, count: nat)

  /** The distinct actors who reacted with an emoji. */
  function Actors(raw: seq<Reaction>, emoji: Emoji): set<Id> {
    set r | r in raw && r.emoji == emoji && Truthy(ActorId(r)) :: ActorId(r).value
  }

  predicate Counts(r: Reaction, emoji: Emoji) {
    r.emoji == emoji && Truthy(ActorId(r))
  }

  /** `a` was seen before `b`. */
  ghost predicate SeenBefore(raw: seq<Reaction>, a: Emoji, b: Emoji) {
    exists p :: 0 <= p < |raw| && Counts(raw[p], a) && forall q :: 0 <= q <= p ==> !Counts(raw[q], b)
  }

  ghost predicate GroupOf(raw: seq<Reaction>, g: Group) {
    && (forall i, j :: 0 <= i < j < |g.actorIds| ==> g.actorIds[i] != g.actorIds[j])
    && (forall x :: x in g.actorIds <==> x in Actors(raw, g.emoji))
    && g.count == |g.actorIds|
  }

  ghost predicate IsOrder(raw: seq<Reaction>, order: seq<Emoji>) {
    && (forall e :: e in order <==> Actors(raw, e) != {})
    && (forall i, j :: 0 <= i < j < |order| ==> order[i] != order[j] && SeenBefore(raw, order[i], order[j]))
  }

  lemma ActorsGrow(raw: seq<Reaction>, r: Reaction, e: Emoji)
    ensures Actors(raw + [r], e) == if Counts(r, e) then Actors(raw, e) + {ActorId(r).value} else Actors(raw, e)
  {}

  lemma SeenBeforeGrows(raw: seq<Reaction>, r: Reaction, a: Emoji, b: Emoji)
    requires SeenBefore(raw, a, b)
    ensures SeenBefore(raw + [r], a, b)
  {
    var p :| 0 <= p < |raw| && Counts(raw[p], a) && forall q :: 0 <= q <= p ==> !Counts(raw[q], b);
    assert Counts((raw + [r])[p], a);
  }

  lemma CountedHasActor(raw: seq<Reaction>, q: nat, e: Emoji)
    requires q < |raw|
    ensures Counts(raw[q], e) ==> Actors(raw, e) != {}
  {
    if Counts(raw[q], e) {
      assert ActorId(raw[q]).value in Actors(raw, e);
    }
  }

  lemma NotSeenYet(raw: seq<Reaction>, r: Reaction, a: Emoji, b: Emoji)
    requires Actors(raw, a) != {} && Actors(raw, b) == {}
    ensures SeenBefore(raw + [r], a, b)
  {
    var x :| x in Actors(raw, a);
    var y :| y in raw && y.emoji == a && Truthy(ActorId(y)) && ActorId(y).value == x;
    var p :| 0 <= p < |raw| && raw[p] == y;
    forall q | 0 <= q <= p ensures !Counts((raw + [r])[q], b) {
      CountedHasActor(raw, q, b);
    }
    assert Counts((raw + [r])[p], a);
  }

  lemma OrderUnchanged(raw: seq<Reaction>, order: seq<Emoji>, r: Reaction)
    requires IsOrder(raw, order) && (Truthy(ActorId(r)) ==> r.emoji in order)
    ensures IsOrder(raw + [r], order)
  {
    forall e ensures e in order <==> Actors(raw + [r], e) != {} {
      ActorsGrow(raw, r, e);
    }
    forall i, j | 0 <= i < j < |order| ensures order[i] != order[j] && SeenBefore(raw + [r], order[i], order[j]) {
      SeenBeforeGrows(raw, r, order[i], order[j]);
    }
  }

  lemma OrderGrows(raw: seq<Reaction>, order: seq<Emoji>, r: Reaction)
    requires IsOrder(raw, order) && Truthy(ActorId(r)) && r.emoji !in order
    ensures IsOrder(raw + [r], order + [r.emoji])
  {
    var order' := order + [r.emoji];
    forall e ensures e in order' <==> Actors(raw + [r], e) != {} {
      ActorsGrow(raw, r, e);
    }
    forall i, j | 0 <= i < j < |order'|
      ensures order'[i] != order'[j] && SeenBefore(raw + [r], order'[i], order'[j])
    {
      assert order'[i] == order[i] && order[i] in order;
      if j < |order| {
        SeenBeforeGrows(raw, r, order[i], order[j]);
      } else {
        NotSeenYet(raw, r, order[i], r.emoji);
      }
    }
  }

  /** One group an emoji in first-seen order, each counting exactly the distinct actors who used it;
      reactions without an actor do not count. */
  method AggregateReactions(raw: seq<Reaction>) returns (groups: seq<Group>)
    ensures IsOrder(raw, Emojis(groups))
    ensures forall i :: 0 <= i < |groups| ==> GroupOf(raw, groups[i])
  {
    var order: seq<Emoji> := [];
    var table: map<Emoji, Group> := map[];
    for i := 0 to |raw|
      invariant TalliedSoFar(raw[..i], order, table)
    {
      var r := raw[i];
      assert raw[..i + 1] == raw[..i] + [r];
      order, table := Tally(raw[..i], r, order, table);
    }
    assert raw[..|raw|] == raw;
    groups := [];
    for i := 0 to |order|
      invariant |groups| == i && forall j :: 0 <= j < i ==> groups[j] == table[order[j]]
    {
      assert order[i] in order;
      groups := groups + [table[order[i]]];
    }
    forall j | 0 <= j < |order| ensures groups[j].emoji == order[j] && GroupOf(raw, groups[j]) {
      assert order[j] in order;
    }
    assert Emojis(groups) == order;
  }

  function Emojis(groups: seq<Group>): (r: seq<Emoji>)
    ensures |r| == |groups| && forall i :: 0 <= i < |r| ==> r[i] == groups[i].emoji
  {
    seq(|groups|, i requires 0 <= i < |groups| => groups[i].emoji)
  }

  ghost predicate TalliedSoFar(raw: seq<Reaction>, order: seq<Emoji>, table: map<Emoji, Group>) {
    && IsOrder(raw, order)
    && (forall e :: e in table <==> e in order)
    && (forall e :: e in table ==> table[e].emoji == e && GroupOf(raw, table[e]))
  }

  lemma GroupUnchanged(raw: seq<Reaction>, g: Group, r: Reaction)
    requires GroupOf(raw, g) && (Counts(r, g.emoji) ==> ActorId(r).value in g.actorIds)
    ensures GroupOf(raw + [r], g)
  {}

  lemma GroupGrows(raw: seq<Reaction>, g: Group, r: Reaction)
    requires GroupOf(raw, g) && Counts(r, g.emoji) && ActorId(r).value !in g.actorIds
    ensures GroupOf(raw + [r], Group(g.emoji, g.actorIds + [ActorId(r).value], g.count + 1))
  {}

  /** What the loop's body does to one emoji's group. */
  function Grown(g: Group, actor: Id): Group {
    if actor in g.actorIds then g else Group(g.emoji, g.actorIds + [actor], g.count + 1)
  }

  lemma GroupGrown(raw: seq<Reaction>, g: Group, r: Reaction)
    requires GroupOf(raw, g) && Counts(r, g.emoji)
    ensures GroupOf(raw + [r], Grown(g, ActorId(r).value))
  {}

  lemma TableGrows(raw: seq<Reaction>, r: Reaction, order: seq<Emoji>, table: map<Emoji, Group>)
    requires TalliedSoFar(raw, order, table) && Truthy(ActorId(r)) && r.emoji in table
    ensures TalliedSoFar(raw + [r], order, table[r.emoji := Grown(table[r.emoji], ActorId(r).value)])
  {
    OrderUnchanged(raw, order, r);
    GroupGrown(raw, table[r.emoji], r);
    forall e | e in table && e != r.emoji ensures GroupOf(raw + [r], table[e]) {
      GroupUnchanged(raw, table[e], r);
    }
  }

  lemma TableGains(raw: seq<Reaction>, r: Reaction, order: seq<Emoji>, table: map<Emoji, Group>)
    requires TalliedSoFar(raw, order, table) && Truthy(ActorId(r)) && r.emoji !in table
    ensures TalliedSoFar(raw + [r], order + [r.emoji], table[r.emoji := Group(r.emoji, [ActorId(r).value], 1)])
  {
    OrderGrows(raw, order, r);
    assert GroupOf(raw, Group(r.emoji, [], 0));
    GroupGrows(raw, Group(r.emoji, [], 0), r);
    assert [] + [ActorId(r).value] == [ActorId(r).value];
    forall e | e in table ensures GroupOf(raw + [r], table[e]) {
      GroupUnchanged(raw, table[e], r);
    }
  }

  lemma TableUnchanged(raw: seq<Reaction>, r: Reaction, order: seq<Emoji>, table: map<Emoji, Group>)
    requires TalliedSoFar(raw, order, table) && !Truthy(ActorId(r))
    ensures TalliedSoFar(raw + [r], order, table)
  {
    OrderUnchanged(raw, order, r);
    forall e | e in table ensures GroupOf(raw + [r], table[e]) {
      GroupUnchanged(raw, table[e], r);
    }
  }

  /** The loop's body: `raw` has been seen, `r` is next. */
  method Tally(ghost raw: seq<Reaction>, r: Reaction, order0: seq<Emoji>, table0: map<Emoji, Group>)
    returns (order: seq<Emoji>, table: map<Emoji, Group>)
    requires TalliedSoFar(raw, order0, table0)
    ensures TalliedSoFar(raw + [r], order, table)
  {
    order, table := order0, table0;
    var actor := ActorId(r);
    if !Truthy(actor) {
      TableUnchanged(raw, r, order0, table0);
      return;
    }
    if r.emoji !in table {
      TableGains(raw, r, order0, table0);
      table := table[r.emoji := Group(r.emoji, [], 0)];
      order := order + [r.emoji];
    } else {
      TableGrows(raw, r, order0, table0);
    }
    var g := table[r.emoji];
    if actor.value !in g.actorIds {
      table := table[r.emoji := Group(r.emoji, g.actorIds + [actor.value], g.count + 1)];
    }
  }
}
