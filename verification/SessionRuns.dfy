/** What every run of the session store keeps: the three structures agree, and a token is good for
    one refresh. */
module SessionRuns {
  import opened Sessions

  /** A session and its refresh entry name each other and expire together at ExpiresAt. */
  ghost predicate Paired(st: Store, id: SessionId) {
    id in st.sessions ==>
      var e := st.sessions[id];
      && e.expireAt == e.value.expiresAt
      && e.value.hash in st.refresh && st.refresh[e.value.hash] == Entry(id, e.expireAt)
  }

  /** A refresh entry is the one of the session it names. */
  ghost predicate Backed(st: Store, h: Hash) {
    h in st.refresh ==>
      st.refresh[h].value in st.sessions && st.sessions[st.refresh[h].value].value.hash == h
  }

  /** A live session is in its user's set, and in no other user's. */
  ghost predicate Listed(st: Store, id: SessionId, u: UserId, now: int) {
    Alive(st.sessions, id, now) ==> (id in Members(st, u) <==> u == st.sessions[id].value.userID)
  }

  ghost predicate AllPaired(st: Store) {
    forall id :: Paired(st, id)
  }

  ghost predicate AllBacked(st: Store) {
    forall h :: Backed(st, h)
  }

  ghost predicate AllListed(st: Store, now: int) {
    forall id, u :: Listed(st, id, u, now)
  }

  ghost predicate Consistent(st: Store, now: int) {
    AllPaired(st) && AllBacked(st) && AllListed(st, now)
  }

  /** In a consistent store, a live session is reachable through its own token and nobody else's. */
  lemma LiveSessionIsReachable(st: Store, id: SessionId, now: int, token: Token)
    requires Consistent(st, now) && Alive(st.sessions, id, now)
    ensures (Alive(st.refresh, HashOf(token), now) && st.refresh[HashOf(token)].value == id) <==>
            st.sessions[id].value.hash == HashOf(token)
  {
    assert Paired(st, id) && Backed(st, HashOf(token));
  }

  lemma TimePasses(st: Store, now: int, later: int)
    requires Consistent(st, now) && now <= later
    ensures Consistent(st, later)
  {
    forall id, u ensures Listed(st, id, u, later) {
      assert Listed(st, id, u, now);
    }
  }

  // ---- Each operation ------------------------------------------------------------------

  lemma DropConsistent(st: Store, id: SessionId, now: int)
    requires Consistent(st, now) && Alive(st.sessions, id, now)
    ensures Consistent(Drop(st, id, st.sessions[id].value), now)
  {
    var s := st.sessions[id].value;
    var t := Drop(st, id, s);
    assert Paired(st, id);
    forall x ensures Paired(t, x) {
      assert Paired(st, x);
    }
    forall h ensures Backed(t, h) {
      assert Backed(st, h);
    }
    forall x, u ensures Listed(t, x, u, now) {
      assert Listed(st, x, u, now);
    }
  }

  lemma RevokeConsistent(st: Store, id: SessionId, now: int)
    requires Consistent(st, now)
    ensures Consistent(Revoke(st, id, now), now)
  {
    if Alive(st.sessions, id, now) {
      DropConsistent(st, id, now);
    }
  }

  lemma {:induction false} RevokeSeqConsistent(st: Store, ids: seq<SessionId>, now: int)
    requires Consistent(st, now)
    ensures Consistent(RevokeSeq(st, ids, now), now)
  {
    if ids != [] {
      RevokeSeqConsistent(st, ids[..|ids| - 1], now);
      RevokeConsistent(RevokeSeq(st, ids[..|ids| - 1], now), ids[|ids| - 1], now);
    }
  }

  /** Revoking in a row only removes, and removes all it is asked to. */
  lemma {:induction false} RevokeSeqRemoves(st: Store, ids: seq<SessionId>, now: int)
    ensures var t := RevokeSeq(st, ids, now);
            && (forall id :: id in t.sessions <==> id in st.sessions && !(id in ids && Alive(st.sessions, id, now)))
            && (forall id :: id in t.sessions ==> t.sessions[id] == st.sessions[id])
            && (forall h :: h in t.refresh ==> h in st.refresh)
            && (forall u :: u in t.userSets ==> t.userSets[u] <= Members(st, u))
  {
    if ids != [] {
      var n := |ids| - 1;
      RevokeSeqRemoves(st, ids[..n], now);
      assert ids == ids[..n] + [ids[n]];
    }
  }

  /** Taking a user's set away, once no session of the user is alive. */
  lemma DropSetConsistent(st: Store, user: UserId, now: int)
    requires Consistent(st, now)
    requires forall id :: id in Members(st, user) ==> !Alive(st.sessions, id, now)
    ensures Consistent(st.(userSets := st.userSets - {user}), now)
  {
    var t := st.(userSets := st.userSets - {user});
    forall x ensures Paired(t, x) {
      assert Paired(st, x);
    }
    forall h ensures Backed(t, h) {
      assert Backed(st, h);
    }
    forall x, u ensures Listed(t, x, u, now) {
      assert Listed(st, x, u, now);
    }
  }

  lemma RevokeAllConsistent(st: Store, user: UserId, ids: seq<SessionId>, now: int)
    requires Consistent(st, now) && forall id :: id in ids <==> id in Members(st, user)
    ensures Consistent(RevokeAll(st, user, ids, now), now)
    ensures forall id :: Alive(RevokeAll(st, user, ids, now).sessions, id, now) ==>
              RevokeAll(st, user, ids, now).sessions[id].value.userID != user
  {
    RevokeSeqConsistent(st, ids, now);
    RevokeSeqRemoves(st, ids, now);
    var t := RevokeSeq(st, ids, now);
    DropSetConsistent(t, user, now);
    forall id | Alive(t.sessions, id, now) ensures t.sessions[id].value.userID != user {
      assert Listed(st, id, user, now);
    }
  }

  lemma InsertConsistent(st: Store, id: SessionId, token: Token, user: UserId, ttl: int, now: int)
    requires Consistent(st, now) && id !in st.sessions && HashOf(token) !in st.refresh
    requires forall u :: u in st.userSets ==> id !in st.userSets[u]
    ensures Consistent(Insert(st, id, token, user, ttl, now), now)
  {
    var t := Insert(st, id, token, user, ttl, now);
    forall x ensures Paired(t, x) {
      assert Paired(st, x);
    }
    forall h ensures Backed(t, h) {
      assert Backed(st, h);
    }
    forall x, u ensures Listed(t, x, u, now) {
      assert Listed(st, x, u, now);
    }
  }

  lemma PruneConsistent(st: Store, user: UserId, now: int)
    requires Consistent(st, now)
    ensures Consistent(Prune(st, user, now), now)
  {
    var t := Prune(st, user, now);
    forall x ensures Paired(t, x) {
      assert Paired(st, x);
    }
    forall h ensures Backed(t, h) {
      assert Backed(st, h);
    }
    forall x, u ensures Listed(t, x, u, now) {
      assert Listed(st, x, u, now);
    }
  }

  lemma EnforceConsistent(st: Store, user: UserId, max: nat, order: seq<SessionId>, now: int)
    requires Consistent(st, now)
    ensures Consistent(Enforce(st, user, max, order, now), now)
  {
    PruneConsistent(st, user, now);
    if |order| > max {
      RevokeSeqConsistent(Prune(st, user, now), order[..|order| - max], now);
    }
  }

  /** Writing a session back keeps the store consistent exactly when it carries the token the
      session now has. */
  lemma PutConsistent(st: Store, id: SessionId, s: Session, now: int)
    requires Consistent(st, now) && id in st.sessions
    requires var o := st.sessions[id].value; s.userID == o.userID && s.expiresAt == o.expiresAt && s.hash == o.hash
    ensures Consistent(Put(st, id, s), now)
  {
    var t := Put(st, id, s);
    assert Paired(st, id);
    forall x ensures Paired(t, x) {
      assert Paired(st, x);
    }
    forall h ensures Backed(t, h) {
      assert Backed(st, h);
    }
    forall x, u ensures Listed(t, x, u, now) {
      assert Listed(st, x, u, now);
    }
  }

  lemma RotatedConsistent(st: Store, id: SessionId, newToken: Token, now: int)
    requires Consistent(st, now) && id in st.sessions && HashOf(newToken) !in st.refresh
    ensures Consistent(Rotated(st, id, st.sessions[id].value, newToken, now), now)
  {
    var t := Rotated(st, id, st.sessions[id].value, newToken, now);
    assert Paired(st, id);
    forall x ensures Paired(t, x) {
      assert Paired(st, x);
    }
    forall h ensures Backed(t, h) {
      assert Backed(st, h);
    }
    forall x, u ensures Listed(t, x, u, now) {
      assert Listed(st, x, u, now);
    }
  }

  lemma ValidateConsistent(st: Store, token: Token, now: int)
    requires Consistent(st, now)
    ensures Consistent(Validate(st, token, now).1, now)
    ensures Validate(st, token, now).1.refresh.Keys <= st.refresh.Keys
  {
    var h := HashOf(token);
    if Alive(st.refresh, h, now) {
      var id := st.refresh[h].value;
      if Alive(st.sessions, id, now) {
        RevokeConsistent(st, id, now);
        PutConsistent(st, id, st.sessions[id].value.(lastActiveAt := now), now);
      }
    }
  }

  lemma RotateConsistent(st: Store, id: SessionId, newToken: Token, now: int)
    requires Consistent(st, now) && HashOf(newToken) !in st.refresh
    ensures Consistent(Rotate(st, id, newToken, now).1, now)
  {
    if id in st.sessions {
      RotatedConsistent(st, id, newToken, now);
    }
  }

  lemma RefreshConsistent(st: Store, token: Token, newToken: Token, user: UserCheck, signed: bool, now: int)
    requires Consistent(st, now) && HashOf(newToken) !in st.refresh
    ensures Consistent(RefreshToken(st, token, newToken, user, signed, now).1, now)
  {
    ValidateConsistent(st, token, now);
    var (found, t) := Validate(st, token, now);
    if found.Some? {
      RotateConsistent(t, found.value, newToken, now);
    }
  }

  lemma TouchConsistent(st: Store, id: SessionId, now: int)
    requires Consistent(st, now)
    ensures Consistent(Touch(st, id, now), now)
  {
    if Alive(st.sessions, id, now) {
      PutConsistent(st, id, st.sessions[id].value.(lastActiveAt := now), now);
    }
  }

  // ---- Runs ----------------------------------------------------------------------------

  datatype Event =
    | DoCreate(id: SessionId, token: Token, user: UserId, order: seq<SessionId>)
    | DoRefresh(token: Token, newToken: Token, check: UserCheck, signed: bool)
    | DoRevoke(id: SessionId)
    | DoRevokeAll(user: UserId, ids: seq<SessionId>)
    | DoTouch(id: SessionId)

  datatype Timed = Timed(event: Event, now: int)

  datatype Config = Config(maxSessions: nat, sessionTTL: int)

  function Do(c: Config, st: Store, e: Event, now: int): Store {
    match e
    case DoCreate(id, token, user, order) => Create(st, id, token, user, c.sessionTTL, c.maxSessions, order, now)
    case DoRefresh(token, newToken, check, signed) => RefreshToken(st, token, newToken, check, signed, now).1
    case DoRevoke(id) => Revoke(st, id, now)
    case DoRevokeAll(user, ids) => RevokeAll(st, user, ids, now)
    case DoTouch(id) => Touch(st, id, now)
  }

  function Run(c: Config, events: seq<Timed>): Store {
    if events == [] then EMPTY_STORE
    else Do(c, Run(c, events[..|events| - 1]), events[|events| - 1].event, events[|events| - 1].now)
  }

  /** The tokens and the session ids a run has handed out. */
  function Issued(events: seq<Timed>): set<Token> {
    if events == [] then {}
    else Issued(events[..|events| - 1]) + NewTokens(events[|events| - 1].event)
  }

  function NewTokens(e: Event): set<Token> {
    match e
    case DoCreate(_, token, _, _) => {token}
    case DoRefresh(_, newToken, _, _) => {newToken}
    case _ => {}
  }

  function Ids(events: seq<Timed>): set<SessionId> {
    if events == [] then {}
    else
      var e := events[|events| - 1].event;
      Ids(events[..|events| - 1]) + if e.DoCreate? then {e.id} else {}
  }

  /** Fresh tokens and ids, members listed as they are, and a clock that does not go back. */
  ghost predicate Lawful(c: Config, events: seq<Timed>) {
    events == [] ||
    var n := |events| - 1;
    && Lawful(c, events[..n])
    && (n > 0 ==> events[n - 1].now <= events[n].now)
    && NewTokens(events[n].event) !! Issued(events[..n])
    && match events[n].event
       case DoCreate(id, token, user, order) => id !in Ids(events[..n])
       case DoRevokeAll(user, ids) => forall id :: id in ids <==> id in Members(Run(c, events[..n]), user)
       case _ => true
  }

  /** Everything the store mentions has been handed out. */
  ghost predicate Known(st: Store, tokens: set<Token>, ids: set<SessionId>) {
    && (forall h :: h in st.refresh ==> h.token in tokens)
    && (forall id :: id in st.sessions ==> id in ids)
    && (forall u :: u in st.userSets ==> st.userSets[u] <= ids)
  }

  lemma CreateKnown(st: Store, c: Config, id: SessionId, token: Token, user: UserId, order: seq<SessionId>, now: int,
                    tokens: set<Token>, ids: set<SessionId>)
    requires Known(st, tokens, ids)
    ensures Known(Create(st, id, token, user, c.sessionTTL, c.maxSessions, order, now), tokens + {token}, ids + {id})
  {
    var p := Prune(Insert(st, id, token, user, c.sessionTTL, now), user, now);
    assert Known(p, tokens + {token}, ids + {id});
    if |order| > c.maxSessions {
      RevokeSeqRemoves(p, order[..|order| - c.maxSessions], now);
    }
  }

  lemma RefreshKnown(st: Store, token: Token, newToken: Token, check: UserCheck, signed: bool, now: int,
                     tokens: set<Token>, ids: set<SessionId>)
    requires Known(st, tokens, ids)
    ensures Known(RefreshToken(st, token, newToken, check, signed, now).1, tokens + {newToken}, ids)
  {}

  lemma DoKnown(c: Config, st: Store, e: Event, now: int, tokens: set<Token>, ids: set<SessionId>)
    requires Known(st, tokens, ids)
    ensures Known(Do(c, st, e, now), tokens + NewTokens(e), ids + if e.DoCreate? then {e.id} else {})
  {
    match e
    case DoCreate(id, token, user, order) => CreateKnown(st, c, id, token, user, order, now, tokens, ids);
    case DoRefresh(token, newToken, check, signed) => RefreshKnown(st, token, newToken, check, signed, now, tokens, ids);
    case DoRevoke(id) =>
    case DoRevokeAll(user, members) => RevokeSeqRemoves(st, members, now);
    case DoTouch(id) =>
  }

  lemma DoConsistent(c: Config, st: Store, e: Event, now: int, tokens: set<Token>, ids: set<SessionId>)
    requires Consistent(st, now) && Known(st, tokens, ids) && NewTokens(e) !! tokens
    requires e.DoCreate? ==> e.id !in ids
    requires e.DoRevokeAll? ==> forall id :: id in e.ids <==> id in Members(st, e.user)
    ensures Consistent(Do(c, st, e, now), now)
  {
    match e
    case DoCreate(id, token, user, order) =>
      assert token in NewTokens(e);
      InsertConsistent(st, id, token, user, c.sessionTTL, now);
      EnforceConsistent(Insert(st, id, token, user, c.sessionTTL, now), user, c.maxSessions, order, now);
    case DoRefresh(token, newToken, check, signed) =>
      assert newToken in NewTokens(e);
      RefreshConsistent(st, token, newToken, check, signed, now);
    case DoRevoke(id) => RevokeConsistent(st, id, now);
    case DoRevokeAll(user, members) => RevokeAllConsistent(st, user, members, now);
    case DoTouch(id) => TouchConsistent(st, id, now);
  }

  /** The three structures stay consistent over every run. */
  lemma {:induction false} RunConsistent(c: Config, events: seq<Timed>, now: int)
    requires Lawful(c, events) && (events != [] ==> events[|events| - 1].now <= now)
    ensures Consistent(Run(c, events), now)
    ensures Known(Run(c, events), Issued(events), Ids(events))
  {
    if events != [] {
      var n := |events| - 1;
      var t := events[n].now;
      RunConsistent(c, events[..n], t);
      DoConsistent(c, Run(c, events[..n]), events[n].event, t, Issued(events[..n]), Ids(events[..n]));
      DoKnown(c, Run(c, events[..n]), events[n].event, t, Issued(events[..n]), Ids(events[..n]));
      TimePasses(Run(c, events), t, now);
    }
  }

  // ---- A token is good for one refresh -----------------------------------------------------

  /** The event at `i` presents the token and gets new ones. */
  ghost predicate Refreshes(c: Config, events: seq<Timed>, i: nat, token: Token)
    requires i < |events|
  {
    && events[i].event.DoRefresh? && events[i].event.token == token
    && var e := events[i].event;
       RefreshToken(Run(c, events[..i]), token, e.newToken, e.check, e.signed, events[i].now).0.Some?
  }

  /** The token has been handed out and can never be looked up again. */
  ghost predicate Spent(st: Store, tokens: set<Token>, token: Token) {
    token in tokens && HashOf(token) !in st.refresh
  }

  lemma SuccessSpends(st: Store, token: Token, newToken: Token, check: UserCheck, signed: bool, now: int)
    requires Consistent(st, now) && newToken != token
    requires RefreshToken(st, token, newToken, check, signed, now).0.Some?
    ensures HashOf(token) in st.refresh
    ensures HashOf(token) !in RefreshToken(st, token, newToken, check, signed, now).1.refresh
  {
    assert Backed(st, HashOf(token));
  }

  lemma SpentStaysSpent(c: Config, st: Store, e: Event, now: int, tokens: set<Token>, token: Token)
    requires Spent(st, tokens, token) && NewTokens(e) !! tokens
    ensures Spent(Do(c, st, e, now), tokens + NewTokens(e), token)
  {
    match e
    case DoCreate(id, new0, user, order) =>
      assert new0 in NewTokens(e);
      var p := Prune(Insert(st, id, new0, user, c.sessionTTL, now), user, now);
      if |order| > c.maxSessions {
        RevokeSeqRemoves(p, order[..|order| - c.maxSessions], now);
      }
    case DoRefresh(t, new0, check, signed) => assert new0 in NewTokens(e);
    case DoRevoke(id) =>
    case DoRevokeAll(user, members) => RevokeSeqRemoves(st, members, now);
    case DoTouch(id) =>
  }

  lemma LastSpends(c: Config, events: seq<Timed>, token: Token)
    requires Lawful(c, events) && events != [] && Refreshes(c, events, |events| - 1, token)
    ensures Spent(Run(c, events), Issued(events), token)
  {
    var n := |events| - 1;
    var e := events[n].event;
    RunConsistent(c, events[..n], events[n].now);
    SuccessKnown(c, events);
    SuccessSpends(Run(c, events[..n]), token, e.newToken, e.check, e.signed, events[n].now);
  }

  lemma {:induction false} SpentLater(c: Config, events: seq<Timed>, i: nat, token: Token)
    requires Lawful(c, events) && i < |events|
    requires Refreshes(c, events, i, token)
    ensures Spent(Run(c, events), Issued(events), token)
  {
    var n := |events| - 1;
    if i == n {
      LastSpends(c, events, token);
    } else {
      assert events[..n][..i] == events[..i];
      SpentLater(c, events[..n], i, token);
      SpentStaysSpent(c, Run(c, events[..n]), events[n].event, events[n].now, Issued(events[..n]), token);
    }
  }

  /** A token that is accepted has been handed out before, so it is not the new one. */
  lemma SuccessKnown(c: Config, events: seq<Timed>)
    requires Lawful(c, events) && events != []
    requires var n := |events| - 1;
             events[n].event.DoRefresh? && Refreshes(c, events, n, events[n].event.token)
    ensures var e := events[|events| - 1].event;
            e.token in Issued(events[..|events| - 1]) && e.newToken != e.token
  {
    var n := |events| - 1;
    RunConsistent(c, events[..n], events[n].now);
    var e := events[n].event;
    assert HashOf(e.token) in Run(c, events[..n]).refresh;
    assert e.newToken in NewTokens(e);
  }

  /** Over a whole run, a refresh token leads to at most one successful RefreshToken. */
  lemma TokenRefreshesOnce(c: Config, events: seq<Timed>, i: nat, j: nat, token: Token)
    requires Lawful(c, events) && i < |events| && j < |events|
    requires Refreshes(c, events, i, token) && Refreshes(c, events, j, token)
    ensures i == j
  {
    if i < j {
      NotRefreshedAgain(c, events, i, j, token);
    } else if j < i {
      NotRefreshedAgain(c, events, j, i, token);
    }
  }

  lemma {:induction false} LawfulPrefix(c: Config, events: seq<Timed>, n: nat)
    requires Lawful(c, events) && n <= |events|
    ensures Lawful(c, events[..n])
  {
    if n == |events| {
      assert events[..n] == events;
    } else {
      assert events[..|events| - 1][..n] == events[..n];
      LawfulPrefix(c, events[..|events| - 1], n);
    }
  }

  lemma NotRefreshedAgain(c: Config, events: seq<Timed>, i: nat, j: nat, token: Token)
    requires Lawful(c, events) && i < j < |events| && Refreshes(c, events, i, token)
    ensures !Refreshes(c, events, j, token)
  {
    LawfulPrefix(c, events, j);
    assert events[..j][..i] == events[..i];
    SpentLater(c, events[..j], i, token);
  }
}
