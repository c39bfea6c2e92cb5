/** What the calls do for their callers: who gets tokens, what they are good for, and what a refused call
    leaves alone. */
module SessionUse {
  import opened Wrappers
  import opened Sessions
  import opened SessionRuns

  /** The session is there at `now`, its refresh token is `token`, and its time is not over. */
  predicate Good(st: Store, id: SessionId, token: Token, now: int) {
    id in st.sessions && st.sessions[id].value.hash == HashOf(token) && now <= st.sessions[id].value.expiresAt
  }

  /** A token is found valid for exactly the session it is good for. */
  lemma ValidateExactly(st: Store, token: Token, now: int, id: SessionId)
    requires Consistent(st, now)
    ensures Validate(st, token, now).0 == Some(id) <==> Good(st, id, token, now)
  {
    assert Backed(st, HashOf(token)) && Paired(st, id);
    if HashOf(token) in st.refresh {
      assert Paired(st, st.refresh[HashOf(token)].value);
    }
  }

  /** Nothing changes but the activity times of some sessions. */
  ghost predicate OnlyActivity(st: Store, t: Store) {
    && t.refresh == st.refresh && t.userSets == st.userSets && t.sessions.Keys == st.sessions.Keys
    && forall id :: id in st.sessions ==>
         t.sessions[id] == Entry(st.sessions[id].value.(lastActiveAt := t.sessions[id].value.lastActiveAt), st.sessions[id].expireAt)
  }

  /** Validating moves the activity time of the session found, and changes nothing else. */
  lemma ValidateTouches(st: Store, token: Token, now: int)
    requires Consistent(st, now)
    ensures var (found, t) := Validate(st, token, now);
            && OnlyActivity(st, t)
            && forall x :: x in st.sessions ==>
                 t.sessions[x].value.lastActiveAt ==
                 if found == Some(x) && now < st.sessions[x].value.expiresAt then now else st.sessions[x].value.lastActiveAt
  {
    assert Backed(st, HashOf(token));
    if HashOf(token) in st.refresh {
      assert Paired(st, st.refresh[HashOf(token)].value);
    }
  }

  /** New tokens are issued exactly to an active user who presents a token that is good and whose session
      has time left, if the access token can be signed. */
  lemma RefreshSucceedsExactly(st: Store, token: Token, newToken: Token, user: UserCheck, signed: bool, now: int, id: SessionId)
    requires Consistent(st, now) && HashOf(newToken) !in st.refresh
    ensures RefreshToken(st, token, newToken, user, signed, now).0 == Some(id) <==>
            user == Active && signed && Good(st, id, token, now) && now < st.sessions[id].value.expiresAt
  {
    ValidateExactly(st, token, now, id);
    assert Paired(st, id);
    var found := Validate(st, token, now).0;
    if found.Some? {
      ValidateExactly(st, token, now, found.value);
      assert Paired(st, found.value);
    }
  }

  /** A user who is not active loses nothing and gains nothing: every session keeps its token. */
  lemma InactiveKeepsTokens(st: Store, token: Token, newToken: Token, user: UserCheck, signed: bool, now: int)
    requires Consistent(st, now) && user != Active
    ensures var (issued, t) := RefreshToken(st, token, newToken, user, signed, now);
            issued == None && OnlyActivity(st, t)
  {
    var found := Validate(st, token, now).0;
    assert Backed(st, HashOf(token));
    if HashOf(token) in st.refresh {
      assert Paired(st, st.refresh[HashOf(token)].value);
    }
  }

  /** The session's token has become `newToken`, and every other session is as it was. */
  ghost predicate HandedOver(st: Store, t: Store, id: SessionId, newToken: Token, now: int) {
    && id in st.sessions && t.sessions.Keys == st.sessions.Keys && t.userSets == st.userSets
    && t.sessions[id] == Entry(st.sessions[id].value.(hash := HashOf(newToken), lastActiveAt := now), st.sessions[id].expireAt)
    && (forall x :: x in st.sessions && x != id ==> t.sessions[x] == st.sessions[x])
  }

  /** For an active user with a good token the session goes over to the new token, and the old one is spent,
      whether or not the access token can then be signed: when it cannot, nobody has a token for the
      session. */
  lemma RefreshHandsOver(st: Store, token: Token, newToken: Token, signed: bool, now: int, id: SessionId)
    requires Consistent(st, now) && HashOf(newToken) !in st.refresh && newToken != token
    requires Good(st, id, token, now) && now < st.sessions[id].value.expiresAt
    ensures var (issued, t) := RefreshToken(st, token, newToken, Active, signed, now);
            && (issued == if signed then Some(id) else None)
            && HandedOver(st, t, id, newToken, now) && Consistent(t, now)
            && Validate(t, token, now).0 == None && Validate(t, newToken, now).0 == Some(id)
  {
    assert Paired(st, id) && Backed(st, HashOf(token));
    ValidateExactly(st, token, now, id);
    RefreshConsistent(st, token, newToken, Active, signed, now);
    var t := RefreshToken(st, token, newToken, Active, signed, now).1;
    ValidateExactly(t, newToken, now, id);
    OldTokenSpent(st, token, t, id, now);
  }

  lemma OldTokenSpent(st: Store, token: Token, t: Store, id: SessionId, now: int)
    requires Consistent(st, now) && Consistent(t, now) && Good(st, id, token, now)
    requires t.sessions.Keys == st.sessions.Keys && t.sessions[id].value.hash != HashOf(token)
    requires forall x :: x in st.sessions && x != id ==> t.sessions[x] == st.sessions[x]
    ensures Validate(t, token, now).0 == None
  {
    var found := Validate(t, token, now).0;
    assert Paired(st, id) && (found.Some? ==> Paired(st, found.value));
    if found.Some? {
      ValidateExactly(t, token, now, found.value);
    }
  }

  /** The session just created is there with its token and its lifetime, if the user's other sessions are
      older. */
  lemma CreateGivesSession(st: Store, id: SessionId, token: Token, user: UserId, ttl: int, max: nat,
                           order: seq<SessionId>, now: int)
    requires Consistent(st, now) && id !in st.sessions && HashOf(token) !in st.refresh && max >= 1 && ttl > 0
    requires forall u :: u in st.userSets ==> id !in st.userSets[u]
    requires forall x :: x in LiveMembers(st, user, now) ==> CreatedAt(st, x) < now
    requires IsAgeOrder(Insert(st, id, token, user, ttl, now), user, now, order)
    ensures var t := Create(st, id, token, user, ttl, max, order, now);
            && id in t.sessions && t.sessions[id].value == Session(user, HashOf(token), now, now + ttl, now)
            && Consistent(t, now) && Validate(t, token, now).0 == Some(id)
  {
    var with := Insert(st, id, token, user, ttl, now);
    InsertConsistent(st, id, token, user, ttl, now);
    EnforceConsistent(with, user, max, order, now);
    forall x | x in order && x != id ensures CreatedAt(with, x) < now {
      assert x in LiveMembers(with, user, now) && x in LiveMembers(st, user, now);
    }
    YoungestStays(with, id, user, max, order, now);
    ValidateExactly(Create(st, id, token, user, ttl, max, order, now), token, now, id);
  }

  lemma YoungestStays(with: Store, id: SessionId, user: UserId, max: nat, order: seq<SessionId>, now: int)
    requires IsAgeOrder(with, user, now, order) && max >= 1
    requires id in with.sessions && forall x :: x in order && x != id ==> CreatedAt(with, x) < CreatedAt(with, id)
    ensures var t := Enforce(with, user, max, order, now);
            id in t.sessions && t.sessions[id] == with.sessions[id]
  {
    if |Members(with, user)| > max && |order| > max {
      var gone := order[..|order| - max];
      forall x | x in gone ensures x != id && Alive(Prune(with, user, now).sessions, x, now) {
        var i :| 0 <= i < |gone| && gone[i] == x;
        assert order[i] in order && order[i] in LiveMembers(with, user, now);
        assert order[|order| - 1] in order;
        assert CreatedAt(with, order[i]) <= CreatedAt(with, order[|order| - 1]);
      }
      RevokeSeqRemoves(Prune(with, user, now), gone, now);
    }
  }

  /** A touch of a session with time left moves its activity time, and changes nothing else. */
  lemma TouchExactly(st: Store, id: SessionId, now: int)
    requires Consistent(st, now)
    ensures OnlyActivity(st, Touch(st, id, now))
    ensures forall x :: x in st.sessions ==>
              Touch(st, id, now).sessions[x].value.lastActiveAt ==
              if x == id && now < st.sessions[x].value.expiresAt then now else st.sessions[x].value.lastActiveAt
  {
    assert Paired(st, id);
  }

  /** Enforcing the cap on a set that exceeds it leaves only live sessions in the set. */
  lemma EnforcingDropsExpired(st: Store, user: UserId, max: nat, order: seq<SessionId>, now: int)
    requires |Members(st, user)| > max
    ensures Members(Enforce(st, user, max, order, now), user) <= LiveMembers(st, user, now)
  {
    if |order| > max {
      RevokeSeqRemoves(Prune(st, user, now), order[..|order| - max], now);
    }
  }

  /** Revoking all of a user's sessions leaves the user no set, whatever was in it. */
  lemma RevokeAllDropsSet(st: Store, user: UserId, ids: seq<SessionId>, now: int)
    ensures user !in RevokeAll(st, user, ids, now).userSets
  {}

  /** A session that outlived its ExpiresAt is taken out with its token by whoever presents it. */
  lemma ExpiredIsRemoved(st: Store, token: Token, now: int, id: SessionId)
    requires HashOf(token) in st.refresh && st.refresh[HashOf(token)] == Entry(id, st.refresh[HashOf(token)].expireAt)
    requires id in st.sessions && st.sessions[id].value.hash == HashOf(token)
    requires now <= st.refresh[HashOf(token)].expireAt && now <= st.sessions[id].expireAt
    requires st.sessions[id].value.expiresAt < now
    ensures var (found, t) := Validate(st, token, now);
            && found == None && id !in t.sessions && HashOf(token) !in t.refresh
            && id !in Members(t, st.sessions[id].value.userID)
  {}

  /** Rotation hands the session over, at its own time, whichever token led to it. */
  lemma RotateHandsOver(st: Store, id: SessionId, newToken: Token, now: int)
    requires Consistent(st, now)
    ensures var (ok, t) := Rotate(st, id, newToken, now);
            && (ok <==> id in st.sessions && now < st.sessions[id].value.expiresAt)
            && (ok ==> HandedOver(st, t, id, newToken, now)) && (!ok ==> t == st)
  {
    assert Paired(st, id);
  }
}
