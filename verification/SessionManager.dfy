/** The session manager as the object it is: its three Redis structures and the pending touches,
    each method proved against its function in Sessions (internal/service/auth/session.go). */
module SessionManagement {
  import opened Wrappers
  import opened Sessions

  class SessionManager {
    const maxSessions: nat
    const sessionTTL: int
    var sessions: map<SessionId, Entry<Session>>
    var refresh: map<Hash, Entry<SessionId>>
    var userSets: map<UserId, set<SessionId>>
    var pendingTouches: set<SessionId>

    constructor (maxSessions: int, sessionTTL: int)
      ensures this.maxSessions == (if maxSessions <= 0 then 5 else maxSessions) && this.sessionTTL == sessionTTL
      ensures View() == EMPTY_STORE && pendingTouches == {}
    {
      this.maxSessions := if maxSessions <= 0 then 5 else maxSessions;
      this.sessionTTL := sessionTTL;
      sessions, refresh, userSets, pendingTouches := map[], map[], map[], {};
    }

    function View(): Store
      reads this
    {
      Store(sessions, refresh, userSets)
    }

    method Remove(user: UserId, id: SessionId)
      modifies this`userSets
      ensures View() == SetMembers(old(View()), user, Members(old(View()), user) - {id})
    {
      userSets := userSets[user := (if user in userSets then userSets[user] else {}) - {id}];
    }

    method Revoke(id: SessionId, now: int)
      modifies this
      ensures View() == Sessions.Revoke(old(View()), id, now) && pendingTouches == old(pendingTouches)
    {
      if !Alive(sessions, id, now) {
        return;
      }
      var s := sessions[id].value;
      sessions := sessions - {id};
      refresh := refresh - {s.hash};
      Remove(s.userID, id);
    }

    method RevokeEach(ids: seq<SessionId>, now: int)
      modifies this
      ensures View() == RevokeSeq(old(View()), ids, now) && pendingTouches == old(pendingTouches)
    {
      for i := 0 to |ids|
        invariant View() == RevokeSeq(old(View()), ids[..i], now) && pendingTouches == old(pendingTouches)
      {
        assert ids[..i + 1][..i] == ids[..i];
        Revoke(ids[i], now);
      }
      assert ids[..|ids|] == ids;
    }

    /** SMEMBERS lists the set in some order. */
    method ListMembers(user: UserId) returns (ids: seq<SessionId>)
      ensures forall id :: id in ids <==> id in Members(View(), user)
      ensures |ids| == |Members(View(), user)|
    {
      ids := [];
      var todo := if user in userSets then userSets[user] else {};
      while todo != {}
        invariant todo <= Members(View(), user)
        invariant forall id :: id in ids <==> id in Members(View(), user) - todo
        invariant |ids| + |todo| == |Members(View(), user)|
      {
        var id :| id in todo;
        ids := ids + [id];
        todo := todo - {id};
      }
    }

    method RevokeAllUserSessions(user: UserId, now: int) returns (ghost ids: seq<SessionId>)
      modifies this
      ensures forall id :: id in ids <==> id in Members(old(View()), user)
      ensures View() == RevokeAll(old(View()), user, ids, now) && pendingTouches == old(pendingTouches)
    {
      var listed := ListMembers(user);
      ids := listed;
      RevokeEach(listed, now);
      userSets := userSets - {user};
    }

    /** Keeps what is alive of the listed members and removes the rest from the set. */
    method LoadLive(user: UserId, ids: seq<SessionId>, now: int) returns (live: set<SessionId>)
      requires user in userSets && forall id :: id in ids <==> id in userSets[user]
      modifies this`userSets
      ensures live == LiveMembers(old(View()), user, now)
      ensures View() == Prune(old(View()), user, now)
    {
      live := {};
      ghost var members := userSets[user];
      for i := 0 to |ids|
        invariant live == set id | id in ids[..i] && Alive(sessions, id, now)
        invariant user in userSets && userSets == old(userSets)[user := userSets[user]]
        invariant userSets[user] == set id | id in members && (id in ids[..i] ==> Alive(sessions, id, now))
      {
        var id := ids[i];
        assert ids[..i + 1] == ids[..i] + [id];
        if Alive(sessions, id, now) {
          live := live + {id};
        } else {
          Remove(user, id);
        }
      }
      assert ids[..|ids|] == ids;
      assert userSets[user] == LiveMembers(old(View()), user, now);
    }

    /** The listed sessions sorted by creation time. */
    method OldestFirst(live: set<SessionId>) returns (order: seq<SessionId>)
      requires forall id :: id in live ==> id in sessions
      ensures forall id :: id in order <==> id in live
      ensures |order| == |live|
      ensures forall i, j :: 0 <= i < j < |order| ==> order[i] != order[j]
      ensures forall i, j :: 0 <= i < j < |order| ==> CreatedAt(View(), order[i]) <= CreatedAt(View(), order[j])
    {
      order := [];
      var left := live;
      while left != {}
        invariant left <= live && |order| + |left| == |live|
        invariant forall id :: id in live <==> id in left || id in order
        invariant forall i :: 0 <= i < |order| ==> order[i] !in left
        invariant forall i, j :: 0 <= i < j < |order| ==> order[i] != order[j]
        invariant forall i, j :: 0 <= i < j < |order| ==> CreatedAt(View(), order[i]) <= CreatedAt(View(), order[j])
        invariant forall i, id :: 0 <= i < |order| && id in left ==> CreatedAt(View(), order[i]) <= CreatedAt(View(), id)
      {
        var id := Oldest(left);
        order := order + [id];
        left := left - {id};
      }
    }

    method Oldest(left: set<SessionId>) returns (oldest: SessionId)
      requires left != {} && forall id :: id in left ==> id in sessions
      ensures oldest in left && forall id :: id in left ==> CreatedAt(View(), oldest) <= CreatedAt(View(), id)
    {
      oldest :| oldest in left;
      var todo := left - {oldest};
      while todo != {}
        invariant oldest in left && todo <= left
        invariant forall id :: id in left - todo ==> CreatedAt(View(), oldest) <= CreatedAt(View(), id)
      {
        var id :| id in todo;
        if sessions[id].value.createdAt < sessions[oldest].value.createdAt {
          oldest := id;
        }
        todo := todo - {id};
      }
    }

    method EnforceMaxSessions(user: UserId, now: int) returns (ghost order: seq<SessionId>)
      modifies this
      ensures IsAgeOrder(old(View()), user, now, order)
      ensures View() == Enforce(old(View()), user, maxSessions, order, now) && pendingTouches == old(pendingTouches)
    {
      var ids := ListMembers(user);
      order := OldestFirst(LiveMembers(View(), user, now));
      if |ids| <= maxSessions {
        return;
      }
      var live := LoadLive(user, ids, now);
      var sorted := OldestFirst(live);
      order := sorted;
      if |sorted| <= maxSessions {
        return;
      }
      RevokeEach(sorted[..|sorted| - maxSessions], now);
    }

    /** `id` and `token` are freshly generated. */
    method Create(id: SessionId, token: Token, user: UserId, now: int) returns (ghost order: seq<SessionId>)
      modifies this
      ensures IsAgeOrder(Insert(old(View()), id, token, user, sessionTTL, now), user, now, order)
      ensures View() == Sessions.Create(old(View()), id, token, user, sessionTTL, maxSessions, order, now)
      ensures pendingTouches == old(pendingTouches)
    {
      var expiresAt := now + sessionTTL;
      sessions := sessions[id := Entry(Session(user, HashOf(token), now, expiresAt, now), expiresAt)];
      refresh := refresh[HashOf(token) := Entry(id, expiresAt)];
      userSets := userSets[user := (if user in userSets then userSets[user] else {}) + {id}];
      order := EnforceMaxSessions(user, now);
    }

    method ValidateRefreshToken(token: Token, now: int) returns (found: Option<SessionId>)
      modifies this
      ensures (found, View()) == Validate(old(View()), token, now) && pendingTouches == old(pendingTouches)
    {
      if !Alive(refresh, HashOf(token), now) {
        return None;
      }
      var id := refresh[HashOf(token)].value;
      if !Alive(sessions, id, now) {
        return None;
      }
      var s := sessions[id].value;
      if now > s.expiresAt {
        Revoke(id, now);
        return None;
      }
      var ttl := s.expiresAt - now;
      if ttl > 0 {
        sessions := sessions[id := Entry(s.(lastActiveAt := now), now + ttl)];
      }
      found := Some(id);
    }

    method RotateRefreshToken(id: SessionId, newToken: Token, now: int) returns (ok: bool)
      modifies this
      ensures (ok, View()) == Rotate(old(View()), id, newToken, now) && pendingTouches == old(pendingTouches)
    {
      if !Alive(sessions, id, now) {
        return false;
      }
      var s := sessions[id].value;
      var ttl := s.expiresAt - now;
      if ttl <= 0 {
        return false;
      }
      refresh := refresh - {s.hash};
      sessions := sessions[id := Entry(s.(hash := HashOf(newToken), lastActiveAt := now), now + ttl)];
      refresh := refresh[HashOf(newToken) := Entry(id, now + ttl)];
      ok := true;
    }

    method RefreshToken(token: Token, newToken: Token, user: UserCheck, signed: bool, now: int)
      returns (issued: Option<SessionId>)
      modifies this
      ensures (issued, View()) == Sessions.RefreshToken(old(View()), token, newToken, user, signed, now)
      ensures pendingTouches == old(pendingTouches)
    {
      var found := ValidateRefreshToken(token, now);
      if found == None || user != Active {
        return None;
      }
      var ok := RotateRefreshToken(found.value, newToken, now);
      issued := if ok && signed then found else None;
    }

    method TouchSession(id: SessionId, now: int) returns (ok: bool)
      modifies this
      ensures View() == Touch(old(View()), id, now) && pendingTouches == old(pendingTouches)
      ensures ok == (Alive(old(sessions), id, now) && now < old(sessions)[id].value.expiresAt)
    {
      if !Alive(sessions, id, now) {
        return false;
      }
      var s := sessions[id].value;
      var ttl := s.expiresAt - now;
      if ttl <= 0 {
        return false;
      }
      sessions := sessions[id := Entry(s.(lastActiveAt := now), now + ttl)];
      ok := true;
    }

    method DeferTouch(id: SessionId)
      modifies this`pendingTouches
      ensures pendingTouches == old(pendingTouches) + {id}
    {
      pendingTouches := pendingTouches + {id};
    }

    /** The first round of flushTouches: the pending set is emptied and the live sessions read; after a
        failed read the ids are pending again. `readable` says whether the read succeeds. */
    method FlushRead(now: int, readable: bool) returns (copies: map<SessionId, Session>)
      modifies this`pendingTouches
      ensures pendingTouches == if readable then {} else old(pendingTouches)
      ensures copies == if readable then map id | id in old(pendingTouches) && Alive(sessions, id, now) :: sessions[id].value
                        else map[]
    {
      var ids := pendingTouches;
      pendingTouches := {};
      copies := map[];
      if !readable {
        pendingTouches := pendingTouches + ids;
        return;
      }
      var todo := ids;
      while todo != {}
        invariant todo <= ids
        invariant copies == map id | id in ids - todo && Alive(sessions, id, now) :: sessions[id].value
      {
        var id :| id in todo;
        if Alive(sessions, id, now) {
          copies := copies[id := sessions[id].value];
        }
        todo := todo - {id};
      }
    }

    /** The second round: every copy whose time has not come goes back with a new LastActiveAt. */
    method FlushWriteBack(copies: map<SessionId, Session>, now: int)
      modifies this`sessions
      ensures refresh == old(refresh) && userSets == old(userSets)
      ensures sessions.Keys == old(sessions).Keys + set id | id in copies && now < copies[id].expiresAt
      ensures forall id :: id in sessions ==>
                sessions[id] == if id in copies && now < copies[id].expiresAt
                                then Entry(copies[id].(lastActiveAt := now), copies[id].expiresAt)
                                else old(sessions)[id]
    {
      var todo := copies.Keys;
      while todo != {}
        invariant todo <= copies.Keys
        invariant sessions.Keys == old(sessions).Keys + set id | id in copies.Keys - todo && now < copies[id].expiresAt
        invariant forall id :: id in sessions ==>
                    sessions[id] == if id in copies.Keys - todo && now < copies[id].expiresAt
                                    then Entry(copies[id].(lastActiveAt := now), copies[id].expiresAt)
                                    else old(sessions)[id]
      {
        var id :| id in todo;
        var s := copies[id];
        var ttl := s.expiresAt - now;
        if ttl > 0 {
          sessions := sessions[id := Entry(s.(lastActiveAt := now), now + ttl)];
        }
        todo := todo - {id};
      }
    }
  }
}
