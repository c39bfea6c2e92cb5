/** The Redis session store and the refresh of tokens over it (internal/service/auth/session.go,
    internal/service/auth/service.go). A call reads the clock once. Redis keys carry the time they
    expire at; a key is gone once the clock is past it. Hashing is injective. */
module Sessions {
  import opened Wrappers

  datatype SessionId = SessionId(n: nat)

  datatype UserId = UserId(n: nat)

  datatype Token = Token(n: nat)

  /** The digest of a token. */
  datatype Hash = HashOf(token: Token)

  datatype Session = Session(userID: UserId, hash: Hash, createdAt: int, expiresAt: int, lastActiveAt: int)

  /** A Redis string and the time it expires at. */
  datatype Entry<T> = Entry(value: T, expireAt: int)

  datatype Store = Store(sessions: map<SessionId, Entry<Session>>, refresh: map<Hash, Entry<SessionId>>,
                         userSets: map<UserId, set<SessionId>>)

  const EMPTY_STORE := Store(map[], map[], map[])

  predicate Alive<K, V>(m: map<K, Entry<V>>, k: K, now: int) {
    k in m && now <= m[k].expireAt
  }

  function Members(st: Store, user: UserId): set<SessionId> {
    if user in st.userSets then st.userSets[user] else {}
  }

  /** SADD and SREM. */
  function SetMembers(st: Store, user: UserId, ids: set<SessionId>): Store {
    st.(userSets := st.userSets[user := ids])
  }

  // ---- Revoking ------------------------------------------------------------------

  function Drop(st: Store, id: SessionId, s: Session): Store {
    SetMembers(Store(st.sessions - {id}, st.refresh - {s.hash}, st.userSets),
               s.userID, Members(st, s.userID) - {id})
  }

  function Revoke(st: Store, id: SessionId, now: int): Store {
    if Alive(st.sessions, id, now) then Drop(st, id, st.sessions[id].value) else st
  }

  function RevokeSeq(st: Store, ids: seq<SessionId>, now: int): Store {
    if ids == [] then st
    else Revoke(RevokeSeq(st, ids[..|ids| - 1], now), ids[|ids| - 1], now)
  }

  /** RevokeAllUserSessions, the members being read in the order `ids`; the set itself goes too. */
  function RevokeAll(st: Store, user: UserId, ids: seq<SessionId>, now: int): Store {
    var t := RevokeSeq(st, ids, now);
    t.(userSets := t.userSets - {user})
  }

  // ---- Creating ------------------------------------------------------------------

  function Insert(st: Store, id: SessionId, token: Token, user: UserId, ttl: int, now: int): Store {
    SetMembers(Store(st.sessions[id := Entry(Session(user, HashOf(token), now, now + ttl, now), now + ttl)],
                     st.refresh[HashOf(token) := Entry(id, now + ttl)], st.userSets),
               user, Members(st, user) + {id})
  }

  function LiveMembers(st: Store, user: UserId, now: int): set<SessionId> {
    set id | id in Members(st, user) && Alive(st.sessions, id, now)
  }

  /** The set without the members whose sessions have expired. */
  function Prune(st: Store, user: UserId, now: int): Store {
    SetMembers(st, user, LiveMembers(st, user, now))
  }

  /** The live sessions of the user's set, oldest first. */
  ghost predicate IsAgeOrder(st: Store, user: UserId, now: int, order: seq<SessionId>) {
    && (forall id :: id in order <==> id in LiveMembers(st, user, now))
    && (forall i, j :: 0 <= i < j < |order| ==> order[i] != order[j])
    && (forall i, j :: 0 <= i < j < |order| ==> CreatedAt(st, order[i]) <= CreatedAt(st, order[j]))
  }

  function CreatedAt(st: Store, id: SessionId): int {
    if id in st.sessions then st.sessions[id].value.createdAt else 0
  }

  /** enforceMaxSessions, the live sessions having been sorted into `order`. */
  function Enforce(st: Store, user: UserId, max: nat, order: seq<SessionId>, now: int): Store {
    if |Members(st, user)| <= max then st
    else if |order| <= max then Prune(st, user, now)
    else RevokeSeq(Prune(st, user, now), order[..|order| - max], now)
  }

  function Create(st: Store, id: SessionId, token: Token, user: UserId, ttl: int, max: nat,
                  order: seq<SessionId>, now: int): Store
  {
    Enforce(Insert(st, id, token, user, ttl, now), user, max, order, now)
  }

  // ---- Using a session -------------------------------------------------------------

  function Put(st: Store, id: SessionId, s: Session): Store {
    st.(sessions := st.sessions[id := Entry(s, s.expiresAt)])
  }

  /** A successful validation returns the session's id. */
  function Validate(st: Store, token: Token, now: int): (Option<SessionId>, Store) {
    if !Alive(st.refresh, HashOf(token), now) then (None, st)
    else
      var id := st.refresh[HashOf(token)].value;
      if !Alive(st.sessions, id, now) then (None, st)
      else
        var s := st.sessions[id].value;
        if now > s.expiresAt then (None, Revoke(st, id, now))
        else (Some(id), if s.expiresAt - now > 0 then Put(st, id, s.(lastActiveAt := now)) else st)
  }

  function Rotated(st: Store, id: SessionId, s: Session, newToken: Token, now: int): Store {
    var t := Put(st.(refresh := st.refresh - {s.hash}), id, s.(hash := HashOf(newToken), lastActiveAt := now));
    t.(refresh := t.refresh[HashOf(newToken) := Entry(id, s.expiresAt)])
  }

  /** RotateRefreshToken: it does not look at which token the caller presented. */
  function Rotate(st: Store, id: SessionId, newToken: Token, now: int): (bool, Store) {
    if !Alive(st.sessions, id, now) then (false, st)
    else
      var s := st.sessions[id].value;
      if s.expiresAt - now <= 0 then (false, st) else (true, Rotated(st, id, s, newToken, now))
  }

  datatype UserCheck = Active | Inactive | Missing

  /** Service.RefreshToken: the answer is the session's id when new tokens are issued. `user` is what
      the user store answers and `signed` whether the access token could be signed. */
  function RefreshToken(st: Store, token: Token, newToken: Token, user: UserCheck, signed: bool, now: int)
    : (Option<SessionId>, Store)
  {
    var (found, t) := Validate(st, token, now);
    if found == None || user != Active then (None, t)
    else
      var (ok, u) := Rotate(t, found.value, newToken, now);
      (if ok && signed then found else None, u)
  }

  function Touch(st: Store, id: SessionId, now: int): Store {
    if !Alive(st.sessions, id, now) then st
    else FlushWrite(st, id, st.sessions[id].value, now)
  }

  /** One write of the second round of flushTouches: the copy read in the first round goes back. */
  function FlushWrite(st: Store, id: SessionId, copy: Session, now: int): Store {
    if copy.expiresAt - now <= 0 then st else Put(st, id, copy.(lastActiveAt := now))
  }

  predicate IsSessionValid(st: Store, id: SessionId, now: int) {
    Alive(st.sessions, id, now) && now <= st.sessions[id].value.expiresAt
  }
}
