/** The session cap, and what happens in the windows between a read and its write. */
module SessionCap {
  import opened Wrappers
  import opened Sessions
  import opened SessionRuns

  function LiveSessions(st: Store, user: UserId, now: int): set<SessionId> {
    set id | id in st.sessions && Alive(st.sessions, id, now) && st.sessions[id].value.userID == user
  }

  lemma LiveAreListed(st: Store, user: UserId, now: int)
    requires Consistent(st, now)
    ensures LiveSessions(st, user, now) == LiveMembers(st, user, now)
  {
    forall id | Alive(st.sessions, id, now)
      ensures id in Members(st, user) <==> st.sessions[id].value.userID == user
    {
      assert Listed(st, id, user, now);
    }
  }

  // ---- What enforcing the cap does ---------------------------------------------------

  /** Which of the user's live sessions are left: all of them, or the `max` youngest. */
  lemma EnforceKeeps(st: Store, user: UserId, max: nat, order: seq<SessionId>, now: int)
    requires IsAgeOrder(st, user, now, order)
    ensures var t := Enforce(st, user, max, order, now);
            var excess := if |Members(st, user)| <= max || |order| <= max then 0 else |order| - max;
            && (forall id :: id in t.sessions <==> id in st.sessions && id !in order[..excess])
            && (forall id :: id in t.sessions ==> t.sessions[id] == st.sessions[id])
  {
    if |Members(st, user)| > max && |order| > max {
      var gone := order[..|order| - max];
      var p := Prune(st, user, now);
      RevokeSeqRemoves(p, gone, now);
      forall id | id in gone ensures Alive(p.sessions, id, now) {
        assert id in order;
      }
    }
  }

  lemma LiveSize(st: Store, user: UserId, order: seq<SessionId>, now: int)
    requires Consistent(st, now) && IsAgeOrder(st, user, now, order)
    ensures LiveSessions(st, user, now) == Elements(order)
    ensures |LiveSessions(st, user, now)| == |order| <= |Members(st, user)|
  {
    LiveAreListed(st, user, now);
    assert LiveMembers(st, user, now) == Elements(order);
    DistinctSize(order);
    SubsetSize(LiveMembers(st, user, now), Members(st, user));
  }

  /** After enforcing, exactly the smaller of the cap and the former number of live sessions is
      left, and every survivor was created no earlier than every session revoked. */
  lemma EnforceCaps(st: Store, user: UserId, max: nat, order: seq<SessionId>, now: int)
    requires Consistent(st, now) && IsAgeOrder(st, user, now, order)
    ensures var t := Enforce(st, user, max, order, now);
            var before := LiveSessions(st, user, now);
            var after := LiveSessions(t, user, now);
            && |after| == (if |before| <= max then |before| else max)
            && after <= before
            && forall r, k :: r in before - after && k in after ==> CreatedAt(st, r) <= CreatedAt(st, k)
  {
    var t := Enforce(st, user, max, order, now);
    EnforceKeeps(st, user, max, order, now);
    LiveSize(st, user, order, now);
    if |order| <= max {
      assert LiveSessions(t, user, now) == LiveSessions(st, user, now);
    } else {
      var excess := |order| - max;
      Survivors(st, t, user, order, excess, now);
    }
  }

  lemma SurvivorsAre(st: Store, t: Store, user: UserId, order: seq<SessionId>, excess: nat, now: int)
    requires excess <= |order| && IsAgeOrder(st, user, now, order)
    requires LiveSessions(st, user, now) == Elements(order)
    requires forall id :: id in t.sessions <==> id in st.sessions && id !in order[..excess]
    requires forall id :: id in t.sessions ==> t.sessions[id] == st.sessions[id]
    ensures LiveSessions(t, user, now) == Elements(order[excess..])
  {
    assert order == order[..excess] + order[excess..];
    forall id | id in order[excess..] ensures id in LiveSessions(t, user, now) {
      var i :| excess <= i < |order| && order[i] == id;
      assert id in Elements(order);
    }
    forall id | id in LiveSessions(t, user, now) ensures id in order[excess..] {
      assert id in LiveSessions(st, user, now);
    }
  }

  /** The front of an age order is no younger than the rest. */
  lemma FrontIsOlder(st: Store, order: seq<SessionId>, excess: nat)
    requires excess <= |order|
    requires forall i, j :: 0 <= i < j < |order| ==> CreatedAt(st, order[i]) <= CreatedAt(st, order[j])
    ensures forall r, k :: r in Elements(order) && r !in Elements(order[excess..]) && k in Elements(order[excess..]) ==>
              CreatedAt(st, r) <= CreatedAt(st, k)
  {}

  lemma Survivors(st: Store, t: Store, user: UserId, order: seq<SessionId>, excess: nat, now: int)
    requires excess <= |order| && IsAgeOrder(st, user, now, order)
    requires LiveSessions(st, user, now) == Elements(order)
    requires forall id :: id in t.sessions <==> id in st.sessions && id !in order[..excess]
    requires forall id :: id in t.sessions ==> t.sessions[id] == st.sessions[id]
    ensures var after := LiveSessions(t, user, now);
            && |after| == |order| - excess && after <= Elements(order)
            && forall r, k :: r in Elements(order) - after && k in after ==> CreatedAt(st, r) <= CreatedAt(st, k)
  {
    SurvivorsAre(st, t, user, order, excess, now);
    FrontIsOlder(st, order, excess);
    DistinctSize(order[excess..]);
    assert forall id :: id in order[excess..] ==> id in order;
  }

  lemma {:induction false} RevokingOwnSparesOthers(st: Store, ids: seq<SessionId>, user: UserId, now: int)
    requires forall id :: id in ids && id in st.sessions ==> st.sessions[id].value.userID == user
    ensures forall u :: u != user ==> Members(RevokeSeq(st, ids, now), u) == Members(st, u)
  {
    if ids != [] {
      var n := |ids| - 1;
      assert ids[n] in ids && forall id :: id in ids[..n] ==> id in ids;
      RevokingOwnSparesOthers(st, ids[..n], user, now);
      RevokeSeqRemoves(st, ids[..n], now);
    }
  }

  /** After every Create the user has at most maxSessions live sessions: as many as there were with
      the new one, or the cap; and every survivor was created no earlier than every session revoked for
      excess. */
  lemma CreateKeepsCap(c: Config, st: Store, id: SessionId, token: Token, user: UserId,
                       order: seq<SessionId>, now: int)
    requires Consistent(st, now) && id !in st.sessions && HashOf(token) !in st.refresh
    requires forall u :: u in st.userSets ==> id !in st.userSets[u]
    requires IsAgeOrder(Insert(st, id, token, user, c.sessionTTL, now), user, now, order)
    ensures var t := Create(st, id, token, user, c.sessionTTL, c.maxSessions, order, now);
            var with := Insert(st, id, token, user, c.sessionTTL, now);
            var before := LiveSessions(with, user, now);
            var after := LiveSessions(t, user, now);
            && |after| <= c.maxSessions
            && |after| == (if |before| <= c.maxSessions then |before| else c.maxSessions)
            && (forall r, k :: r in before - after && k in after ==> CreatedAt(with, r) <= CreatedAt(with, k))
  {
    InsertConsistent(st, id, token, user, c.sessionTTL, now);
    EnforceCaps(Insert(st, id, token, user, c.sessionTTL, now), user, c.maxSessions, order, now);
  }

  /** No other user's session or set changes. */
  lemma CreateSparesOthers(c: Config, st: Store, id: SessionId, token: Token, user: UserId,
                           order: seq<SessionId>, now: int)
    requires Consistent(st, now) && id !in st.sessions && HashOf(token) !in st.refresh
    requires forall u :: u in st.userSets ==> id !in st.userSets[u]
    requires IsAgeOrder(Insert(st, id, token, user, c.sessionTTL, now), user, now, order)
    ensures var t := Create(st, id, token, user, c.sessionTTL, c.maxSessions, order, now);
            && (forall x :: x in st.sessions && st.sessions[x].value.userID != user ==>
                  x in t.sessions && t.sessions[x] == st.sessions[x])
            && (forall u :: u != user ==> Members(t, u) == Members(st, u))
  {
    var with := Insert(st, id, token, user, c.sessionTTL, now);
    InsertConsistent(st, id, token, user, c.sessionTTL, now);
    LiveSize(with, user, order, now);
    forall x | x in order ensures x in with.sessions && with.sessions[x].value.userID == user {
      assert x in Elements(order);
    }
    EnforceSparesOthers(with, user, c.maxSessions, order, now);
  }

  lemma EnforceSparesOthers(st: Store, user: UserId, max: nat, order: seq<SessionId>, now: int)
    requires IsAgeOrder(st, user, now, order)
    requires forall x :: x in order ==> x in st.sessions && st.sessions[x].value.userID == user
    ensures var t := Enforce(st, user, max, order, now);
            && (forall x :: x in st.sessions && st.sessions[x].value.userID != user ==>
                  x in t.sessions && t.sessions[x] == st.sessions[x])
            && (forall u :: u != user ==> Members(t, u) == Members(st, u))
  {
    EnforceKeeps(st, user, max, order, now);
    if |order| > max {
      RevokingOwnSparesOthers(Prune(st, user, now), order[..|order| - max], user, now);
    }
  }

  // ---- The cap over every run ------------------------------------------------------------

  /** Nobody gains a live session. */
  ghost predicate NobodyGains(st: Store, t: Store, now: int) {
    forall id :: Alive(t.sessions, id, now) ==>
      Alive(st.sessions, id, now) && t.sessions[id].value.userID == st.sessions[id].value.userID
  }

  ghost predicate Capped(st: Store, max: nat, now: int) {
    forall u :: |LiveSessions(st, u, now)| <= max
  }

  lemma NobodyGainsKeepsCapped(st: Store, t: Store, max: nat, now: int)
    requires Capped(st, max, now) && NobodyGains(st, t, now)
    ensures Capped(t, max, now)
  {
    forall u ensures |LiveSessions(t, u, now)| <= max {
      SubsetSize(LiveSessions(t, u, now), LiveSessions(st, u, now));
    }
  }

  lemma TimeKeepsCapped(st: Store, max: nat, now: int, later: int)
    requires Capped(st, max, now) && now <= later
    ensures Capped(st, max, later)
  {
    forall u ensures |LiveSessions(st, u, later)| <= max {
      SubsetSize(LiveSessions(st, u, later), LiveSessions(st, u, now));
    }
  }

  lemma RefreshGainsNothing(st: Store, token: Token, newToken: Token, check: UserCheck, signed: bool, now: int)
    requires Consistent(st, now)
    ensures NobodyGains(st, RefreshToken(st, token, newToken, check, signed, now).1, now)
  {}

  lemma EventGainsNothing(c: Config, st: Store, e: Event, now: int)
    requires Consistent(st, now) && !e.DoCreate?
    ensures NobodyGains(st, Do(c, st, e, now), now)
  {
    match e
    case DoRefresh(token, newToken, check, signed) => RefreshGainsNothing(st, token, newToken, check, signed, now);
    case DoRevoke(id) =>
    case DoRevokeAll(user, ids) => RevokeSeqRemoves(st, ids, now);
    case DoTouch(id) => assert Paired(st, id);
  }

  /** A creation sorts the sessions it finds. */
  ghost predicate SortsAges(c: Config, st: Store, e: Event, now: int) {
    e.DoCreate? ==> IsAgeOrder(Insert(st, e.id, e.token, e.user, c.sessionTTL, now), e.user, now, e.order)
  }

  lemma CreateKeepsCapped(c: Config, st: Store, e: Event, now: int, tokens: set<Token>, ids: set<SessionId>)
    requires Consistent(st, now) && Known(st, tokens, ids) && Capped(st, c.maxSessions, now)
    requires e.DoCreate? && e.id !in ids && e.token !in tokens && SortsAges(c, st, e, now)
    ensures Capped(Do(c, st, e, now), c.maxSessions, now)
  {
    var t := Do(c, st, e, now);
    var with := Insert(st, e.id, e.token, e.user, c.sessionTTL, now);
    CreateKeepsCap(c, st, e.id, e.token, e.user, e.order, now);
    EnforceKeeps(with, e.user, c.maxSessions, e.order, now);
    forall u | u != e.user ensures |LiveSessions(t, u, now)| <= c.maxSessions {
      SubsetSize(LiveSessions(t, u, now), LiveSessions(st, u, now));
    }
  }

  /** At every moment of every run, no user has more than maxSessions live sessions. */
  lemma {:induction false} RunKeepsCap(c: Config, events: seq<Timed>, now: int)
    requires Lawful(c, events) && (events != [] ==> events[|events| - 1].now <= now)
    requires forall i :: 0 <= i < |events| ==> SortsAges(c, Run(c, events[..i]), events[i].event, events[i].now)
    ensures Capped(Run(c, events), c.maxSessions, now)
  {
    if events == [] {
      forall u ensures LiveSessions(EMPTY_STORE, u, now) == {} {}
    } else {
      var n := |events| - 1;
      var t := events[n].now;
      var st := Run(c, events[..n]);
      forall i | 0 <= i < n ensures SortsAges(c, Run(c, events[..n][..i]), events[..n][i].event, events[..n][i].now) {
        assert events[..n][..i] == events[..i];
      }
      RunKeepsCap(c, events[..n], t);
      RunConsistent(c, events[..n], t);
      if events[n].event.DoCreate? {
        assert events[n].event.token in NewTokens(events[n].event);
        CreateKeepsCapped(c, st, events[n].event, t, Issued(events[..n]), Ids(events[..n]));
      } else {
        EventGainsNothing(c, st, events[n].event, t);
        NobodyGainsKeepsCapped(st, Run(c, events), c.maxSessions, t);
      }
      TimeKeepsCapped(Run(c, events), c.maxSessions, t, now);
    }
  }

  // ---- Windows between a read and its write --------------------------------------------

  /** The write-back of flushTouches keeps the store consistent exactly when the session it read is
      still there with the token it then had. A session revoked in between comes back without its
      refresh entry, one rotated in between gets its old token's hash back. */
  lemma FlushWriteConsistentExactly(st: Store, id: SessionId, copy: Session, now: int)
    requires Consistent(st, now) && now < copy.expiresAt
    requires id in st.sessions ==>
               st.sessions[id].value.userID == copy.userID && st.sessions[id].value.expiresAt == copy.expiresAt
    ensures Consistent(FlushWrite(st, id, copy, now), now) <==>
            id in st.sessions && st.sessions[id].value.hash == copy.hash
  {
    var t := FlushWrite(st, id, copy, now);
    if id in st.sessions && st.sessions[id].value.hash == copy.hash {
      PutConsistent(st, id, copy.(lastActiveAt := now), now);
    } else {
      assert Backed(st, copy.hash);
      assert !Paired(t, id) || !Backed(t, copy.hash);
    }
  }

  /** A session revoked between the two rounds of a flush is valid again after it, though its token
      can no longer be refreshed. */
  lemma FlushRestoresRevoked(st: Store, id: SessionId, now: int)
    requires Consistent(st, now) && Alive(st.sessions, id, now) && now < st.sessions[id].value.expiresAt
    ensures var copy := st.sessions[id].value;
            var t := FlushWrite(Revoke(st, id, now), id, copy, now);
            && !IsSessionValid(Revoke(st, id, now), id, now) && IsSessionValid(t, id, now)
            && !Consistent(t, now) && Validate(t, copy.hash.token, now).0 == None
  {
    var copy := st.sessions[id].value;
    assert Paired(st, id);
    RevokeConsistent(st, id, now);
    FlushWriteConsistentExactly(Revoke(st, id, now), id, copy, now);
  }

  /** What two refreshes do that both validate a token, at `t1` and `t2`, before either rotates, at
      `t3` and `t4`: whether each gets that far, and the store in the end. A refresh whose validation
      finds nothing does not rotate. */
  function Interleaved(st: Store, token: Token, new1: Token, new2: Token, t1: int, t2: int, t3: int, t4: int)
    : (bool, bool, Store)
  {
    var (found1, s1) := Validate(st, token, t1);
    var (found2, s2) := Validate(s1, token, t2);
    var (ok1, s3) := if found1.Some? then Rotate(s2, found1.value, new1, t3) else (false, s2);
    var (ok2, s4) := if found2.Some? then Rotate(s3, found2.value, new2, t4) else (false, s3);
    (ok1, ok2, s4)
  }

  /** Both get new tokens, exactly when the token was good and its session still has time left when
      the last of them rotates: rotation does not look at the token that was presented. Only the
      second one's token is then good. */
  lemma InterleavedRefreshesBothSucceedExactly(st: Store, token: Token, new1: Token, new2: Token,
                                               t1: int, t2: int, t3: int, t4: int)
    requires Consistent(st, t1) && t1 <= t2 <= t3 <= t4
    requires new1 != new2 && new1 != token && new2 != token
    requires HashOf(new1) !in st.refresh && HashOf(new2) !in st.refresh
    ensures var found := Validate(st, token, t1).0;
            var (ok1, ok2, end) := Interleaved(st, token, new1, new2, t1, t2, t3, t4);
            && (ok1 && ok2 <==> found.Some? && t4 < st.sessions[found.value].value.expiresAt)
            && Consistent(end, t4)
            && (ok1 && ok2 ==> Validate(end, new1, t4).0 == None && Validate(end, new2, t4).0 == found)
  {
    var (found1, s1) := Validate(st, token, t1);
    assert Backed(st, HashOf(token)) && (found1.Some? ==> Paired(st, found1.value));
    StillFound(st, token, t1, t2);
    ValidateConsistent(st, token, t1);
    TimePasses(s1, t1, t2);
    ValidateConsistent(s1, token, t2);
    var (found2, s2) := Validate(s1, token, t2);
    TimePasses(s2, t2, t3);
    if found1.Some? {
      RotateConsistent(s2, found1.value, new1, t3);
    }
    var s3 := if found1.Some? then Rotate(s2, found1.value, new1, t3).1 else s2;
    TimePasses(s3, t3, t4);
    if found2.Some? {
      RotateConsistent(s3, found2.value, new2, t4);
    }
  }

  /** A validated token is found again until its session's time is over, and validating it does not
      move that time. */
  lemma StillFound(st: Store, token: Token, t1: int, t2: int)
    requires Consistent(st, t1) && t1 <= t2
    ensures var (found, s1) := Validate(st, token, t1);
            && (found == None ==> Validate(s1, token, t2).0 == None)
            && (found.Some? ==>
                  found.value in st.sessions && found.value in s1.sessions
                  && s1.sessions[found.value].value.expiresAt == st.sessions[found.value].value.expiresAt
                  && Validate(s1, token, t2).0 ==
                     if t2 <= st.sessions[found.value].value.expiresAt then found else None)
  {
    var h := HashOf(token);
    assert Backed(st, h);
    if h in st.refresh {
      assert Paired(st, st.refresh[h].value);
    }
  }
}
