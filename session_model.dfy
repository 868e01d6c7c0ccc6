/** The session store: creating a session with a random token, finding a usable session by token,
    and invalidating one session or all sessions of a user. */
module SessionModel {
  import opened Base
  import opened Text
  import opened ObjectIds
  import opened Seqs

  /** A stored session. `updatedAt` is maintained by the timestamps option on every write. */
  datatype Session = Session(
    userId: ObjectId,
    token: string,
    userAgent: string,
    ipAddress: string,
    expiresAt: Millis,
    isValid: bool,
    createdAt: Millis,
    updatedAt: Millis)

  /** Seven days in milliseconds, the default lifetime of a session. */
  const DefaultExpiresIn: int := 7 * 24 * 60 * 60 * 1000

  /** The default number of random bytes in a token. */
  const TokenSize: nat := 64

  /** `generateRandomToken`: the hex text of the random bytes (`crypto.randomBytes(size)`, given here). */
  function GenerateRandomToken(random: seq<byte>): (token: string)
    ensures |token| == 2 * |random|
    ensures forall k :: 0 <= k < |token| ==> IsHexChar(token[k]) && !('A' <= token[k] <= 'F')
  {
    HexEncode(random)
  }

  /** A token of the default size has 128 lower-case hex characters, and different random bytes
      give different tokens. */
  lemma DefaultTokenShape(random: seq<byte>, other: seq<byte>)
    requires |random| == TokenSize
    ensures |GenerateRandomToken(random)| == 128
    ensures other != random ==> GenerateRandomToken(other) != GenerateRandomToken(random)
  {
    if GenerateRandomToken(other) == GenerateRandomToken(random) {
      HexEncodeInjective(other, random);
    }
  }

  /** The unique index on `token`. */
  predicate TokensUnique(ss: seq<Session>) {
    forall i, j :: 0 <= i < j < |ss| ==> ss[i].token != ss[j].token
  }

  /** The document `findByToken` looks for: this token, still valid, expiring strictly after `now`. */
  predicate Usable(s: Session, token: string, now: Millis) {
    s.token == token && s.isValid && s.expiresAt > now
  }

  /** `findByToken`: an empty token finds nothing; otherwise the session with that token if it is
      valid and unexpired. */
  function FindByToken(ss: seq<Session>, token: string, now: Millis): (r: Option<Session>)
    ensures token == "" ==> r.None?
    ensures r.Some? ==> r.value in ss && Usable(r.value, token, now)
    ensures token != "" && (exists i :: 0 <= i < |ss| && Usable(ss[i], token, now)) ==> r.Some?
  {
    if token == "" then None
    else match FirstWhere(ss, (s: Session) => Usable(s, token, now))
      case None => None
      case Some(i) => Some(ss[i])
  }

  /** Once its expiry instant is reached, a session no longer validates, without any invalidation. */
  lemma ExpiredSessionNotFound(ss: seq<Session>, i: nat, now: Millis)
    requires TokensUnique(ss) && i < |ss| && ss[i].expiresAt <= now
    ensures FindByToken(ss, ss[i].token, now).None?
  {
  }

  /** A session after `{ isValid: false }` has been written to it at `now`. */
  function Invalidated(s: Session, now: Millis): Session {
    s.(isValid := false, updatedAt := now)
  }

  /** Whether writing `{ isValid: false }` at `now` changes the document. The timestamps option adds
      `updatedAt: now` to the write, so an already invalid session still counts as modified unless
      it was last written in the same millisecond. */
  predicate ModifiedBy(s: Session, now: Millis) {
    s.isValid || s.updatedAt != now
  }

  /** `updateOne({ token }, { isValid: false })`: the state afterwards and whether `modifiedCount > 0`.
      The session carrying the token is invalidated; every other session is left as it was. */
  function InvalidateToken(ss: seq<Session>, token: string, now: Millis): (r: (seq<Session>, bool))
    requires TokensUnique(ss)
    ensures |r.0| == |ss| && TokensUnique(r.0)
    ensures forall i :: 0 <= i < |ss| ==> r.0[i] == if ss[i].token == token then Invalidated(ss[i], now) else ss[i]
    ensures r.1 <==> exists i :: 0 <= i < |ss| && ss[i].token == token && ModifiedBy(ss[i], now)
  {
    match FirstWhere(ss, (s: Session) => s.token == token)
    case None => (ss, false)
    case Some(i) =>
      var after := ss[i := Invalidated(ss[i], now)];
      assert forall j :: 0 <= j < |ss| && j != i ==> ss[j].token != token;
      (after, ModifiedBy(ss[i], now))
  }

  /** `updateMany({ userId }, { isValid: false })`: every session of the user is invalidated, other
      users' sessions are untouched, and the result says whether any document changed. */
  function InvalidateUser(ss: seq<Session>, userId: ObjectId, now: Millis): (r: (seq<Session>, bool))
    ensures |r.0| == |ss|
    ensures forall i :: 0 <= i < |ss| ==> r.0[i] == if ss[i].userId == userId then Invalidated(ss[i], now) else ss[i]
    ensures r.1 <==> exists i :: 0 <= i < |ss| && ss[i].userId == userId && ModifiedBy(ss[i], now)
  {
    if ss == [] then ([], false)
    else
      var rest := InvalidateUser(ss[1..], userId, now);
      var head := if ss[0].userId == userId then Invalidated(ss[0], now) else ss[0];
      var changed := ss[0].userId == userId && ModifiedBy(ss[0], now);
      assert forall i :: 1 <= i < |ss| ==> ss[i] == ss[1..][i - 1];
      ([head] + rest.0, changed || rest.1)
  }

  /** Invalidating twice at the same instant: the second call changes nothing and reports false.
      At a later instant the second call reports true again, because `updatedAt` moves. */
  lemma {:induction false} InvalidateTwice(ss: seq<Session>, token: string, now: Millis, later: Millis)
    requires TokensUnique(ss) && token in (set s | s in ss :: s.token)
    requires later != now
    ensures var once := InvalidateToken(ss, token, now).0;
            InvalidateToken(once, token, now) == (once, false)
            && InvalidateToken(once, token, later).1
  {
    var once := InvalidateToken(ss, token, now).0;
    var twice := InvalidateToken(once, token, now).0;
    assert |twice| == |once|;
    forall i | 0 <= i < |once| ensures twice[i] == once[i] {
      if once[i].token == token { assert ss[i].token == token; }
    }
    var s :| s in ss && s.token == token;
    var k :| 0 <= k < |ss| && ss[k] == s;
    assert once[k].token == token && once[k].updatedAt == now;
    assert !ModifiedBy(once[k], now);
    assert ModifiedBy(once[k], later);
    forall i | 0 <= i < |once| && once[i].token == token ensures !ModifiedBy(once[i], now) {
      assert ss[i].token == token;
      assert i == k;
    }
    assert twice == once;
  }

  /** After the token is invalidated, `findByToken` no longer finds it, while sessions with other
      tokens are found exactly as before. */
  lemma InvalidatedTokenNotFound(ss: seq<Session>, token: string, other: string, now: Millis, at: Millis)
    requires TokensUnique(ss) && other != token
    ensures FindByToken(InvalidateToken(ss, token, now).0, token, at).None?
    ensures FindByToken(InvalidateToken(ss, token, now).0, other, at) == FindByToken(ss, other, at)
  {
    var after := InvalidateToken(ss, token, now).0;
    if other != "" {
      var p := (s: Session) => Usable(s, other, at);
      assert forall i :: 0 <= i < |ss| ==> p(after[i]) == p(ss[i]);
      FirstWhereAgrees(ss, after, p);
      match FirstWhere(ss, p)
      case None =>
      case Some(i) =>
        assert after[i] == ss[i];
    }
  }

  lemma {:induction false} FirstWhereAgrees(a: seq<Session>, b: seq<Session>, p: Session -> bool)
    requires |a| == |b| && forall i :: 0 <= i < |a| ==> p(a[i]) == p(b[i])
    ensures FirstWhere(a, p) == FirstWhere(b, p)
  {
    if a != [] {
      FirstWhereAgrees(a[1..], b[1..], p);
    }
  }

  datatype SaveError = ValidationFailed | DuplicateKey

  /** Mongoose's `required` on the string paths: token, user agent and address may not be empty. */
  predicate RequiredPathsPresent(token: string, userAgent: string, ipAddress: string) {
    token != "" && userAgent != "" && ipAddress != ""
  }

  /** The `sessions` collection. */
  class SessionCollection {
    var sessions: seq<Session>

    ghost predicate Valid()
      reads this
    {
      TokensUnique(sessions)
    }

    constructor()
      ensures Valid() && sessions == []
    {
      sessions := [];
    }

    /** `createSession`: a valid session whose token is the hex text of the 64 bytes `random`, expiring `expiresIn`
        (seven days if omitted) after `now`. A clash on the unique token index or an empty required
        path refuses the insert and leaves the store unchanged. */
    method CreateSession(userId: ObjectId, userAgent: string, ipAddress: string, expiresIn: Option<int>,
                         now: Millis, random: seq<byte>) returns (r: Result<Session, SaveError>)
      requires Valid() && |random| == TokenSize
      modifies this
      ensures Valid()
      ensures var token := GenerateRandomToken(random);
              r.Ok? <==> userAgent != "" && ipAddress != ""
                         && forall i :: 0 <= i < |old(sessions)| ==> old(sessions)[i].token != token
      ensures r.Ok? ==> && r.value == Session(userId, GenerateRandomToken(random), userAgent, ipAddress,
                                              now + (if expiresIn.Some? then expiresIn.value else DefaultExpiresIn),
                                              true, now, now)
                        && sessions == old(sessions) + [r.value]
      ensures r.Ok? ==> |r.value.token| == 128
      ensures r.Ok? ==> FindByToken(sessions, r.value.token, now).Some? == (r.value.expiresAt > now)
      ensures r.Err? ==> sessions == old(sessions)
    {
      var token := GenerateRandomToken(random);
      var expiresAt := now + (if expiresIn.Some? then expiresIn.value else DefaultExpiresIn);
      if !RequiredPathsPresent(token, userAgent, ipAddress) {
        return Err(ValidationFailed);
      }
      if FirstWhere(sessions, (s: Session) => s.token == token).Some? {
        return Err(DuplicateKey);
      }
      var s := Session(userId, token, userAgent, ipAddress, expiresAt, true, now, now);
      sessions := sessions + [s];
      assert sessions[|sessions| - 1] == s;
      return Ok(s);
    }

    /** `invalidateSession`: an empty token is refused without touching the store; otherwise the
        session with the token is invalidated and the result says whether the document changed. */
    method InvalidateSession(token: string, now: Millis) returns (changed: bool)
      requires Valid()
      modifies this
      ensures Valid()
      ensures token == "" ==> !changed && sessions == old(sessions)
      ensures token != "" ==> (sessions, changed) == InvalidateToken(old(sessions), token, now)
    {
      if token == "" {
        return false;
      }
      var r := InvalidateToken(sessions, token, now);
      sessions := r.0;
      changed := r.1;
    }

    /** `invalidateAllUserSessions`. */
    method InvalidateAllUserSessions(userId: ObjectId, now: Millis) returns (changed: bool)
      requires Valid()
      modifies this
      ensures Valid()
      ensures (sessions, changed) == InvalidateUser(old(sessions), userId, now)
    {
      var r := InvalidateUser(sessions, userId, now);
      sessions := r.0;
      changed := r.1;
      assert forall i :: 0 <= i < |sessions| ==> sessions[i].token == old(sessions)[i].token;
    }
  }
}
