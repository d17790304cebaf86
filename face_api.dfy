/**
 * The Python backend's request handlers for the real biometric pipeline:
 * single-use challenge nonces, purged once older than 60 s at the next
 * challenge (verification accepts a nonce of any age that is still stored),
 * user registration with unique usernames, enrollment of a face embedding,
 * and 1:N verification that picks the best-scoring enrolled user against
 * a strict threshold.
 * The face service (image decoding, liveness, embedding, cosine score) is
 * not modelled: its answers arrive as parameters.
 */
module FaceApi {
  import opened Wrappers

  /** Nonces older than this many seconds are purged. */
  const NONCE_TTL: real := 60.0
  /** A match must score strictly above this cosine similarity. */
  const SIMILARITY_THRESHOLD: real := 0.5
  /** The score the 1:N search starts from. */
  const NO_SCORE: real := -1.0

  const REPLAY_DETAIL := "Invalid or expired challenge (Replay Attack Protection)"
  const DUPLICATE_DETAIL := "Username already exists"
  const NOT_FOUND_DETAIL := "User not found"
  const NO_FACE_ENROLL_DETAIL := "No face detected or confidence too low. Please realign."
  const DENIED_MESSAGE := "Access Denied: Face not recognized"

  datatype UserRecord = UserRecord(id: string, username: string, role: string, createdAt: real,
                                   embedding: Option<seq<real>>)

  /** An `HTTPException`: status code and detail. */
  datatype HttpError = HttpError(status: nat, detail: string)

  datatype Challenge = Challenge(nonce: string, timestamp: real)

  datatype Enrolled = Enrolled(success: bool, message: string)

  /** The `user` object of a granted verification: its username and role. */
  datatype UserView = UserView(username: string, role: string)

  datatype Verification = Verification(authorized: bool, similarity: real, message: string, user: Option<UserView>)

  /** A nonce issued at `issued` (seconds) is stale at `now`. */
  predicate Expired(issued: real, now: real) {
    now - issued > NONCE_TTL
  }

  /** `user.embedding` is truthy: present and not the empty list. */
  predicate Eligible(u: UserRecord) {
    u.embedding.Some? && |u.embedding.value| > 0
  }

  predicate UniqueUsernames(users: seq<UserRecord>) {
    forall i, j :: 0 <= i < j < |users| ==> users[i].username != users[j].username
  }

  predicate UniqueIds(users: seq<UserRecord>) {
    forall i, j :: 0 <= i < j < |users| ==> users[i].id != users[j].id
  }

  predicate UsernameTaken(users: seq<UserRecord>, username: string) {
    exists j :: 0 <= j < |users| && users[j].username == username
  }

  /** `next((u for u in users if u.username == username), None)`, as an index. */
  function FindByUsername(users: seq<UserRecord>, username: string): (r: Option<nat>)
    ensures r.Some? ==> r.value < |users| && users[r.value].username == username
    ensures r.Some? ==> forall j :: 0 <= j < r.value ==> users[j].username != username
    ensures r.None? <==> !UsernameTaken(users, username)
    decreases |users|
  {
    if users == [] then None
    else if users[0].username == username then Some(0)
    else match FindByUsername(users[1..], username)
      case None => (assert forall j :: 1 <= j < |users| ==> users[j] == users[1..][j - 1]; None)
      case Some(i) => Some(i + 1)
  }

  // --- 1:N matching ---

  /** The running best of the scan: its score and the user that reached it, if any. */
  datatype Match = Match(score: real, user: Option<UserRecord>)

  /** The score of an eligible user against the probe. */
  function ScoreOf(u: UserRecord, probe: seq<real>, similarity: (seq<real>, seq<real>) -> real): real
    requires Eligible(u)
  {
    similarity(probe, u.embedding.value)
  }

  /**
   * The scan of `users` in order from a score of -1: an eligible user whose
   * score beats the best so far, strictly, becomes the best.
   */
  function Best(users: seq<UserRecord>, probe: seq<real>, similarity: (seq<real>, seq<real>) -> real): (m: Match)
    ensures m.score >= NO_SCORE
    ensures m.user.None? ==> m.score == NO_SCORE
    ensures m.user.Some? ==> m.user.value in users && Eligible(m.user.value)
                             && m.score == ScoreOf(m.user.value, probe, similarity)
    decreases |users|
  {
    if users == [] then Match(NO_SCORE, None)
    else
      var m := Best(users[..|users| - 1], probe, similarity);
      var u := users[|users| - 1];
      if Eligible(u) && ScoreOf(u, probe, similarity) > m.score then Match(ScoreOf(u, probe, similarity), Some(u))
      else m
  }

  /** No eligible user scores above the best. */
  lemma {:induction false} BestIsMaximal(users: seq<UserRecord>, probe: seq<real>,
                                         similarity: (seq<real>, seq<real>) -> real)
    ensures forall j :: 0 <= j < |users| && Eligible(users[j]) ==>
              ScoreOf(users[j], probe, similarity) <= Best(users, probe, similarity).score
    decreases |users|
  {
    if users != [] {
      var init := users[..|users| - 1];
      BestIsMaximal(init, probe, similarity);
      assert forall j :: 0 <= j < |init| ==> init[j] == users[j];
    }
  }

  /**
   * The chosen user is the first to reach the best score: it sits at some
   * index `k`, and every eligible user before it scores strictly less.
   */
  lemma {:induction false} BestIsFirstMaximum(users: seq<UserRecord>, probe: seq<real>,
                                              similarity: (seq<real>, seq<real>) -> real)
    ensures var m := Best(users, probe, similarity);
            m.user.Some? ==>
              exists k :: 0 <= k < |users| && users[k] == m.user.value
                          && forall j :: 0 <= j < k && Eligible(users[j]) ==> ScoreOf(users[j], probe, similarity) < m.score
    decreases |users|
  {
    if users != [] {
      var init := users[..|users| - 1];
      var m0 := Best(init, probe, similarity);
      var m := Best(users, probe, similarity);
      assert forall j :: 0 <= j < |init| ==> init[j] == users[j];
      if m == m0 {
        BestIsFirstMaximum(init, probe, similarity);
      } else {
        BestIsMaximal(init, probe, similarity);
        assert users[|users| - 1] == m.user.value;
      }
    }
  }

  /** Nobody is chosen exactly when no eligible user scores above -1. */
  lemma {:induction false} BestNoneIff(users: seq<UserRecord>, probe: seq<real>,
                                       similarity: (seq<real>, seq<real>) -> real)
    ensures Best(users, probe, similarity).user.None? <==>
              forall j :: 0 <= j < |users| && Eligible(users[j]) ==> ScoreOf(users[j], probe, similarity) <= NO_SCORE
    decreases |users|
  {
    BestIsMaximal(users, probe, similarity);
    if users != [] {
      var init := users[..|users| - 1];
      BestNoneIff(init, probe, similarity);
      assert forall j :: 0 <= j < |init| ==> init[j] == users[j];
    }
  }

  /** Step 5 of `verify_face`: grant to the best user when its score beats the threshold. */
  function Decide(m: Match): (v: Verification)
    ensures v.authorized <==> m.score > SIMILARITY_THRESHOLD && m.user.Some?
    ensures v.similarity == m.score
    ensures v.authorized ==> v.user == Some(UserView(m.user.value.username, m.user.value.role))
                             && v.message == "Welcome, " + m.user.value.username
    ensures !v.authorized ==> v.user.None? && v.message == DENIED_MESSAGE
  {
    if m.score > SIMILARITY_THRESHOLD && m.user.Some? then
      Verification(true, m.score, "Welcome, " + m.user.value.username,
                   Some(UserView(m.user.value.username, m.user.value.role)))
    else Verification(false, m.score, DENIED_MESSAGE, None)
  }

  /**
   * A verification that reaches matching is granted exactly when some
   * eligible user scores strictly above the threshold; the `and best_user`
   * test adds nothing, since a score above 0.5 always has a user behind it.
   */
  lemma AuthorizedIffSomeoneAboveThreshold(users: seq<UserRecord>, probe: seq<real>,
                                           similarity: (seq<real>, seq<real>) -> real)
    ensures Decide(Best(users, probe, similarity)).authorized <==>
              exists j :: 0 <= j < |users| && Eligible(users[j]) && ScoreOf(users[j], probe, similarity) > SIMILARITY_THRESHOLD
    ensures Best(users, probe, similarity).score > SIMILARITY_THRESHOLD ==> Best(users, probe, similarity).user.Some?
  {
    var m := Best(users, probe, similarity);
    BestIsMaximal(users, probe, similarity);
    if m.user.Some? {
      var u := m.user.value;
      var k :| 0 <= k < |users| && users[k] == u;
      assert Eligible(users[k]) && ScoreOf(users[k], probe, similarity) == m.score;
    }
  }

  /** The in-memory state of the API: `users_db` in insertion order and `nonces_db`. */
  class Server {
    var users: seq<UserRecord>
    var nonces: map<string, real>

    /** Usernames are unique (registration refuses duplicates) and so are the dictionary's keys. */
    ghost predicate Valid()
      reads this
    {
      UniqueUsernames(users) && UniqueIds(users)
    }

    constructor ()
      ensures Valid() && users == [] && nonces == map[]
    {
      users := [];
      nonces := map[];
    }

    /** `cleanup_nonces`: forgets exactly the nonces older than the lifetime, keeping the rest as they were. */
    method CleanupNonces(now: real)
      modifies this`nonces
      ensures forall k :: k in nonces <==> k in old(nonces) && !Expired(old(nonces)[k], now)
      ensures forall k :: k in nonces ==> nonces[k] == old(nonces)[k]
    {
      var expired := set k | k in nonces && Expired(nonces[k], now);
      var pending := expired;
      while pending != {}
        invariant pending <= expired
        invariant forall k :: k in nonces <==> k in old(nonces) && (k !in expired || k in pending)
        invariant forall k :: k in nonces ==> nonces[k] == old(nonces)[k]
        decreases |pending|
      {
        var k :| k in pending;
        nonces := nonces - {k};
        pending := pending - {k};
      }
    }

    /** `get_challenge`: records a fresh nonce at `now`, then purges; the new nonce survives the purge. */
    method GetChallenge(nonce: string, now: real) returns (c: Challenge)
      modifies this`nonces
      ensures c == Challenge(nonce, now)
      ensures nonce in nonces && nonces[nonce] == now
      ensures forall k :: k != nonce ==> (k in nonces <==> k in old(nonces) && !Expired(old(nonces)[k], now))
      ensures forall k :: k in nonces && k != nonce ==> nonces[k] == old(nonces)[k]
    {
      nonces := nonces[nonce := now];
      CleanupNonces(now);
      c := Challenge(nonce, now);
    }

    /**
     * `register_user`: a taken username is refused with 400 and nothing
     * changes; otherwise one record without an embedding is added under the
     * fresh id `userId`.
     */
    method RegisterUser(username: string, role: string, userId: string, createdAt: real)
      returns (r: Result<UserRecord, HttpError>)
      requires Valid()
      requires forall j :: 0 <= j < |users| ==> users[j].id != userId
      modifies this`users
      ensures Valid()
      ensures r.Err? <==> UsernameTaken(old(users), username)
      ensures r.Err? ==> r.error == HttpError(400, DUPLICATE_DETAIL) && users == old(users)
      ensures r.Ok? ==> r.value == UserRecord(userId, username, role, createdAt, None)
                        && users == old(users) + [r.value]
    {
      var i := 0;
      while i < |users|
        invariant 0 <= i <= |users|
        invariant forall j :: 0 <= j < i ==> users[j].username != username
      {
        if users[i].username == username {
          return Err(HttpError(400, DUPLICATE_DETAIL));
        }
        i := i + 1;
      }
      var record := UserRecord(userId, username, role, createdAt, None);
      users := users + [record];
      r := Ok(record);
    }

    /**
     * `enroll_face`: an unknown username is 404; a failed liveness check or
     * a missing embedding is 400 and stores nothing; otherwise the first
     * user with that name gets the embedding and nothing else changes.
     * `live`/`liveMessage` and `embedding` are the face service's answers.
     */
    method EnrollFace(username: string, live: bool, liveMessage: string, embedding: Option<seq<real>>)
      returns (r: Result<Enrolled, HttpError>)
      requires Valid()
      modifies this`users
      ensures Valid()
      ensures FindByUsername(old(users), username).None? ==>
                r == Err(HttpError(404, NOT_FOUND_DETAIL)) && users == old(users)
      ensures FindByUsername(old(users), username).Some? && !live ==>
                r == Err(HttpError(400, "Image Quality Check Failed: " + liveMessage)) && users == old(users)
      ensures FindByUsername(old(users), username).Some? && live && embedding.None? ==>
                r == Err(HttpError(400, NO_FACE_ENROLL_DETAIL)) && users == old(users)
      ensures FindByUsername(old(users), username).Some? && live && embedding.Some? ==>
                var i := FindByUsername(old(users), username).value;
                && r == Ok(Enrolled(true, "User " + username + " enrolled successfully."))
                && users == old(users)[i := old(users)[i].(embedding := embedding)]
    {
      var found := FindByUsername(users, username);
      if found.None? {
        return Err(HttpError(404, NOT_FOUND_DETAIL));
      }
      if !live {
        return Err(HttpError(400, "Image Quality Check Failed: " + liveMessage));
      }
      if embedding.None? {
        return Err(HttpError(400, NO_FACE_ENROLL_DETAIL));
      }
      var i := found.value;
      users := users[i := users[i].(embedding := embedding)];
      r := Ok(Enrolled(true, "User " + username + " enrolled successfully."));
    }

    /**
     * `verify_face`: an unknown nonce is refused with 403 before anything
     * else; a known one is consumed first, so it authorises at most one
     * verification. Then liveness, the embedding, the 1:N scan and the
     * threshold decide.
     */
    method VerifyFace(nonce: string, live: bool, liveMessage: string, probe: Option<seq<real>>,
                      similarity: (seq<real>, seq<real>) -> real)
      returns (r: Result<Verification, HttpError>)
      modifies this`nonces
      ensures nonce !in nonces
      ensures nonce !in old(nonces) ==> r == Err(HttpError(403, REPLAY_DETAIL)) && nonces == old(nonces)
      ensures nonce in old(nonces) ==> nonces == old(nonces) - {nonce}
      ensures nonce in old(nonces) && !live ==>
                r == Ok(Verification(false, 0.0, "Liveness Check Failed: " + liveMessage, None))
      ensures nonce in old(nonces) && live && probe.None? ==>
                r == Ok(Verification(false, 0.0, "No face detected", None))
      ensures nonce in old(nonces) && live && probe.Some? ==>
                r == Ok(Decide(Best(users, probe.value, similarity)))
    {
      if nonce !in nonces {
        return Err(HttpError(403, REPLAY_DETAIL));
      }
      nonces := nonces - {nonce};
      if !live {
        return Ok(Verification(false, 0.0, "Liveness Check Failed: " + liveMessage, None));
      }
      if probe.None? {
        return Ok(Verification(false, 0.0, "No face detected", None));
      }
      var bestScore, bestUser := BestMatch(probe.value, similarity);
      r := Ok(Decide(Match(bestScore, bestUser)));
    }

    /** The matching loop of `verify_face`: the scan over `users` in order. */
    method BestMatch(probe: seq<real>, similarity: (seq<real>, seq<real>) -> real)
      returns (bestScore: real, bestUser: Option<UserRecord>)
      ensures Match(bestScore, bestUser) == Best(users, probe, similarity)
    {
      bestScore, bestUser := NO_SCORE, None;
      var i := 0;
      while i < |users|
        invariant 0 <= i <= |users|
        invariant Match(bestScore, bestUser) == Best(users[..i], probe, similarity)
      {
        var user := users[i];
        assert users[..i + 1][..i] == users[..i];
        if user.embedding.Some? && |user.embedding.value| > 0 {
          var score := similarity(probe, user.embedding.value);
          if score > bestScore {
            bestScore, bestUser := score, Some(user);
          }
        }
        i := i + 1;
      }
      assert users[..i] == users;
    }
  }
}
