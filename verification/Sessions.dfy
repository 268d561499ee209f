/** Server-side sessions: a keyed store with expiry, a per-user index beside it, and the check that reads the store.

  Delete and DeleteAllForUser read first and write in one transaction later; anything may run in between.
*/
module Sessions {
  import opened Common

  type Id = nat
  type User = nat

  datatype Session = Session(id: Id, user: User, expiresAt: int)

  datatype Redis = Redis(store: map<Id, Session>, index: map<User, set<Id>>)
  {
    function Get(id: Id, now: int): Option<Session> {
      if id in store && now < store[id].expiresAt then Some(store[id]) else None
    }

    predicate Live(id: Id, now: int) {
      Get(id, now).Some?
    }

    function Members(user: User): set<Id> {
      if user in index then index[user] else {}
    }

    /** SET and SADD. */
    function Put(sess: Session): Redis {
      Redis(store[sess.id := sess], index[sess.user := Members(sess.user) + {sess.id}])
    }

    /** DEL, and SREM from the set of the user the session was read with. */
    function Remove(id: Id, found: Option<Session>): Redis {
      Redis(store - {id},
            if found.Some? && found.value.user in index then
              index[found.value.user := index[found.value.user] - {id}]
            else
              index)
    }

    /** DEL of every listed session and of the user's set. */
    function Revoke(user: User, ids: set<Id>): Redis {
      Redis(store - ids, index - {user})
    }
  }

  /** A call that has done its read and not yet its write. */
  datatype Op =
    | Deleting(id: Id, found: Option<Session>)
    | Revoking(user: User, ids: set<Id>)

  /** `owner` remembers whom every id ever issued was issued to. */
  datatype State = State(redis: Redis, ops: map<nat, Op>, owner: map<Id, User>, clock: int)

  /** `sent` is whether the transaction got through. */
  datatype Move =
    | Tick(now: int)
    | Create(sess: Session, sent: bool)
    | BeginDelete(op: nat, id: Id)
    | BeginRevoke(op: nat, user: User)
    | End(op: nat, sent: bool)

  const INIT := State(Redis(map[], map[]), map[], map[], 0)

  /** Session ids are random and new each time. */
  predicate Enabled(s: State, mv: Move) {
    match mv
    case Tick(now) => now >= s.clock
    case Create(sess, _) => sess.id !in s.owner
    case BeginDelete(op, _) => op !in s.ops
    case BeginRevoke(op, _) => op !in s.ops
    case End(op, _) => op in s.ops
  }

  function Next(s: State, mv: Move): State {
    match mv
    case Tick(now) => s.(clock := now)
    case Create(sess, sent) =>
      var s := s.(owner := s.owner[sess.id := sess.user]);
      if sess.expiresAt - s.clock <= 0 || !sent then s else s.(redis := s.redis.Put(sess))
    case BeginDelete(op, id) => s.(ops := s.ops[op := Deleting(id, s.redis.Get(id, s.clock))])
    case BeginRevoke(op, user) =>
      if s.redis.Members(user) == {} then s else s.(ops := s.ops[op := Revoking(user, s.redis.Members(user))])
    case End(op, sent) =>
      if op !in s.ops then s else
      var done := s.(ops := s.ops - {op});
      if !sent then done else
      match s.ops[op]
      case Deleting(id, found) => done.(redis := s.redis.Remove(id, found))
      case Revoking(user, ids) => done.(redis := s.redis.Revoke(user, ids))
  }

  function After(s: State, moves: seq<Move>): State {
    if moves == [] then s else Next(After(s, moves[..|moves| - 1]), moves[|moves| - 1])
  }

  predicate Runs(s: State, moves: seq<Move>) {
    moves == [] || (Runs(s, moves[..|moves| - 1]) && Enabled(After(s, moves[..|moves| - 1]), moves[|moves| - 1]))
  }

  /** A creation that reaches the store. */
  predicate Stores(s: State, mv: Move) {
    mv.Create? && mv.sent && mv.sess.expiresAt > s.clock
  }

  /** No session is stored for a user between the read and the write of a revocation of that user. */
  predicate Apart(s: State, mv: Move) {
    Stores(s, mv) ==> forall op :: op in s.ops && s.ops[op].Revoking? ==> s.ops[op].user != mv.sess.user
  }

  predicate ApartRun(s: State, moves: seq<Move>) {
    moves == [] || (ApartRun(s, moves[..|moves| - 1]) && Apart(After(s, moves[..|moves| - 1]), moves[|moves| - 1]))
  }

  // ---------------------------------------------------------------- the index covers the store

  ghost predicate Covered(redis: Redis, now: int) {
    forall id :: redis.Live(id, now) ==> id in redis.Members(redis.store[id].user)
  }

  /** What holds in every run: entries are filed under their own id and owner. */
  ghost predicate Filed(s: State) {
    && (forall id :: id in s.redis.store ==>
          id in s.owner && s.redis.store[id].id == id && s.redis.store[id].user == s.owner[id])
    && (forall user, id :: id in s.redis.Members(user) ==> id in s.owner && s.owner[id] == user)
    && (forall op :: op in s.ops && s.ops[op].Deleting? && s.ops[op].found.Some? ==>
          s.ops[op].id in s.owner && s.ops[op].found.value.user == s.owner[s.ops[op].id])
    && (forall op :: op in s.ops && s.ops[op].Revoking? ==>
          forall id :: id in s.ops[op].ids ==> id in s.owner && s.owner[id] == s.ops[op].user)
  }

  ghost predicate SawAll(s: State, user: User, ids: set<Id>) {
    forall id :: s.redis.Live(id, s.clock) && s.redis.store[id].user == user ==> id in ids
  }

  ghost predicate Inv(s: State) {
    && Filed(s)
    && Covered(s.redis, s.clock)
    && (forall op :: op in s.ops && s.ops[op].Revoking? ==> SawAll(s, s.ops[op].user, s.ops[op].ids))
  }

  lemma FiledStep(s: State, mv: Move)
    requires Filed(s) && Enabled(s, mv)
    ensures Filed(Next(s, mv))
  {
    var t := Next(s, mv);
    forall user, id | id in t.redis.Members(user)
      ensures id in t.owner && t.owner[id] == user
    {
      assert id in s.redis.Members(user) || (mv.Create? && mv.sess.id == id && mv.sess.user == user);
    }
  }

  lemma InvStep(s: State, mv: Move)
    requires Inv(s) && Enabled(s, mv) && Apart(s, mv)
    ensures Inv(Next(s, mv))
  {
    FiledStep(s, mv);
    var t := Next(s, mv);
    forall id | t.redis.Live(id, t.clock)
      ensures id in t.redis.Members(t.redis.store[id].user)
    {
      if !(mv.Create? && mv.sess.id == id) {
        assert s.redis.Live(id, s.clock);
      }
    }
    forall op, id | op in t.ops && t.ops[op].Revoking?
                    && t.redis.Live(id, t.clock) && t.redis.store[id].user == t.ops[op].user
      ensures id in t.ops[op].ids
    {
      if !(mv.Create? && mv.sess.id == id) {
        assert s.redis.Live(id, s.clock);
        assert op in s.ops ==> SawAll(s, s.ops[op].user, s.ops[op].ids);
      }
    }
  }

  /** A move keeps the index covering the store, now and after every revocation under way, exactly when it is apart. */
  lemma InvStepIff(s: State, mv: Move)
    requires Inv(s) && Enabled(s, mv)
    ensures Inv(Next(s, mv)) <==> Apart(s, mv)
  {
    if Apart(s, mv) {
      InvStep(s, mv);
    } else {
      var op :| op in s.ops && s.ops[op].Revoking? && s.ops[op].user == mv.sess.user;
      var t := Next(s, mv);
      assert t.redis.Live(mv.sess.id, t.clock) && mv.sess.id !in s.ops[op].ids;
      assert !SawAll(t, t.ops[op].user, t.ops[op].ids);
    }
  }

  /** The invariant holds at every moment of a run. */
  ghost predicate InvThroughout(moves: seq<Move>) {
    Inv(After(INIT, moves)) && (moves != [] ==> InvThroughout(moves[..|moves| - 1]))
  }

  /** And so it does at every moment of a run exactly when every move is. */
  lemma {:induction false} CoverIsKeptIff(moves: seq<Move>)
    requires Runs(INIT, moves)
    ensures InvThroughout(moves) <==> ApartRun(INIT, moves)
  {
    if moves != [] {
      var front := moves[..|moves| - 1];
      CoverIsKeptIff(front);
      if InvThroughout(front) {
        assert Inv(After(INIT, front));
        InvStepIff(After(INIT, front), moves[|moves| - 1]);
      }
    }
  }

  /** In every run without a creation inside a revocation, each live session is in its owner's set. */
  lemma {:induction false} LiveSessionsAreIndexed(moves: seq<Move>)
    requires Runs(INIT, moves) && ApartRun(INIT, moves)
    ensures Inv(After(INIT, moves))
    ensures var s := After(INIT, moves); Covered(s.redis, s.clock)
  {
    if moves != [] {
      LiveSessionsAreIndexed(moves[..|moves| - 1]);
      InvStep(After(INIT, moves[..|moves| - 1]), moves[|moves| - 1]);
    }
  }

  /** A revocation's write leaves the index covering the store exactly when its read saw every session still alive. */
  lemma RevokeKeepsCoverIff(s: State, op: nat)
    requires Filed(s) && Covered(s.redis, s.clock) && op in s.ops && s.ops[op].Revoking?
    ensures Covered(Next(s, End(op, true)).redis, s.clock)
            <==> SawAll(s, s.ops[op].user, s.ops[op].ids)
  {
    var t := Next(s, End(op, true));
    var user, ids := s.ops[op].user, s.ops[op].ids;
    forall id
      ensures t.redis.Live(id, s.clock) <==> s.redis.Live(id, s.clock) && id !in ids
    {
    }
    assert t.redis.Members(user) == {};
    if Covered(t.redis, s.clock) {
      forall id | s.redis.Live(id, s.clock) && s.redis.store[id].user == user
        ensures id in ids
      {
        assert t.redis.Live(id, s.clock) ==> id in t.redis.Members(user);
      }
    } else {
      var id :| t.redis.Live(id, s.clock) && id !in t.redis.Members(t.redis.store[id].user);
      assert s.redis.Live(id, s.clock);
    }
  }

  /** A session created between the read and the write survives the revocation, and no index shows it. */
  lemma CreationInsideRevocation() returns (moves: seq<Move>)
    ensures Runs(INIT, moves) && !ApartRun(INIT, moves)
    ensures var s := After(INIT, moves);
            s.ops == map[] && s.redis.Live(2, s.clock) && s.redis.store[2].user == 9 && s.redis.Members(9) == {}
  {
    moves := [];
    moves := Go(moves, Create(Session(1, 9, 10), true));
    assert INIT.redis.Members(9) + {1} == {1};
    assert After(INIT, moves).redis == Redis(map[1 := Session(1, 9, 10)], map[9 := {1}]);
    moves := Go(moves, BeginRevoke(0, 9));
    assert After(INIT, moves).ops == map[0 := Revoking(9, {1})];
    moves := Go(moves, Create(Session(2, 9, 10), true));
    moves := Go(moves, End(0, true));
    assert After(INIT, moves).redis.store == map[2 := Session(2, 9, 10)];
    if ApartRun(INIT, moves) {
      LiveSessionsAreIndexed(moves);
      assert After(INIT, moves).redis.Live(2, 0);
    }
  }

  lemma Go(moves: seq<Move>, mv: Move) returns (longer: seq<Move>)
    requires Runs(INIT, moves) && Enabled(After(INIT, moves), mv)
    ensures longer == moves + [mv] && Runs(INIT, longer) && After(INIT, longer) == Next(After(INIT, moves), mv)
  {
    longer := moves + [mv];
    assert longer[..|moves|] == moves;
  }

  // ---------------------------------------------------------------- revoked for good

  predicate Dead(s: State, id: Id) {
    id in s.owner && !s.redis.Live(id, s.clock)
  }

  /** A dead session stays dead, whatever runs. */
  lemma {:induction false} DeadStaysDead(s: State, moves: seq<Move>, id: Id)
    requires Runs(s, moves) && Dead(s, id)
    ensures Dead(After(s, moves), id)
  {
    if moves != [] {
      DeadStaysDead(s, moves[..|moves| - 1], id);
    }
  }

  lemma {:induction false} OpWaits(s: State, moves: seq<Move>, op: nat)
    requires Runs(s, moves) && op in s.ops && forall i :: 0 <= i < |moves| ==> !(moves[i].End? && moves[i].op == op)
    ensures op in After(s, moves).ops && After(s, moves).ops[op] == s.ops[op]
    ensures s.owner.Keys <= After(s, moves).owner.Keys
  {
    if moves != [] {
      OpWaits(s, moves[..|moves| - 1], op);
    }
  }

  /** Every session a user had when a revocation read the index is dead once its write is through, and ever after,
      whatever else is created, deleted or revoked meanwhile. */
  lemma RevocationIsFinal(before: State, op: nat, user: User, meanwhile: seq<Move>, later: seq<Move>, id: Id)
    requires Inv(before) && Enabled(before, BeginRevoke(op, user)) && id in before.owner && before.owner[id] == user
    requires var s := Next(before, BeginRevoke(op, user));
             && Runs(s, meanwhile)
             && forall i :: 0 <= i < |meanwhile| ==> !(meanwhile[i].End? && meanwhile[i].op == op)
    requires var t := After(Next(before, BeginRevoke(op, user)), meanwhile);
             Runs(if op in t.ops then Next(t, End(op, true)) else t, later)
    ensures var t := After(Next(before, BeginRevoke(op, user)), meanwhile);
            Dead(After(if op in t.ops then Next(t, End(op, true)) else t, later), id)
  {
    var s := Next(before, BeginRevoke(op, user));
    var t := After(s, meanwhile);
    if before.redis.Live(id, before.clock) {
      assert id in before.redis.Members(user);
      OpWaits(s, meanwhile, op);
      assert Dead(Next(t, End(op, true)), id);
      DeadStaysDead(Next(t, End(op, true)), later, id);
    } else {
      DeadStaysDead(s, meanwhile, id);
      var u := if op in t.ops then Next(t, End(op, true)) else t;
      assert Dead(u, id);
      DeadStaysDead(u, later, id);
    }
  }

  /** A session stored inside a revocation of its user outlives it without being in any set, unless it has died by the
      time the revocation writes, whatever else happens in between. */
  lemma CreationInsideUncovers(s: State, sess: Session, op: nat, meanwhile: seq<Move>)
    requires Filed(s) && Enabled(s, Create(sess, true)) && Stores(s, Create(sess, true))
    requires op in s.ops && s.ops[op].Revoking? && s.ops[op].user == sess.user
    requires Runs(Next(s, Create(sess, true)), meanwhile)
    requires forall i :: 0 <= i < |meanwhile| ==> !(meanwhile[i].End? && meanwhile[i].op == op)
    ensures var t := After(Next(s, Create(sess, true)), meanwhile);
            op in t.ops && (t.redis.Live(sess.id, t.clock) ==> !Covered(Next(t, End(op, true)).redis, t.clock))
  {
    var created := Next(s, Create(sess, true));
    var t := After(created, meanwhile);
    FiledStep(s, Create(sess, true));
    OpWaits(created, meanwhile, op);
    FiledAfter(created, meanwhile);
    assert sess.id !in t.ops[op].ids;
    if t.redis.Live(sess.id, t.clock) {
      var u := Next(t, End(op, true));
      assert t.redis.store[sess.id].user == sess.user;
      assert u.redis.Live(sess.id, t.clock) && u.redis.Members(sess.user) == {};
    }
  }

  lemma {:induction false} FiledAfter(s: State, moves: seq<Move>)
    requires Filed(s) && Runs(s, moves)
    ensures Filed(After(s, moves))
    ensures forall id :: id in s.owner ==> id in After(s, moves).owner && After(s, moves).owner[id] == s.owner[id]
  {
    if moves != [] {
      FiledAfter(s, moves[..|moves| - 1]);
      FiledStep(After(s, moves[..|moves| - 1]), moves[|moves| - 1]);
    }
  }

  // ---------------------------------------------------------------- how long a session lives

  /** The write of a deletion of this session, or of a revocation that listed it. */
  predicate Ends(s: State, mv: Move, id: Id) {
    mv.End? && mv.sent && mv.op in s.ops &&
    match s.ops[mv.op]
    case Deleting(target, _) => target == id
    case Revoking(_, ids) => id in ids
  }

  predicate EverEnded(s: State, moves: seq<Move>, id: Id) {
    moves != [] &&
    (EverEnded(s, moves[..|moves| - 1], id) || Ends(After(s, moves[..|moves| - 1]), moves[|moves| - 1], id))
  }

  lemma {:induction false} StoredUntilEnded(s: State, moves: seq<Move>, id: Id)
    requires Filed(s) && Runs(s, moves) && id in s.redis.store
    ensures var t := After(s, moves);
            && id in t.owner
            && (id in t.redis.store <==> !EverEnded(s, moves, id))
            && (id in t.redis.store ==> t.redis.store[id] == s.redis.store[id])
  {
    if moves != [] {
      StoredUntilEnded(s, moves[..|moves| - 1], id);
    }
  }

  /** What is created, and when it lives: the session is found exactly while its time of expiry lies ahead and neither a
      deletion of it nor a revocation that listed it has been written, whatever else runs. */
  lemma SessionLivesIff(moves: seq<Move>, sess: Session, sent: bool, later: seq<Move>)
    requires Runs(INIT, moves) && sess.id !in After(INIT, moves).owner
    requires Runs(Next(After(INIT, moves), Create(sess, sent)), later)
    ensures Enabled(After(INIT, moves), Create(sess, sent))
    ensures var s := After(INIT, moves);
            var created := Next(s, Create(sess, sent));
            var t := After(created, later);
            && (t.redis.Live(sess.id, t.clock)
                <==> sent && s.clock < sess.expiresAt && t.clock < sess.expiresAt
                     && !EverEnded(created, later, sess.id))
            && (t.redis.Live(sess.id, t.clock) ==> t.redis.store[sess.id] == sess)
            && (sess.id in created.redis.store <==> sent && s.clock < sess.expiresAt)
  {
    var s := After(INIT, moves);
    var created := Next(s, Create(sess, sent));
    FiledAfter(INIT, moves);
    FiledStep(s, Create(sess, sent));
    if sent && s.clock < sess.expiresAt {
      StoredUntilEnded(created, later, sess.id);
    } else {
      DeadStaysDead(created, later, sess.id);
    }
  }

  /** A deletion that found its session leaves it neither in the store nor in any set. */
  lemma DeletedIsNowhere(s: State, op: nat, user: User)
    requires Filed(s) && op in s.ops && s.ops[op].Deleting? && s.ops[op].found.Some?
    ensures var t := Next(s, End(op, true)); s.ops[op].id !in t.redis.store && s.ops[op].id !in t.redis.Members(user)
    ensures forall id :: id != s.ops[op].id ==>
              (id in s.redis.Members(user) <==> id in Next(s, End(op, true)).redis.Members(user))
  {
    var id, owner := s.ops[op].id, s.ops[op].found.value.user;
    assert id in s.redis.Members(user) ==> user == owner;
    assert Next(s, End(op, true)).redis == s.redis.Remove(id, s.ops[op].found);
    if user != owner {
      assert s.redis.Remove(id, s.ops[op].found).Members(user) == s.redis.Members(user);
    } else {
      assert s.redis.Remove(id, s.ops[op].found).Members(user) == s.redis.Members(user) - {id};
    }
  }

  // ---------------------------------------------------------------- calls that nothing interrupts

  /** A deletion with nothing between its read and its write is the object's. */
  lemma UninterruptedDelete(moves: seq<Move>, op: nat, id: Id, sent: bool) returns (longer: seq<Move>)
    requires Runs(INIT, moves) && op !in After(INIT, moves).ops
    ensures longer == moves + [BeginDelete(op, id), End(op, sent)] && Runs(INIT, longer)
    ensures var s, t := After(INIT, moves), After(INIT, longer);
            && t.redis == (if sent then s.redis.Remove(id, s.redis.Get(id, s.clock)) else s.redis)
            && t.ops == s.ops && t.clock == s.clock && (sent ==> !t.redis.Live(id, t.clock))
  {
    longer := Go(moves, BeginDelete(op, id));
    longer := Go(longer, End(op, sent));
    assert After(INIT, moves).ops[op := Deleting(id, After(INIT, moves).redis.Get(id, After(INIT, moves).clock))] - {op}
           == After(INIT, moves).ops;
  }

  /** And so is a revocation, which ends every session in the user's set. */
  lemma UninterruptedRevoke(moves: seq<Move>, op: nat, user: User, sent: bool) returns (longer: seq<Move>)
    requires Runs(INIT, moves) && op !in After(INIT, moves).ops && After(INIT, moves).redis.Members(user) != {}
    ensures longer == moves + [BeginRevoke(op, user), End(op, sent)] && Runs(INIT, longer)
    ensures var s, t := After(INIT, moves), After(INIT, longer);
            && t.redis == (if sent then s.redis.Revoke(user, s.redis.Members(user)) else s.redis)
            && t.ops == s.ops && t.clock == s.clock
            && (sent ==> forall id :: id in s.redis.Members(user) ==> !t.redis.Live(id, t.clock))
  {
    longer := Go(moves, BeginRevoke(op, user));
    longer := Go(longer, End(op, sent));
    assert After(INIT, moves).ops[op := Revoking(user, After(INIT, moves).redis.Members(user))] - {op}
           == After(INIT, moves).ops;
  }

  // ---------------------------------------------------------------- what is listed

  function Listed(redis: Redis, user: User, now: int): set<Id> {
    set id | id in redis.Members(user) && redis.Live(id, now)
  }

  function Living(redis: Redis, user: User, now: int): set<Id> {
    set id | id in redis.store && redis.Live(id, now) && redis.store[id].user == user
  }

  /** What is listed for each user is exactly what lives for that user just when the index covers the store. */
  lemma ListingsAreCompleteIff(s: State)
    requires Filed(s)
    ensures (forall user :: Listed(s.redis, user, s.clock) == Living(s.redis, user, s.clock))
            <==> Covered(s.redis, s.clock)
  {
    if Covered(s.redis, s.clock) {
      forall user
        ensures Listed(s.redis, user, s.clock) == Living(s.redis, user, s.clock)
      {
      }
    } else {
      var id :| s.redis.Live(id, s.clock) && id !in s.redis.Members(s.redis.store[id].user);
      var user := s.redis.store[id].user;
      assert id in Living(s.redis, user, s.clock) && id !in Listed(s.redis, user, s.clock);
    }
  }

  // ---------------------------------------------------------------- the request check

  datatype Claims = Claims(user: User, role: string, session: Option<Id>)

  datatype Verdict = NoToken | InvalidToken | SessionRevoked | SessionMismatch | Accepted(claims: Claims)

  /** The store's answer: an error, or a session that may be absent. */
  datatype Answer = Failed | Found(session: Option<Session>)

  /** `cookie` is None without one, and holds None when the token does not validate. */
  function Check(cookie: Option<Option<Claims>>, haveStore: bool, lookup: Id -> Answer): Verdict {
    match cookie
    case None => NoToken
    case Some(None) => InvalidToken
    case Some(Some(claims)) =>
      if haveStore && claims.session.Some? then
        match lookup(claims.session.value)
        case Failed => SessionRevoked
        case Found(None) => SessionRevoked
        case Found(Some(sess)) => if sess.user != claims.user then SessionMismatch else Accepted(claims)
      else
        Accepted(claims)
  }

  /** With a working store, a token that names a session gets in exactly while that session lives and is its user's. */
  lemma TokenLivesWithItsSession(s: State, claims: Claims)
    requires claims.session.Some? && Filed(s)
    ensures Check(Some(Some(claims)), true, (id: Id) => Found(s.redis.Get(id, s.clock))).Accepted?
            <==> claims.session.value in s.owner && !Dead(s, claims.session.value)
                 && s.owner[claims.session.value] == claims.user
    ensures Check(Some(Some(claims)), true, (id: Id) => Found(s.redis.Get(id, s.clock))).Accepted?
            <==> claims.session.value in s.redis.store && s.clock < s.redis.store[claims.session.value].expiresAt
                 && s.redis.store[claims.session.value].user == claims.user
  {
    var id := claims.session.value;
    assert s.redis.Live(id, s.clock) ==> id in s.redis.store;
  }

  /** Accepted is exactly a valid token that names no session, or no store to ask, or a session that the store finds and
      that is the token's user's; a store that answers with an error lets nothing through. */
  lemma AcceptedIff(cookie: Option<Option<Claims>>, haveStore: bool, lookup: Id -> Answer)
    ensures Check(cookie, haveStore, lookup).Accepted?
            <==> cookie.Some? && cookie.value.Some?
                 && (haveStore && cookie.value.value.session.Some? ==>
                       exists sess: Session :: lookup(cookie.value.value.session.value) == Found(Some(sess))
                                               && sess.user == cookie.value.value.user)
    ensures Check(cookie, haveStore, lookup).Accepted? ==> cookie == Some(Some(Check(cookie, haveStore, lookup).claims))
    ensures cookie.Some? && cookie.value.Some? && haveStore && cookie.value.value.session.Some?
            && lookup(cookie.value.value.session.value) == Failed
            ==> Check(cookie, haveStore, lookup) == SessionRevoked
  {
    if cookie.Some? && cookie.value.Some? && cookie.value.value.session.Some? {
      var answer := lookup(cookie.value.value.session.value);
      assert answer.Found? && answer.session.Some? ==> answer == Found(Some(answer.session.value));
    }
  }

  /** A token that names a session opens the door from the session's creation until its expiry, its deletion or a
      revocation that lists it, and never to another user. */
  lemma TokenLivesIff(moves: seq<Move>, sess: Session, sent: bool, later: seq<Move>, claims: Claims)
    requires Runs(INIT, moves) && sess.id !in After(INIT, moves).owner && claims.session == Some(sess.id)
    requires Runs(Next(After(INIT, moves), Create(sess, sent)), later)
    ensures var s := After(INIT, moves);
            var created := Next(s, Create(sess, sent));
            var t := After(created, later);
            var verdict := Check(Some(Some(claims)), true, (id: Id) => Found(t.redis.Get(id, t.clock)));
            && (verdict.Accepted?
                <==> sent && s.clock < sess.expiresAt && t.clock < sess.expiresAt && claims.user == sess.user
                     && !EverEnded(created, later, sess.id))
            && (t.clock >= sess.expiresAt ==> verdict == SessionRevoked)
  {
    SessionLivesIff(moves, sess, sent, later);
  }

  /** The clock may pass a session's expiry at any time, and then its token is rejected. */
  lemma TokenExpires(moves: seq<Move>, id: Id, now: int, claims: Claims) returns (longer: seq<Move>)
    requires Runs(INIT, moves) && id in After(INIT, moves).redis.store && claims.session == Some(id)
    requires now >= After(INIT, moves).clock && now >= After(INIT, moves).redis.store[id].expiresAt
    ensures longer == moves + [Tick(now)] && Runs(INIT, longer)
    ensures var t := After(INIT, longer);
            && t.redis == After(INIT, moves).redis && t.clock == now && !t.redis.Live(id, now)
            && Check(Some(Some(claims)), true, (id: Id) => Found(t.redis.Get(id, t.clock))) == SessionRevoked
  {
    longer := Go(moves, Tick(now));
  }

  // ---------------------------------------------------------------- the store as an object

  class SessionStore {
    var store: map<Id, Session>
    var index: map<User, set<Id>>

    ghost function Value(): Redis
      reads this
    {
      Redis(store, index)
    }

    constructor ()
      ensures Value() == INIT.redis
    {
      store, index := map[], map[];
    }

    method Create(sess: Session, now: int, sent: bool) returns (created: bool)
      modifies this
      ensures created <==> sess.expiresAt > now && sent
      ensures Value() == if created then old(Value()).Put(sess) else old(Value())
    {
      var ttl := sess.expiresAt - now;
      if ttl <= 0 || !sent {
        return false;
      }
      store := store[sess.id := sess];
      index := index[sess.user := (if sess.user in index then index[sess.user] else {}) + {sess.id}];
      created := true;
    }

    method Get(id: Id, now: int) returns (found: Option<Session>)
      ensures found == Value().Get(id, now)
      ensures found == if id in store && now < store[id].expiresAt then Some(store[id]) else None
    {
      if id !in store || now >= store[id].expiresAt {
        return None;
      }
      found := Some(store[id]);
    }

    method Delete(id: Id, now: int, sent: bool)
      modifies this
      ensures Value() == if sent then old(Value()).Remove(id, old(Value()).Get(id, now)) else old(Value())
    {
      var sess := Get(id, now);
      if !sent {
        return;
      }
      store := store - {id};
      if sess.Some? && sess.value.user in index {
        index := index[sess.value.user := index[sess.value.user] - {id}];
      }
    }

    method DeleteAllForUser(user: User, sent: bool)
      modifies this
      ensures Value() == if sent && old(Value()).Members(user) != {} then
                           old(Value()).Revoke(user, old(Value()).Members(user))
                         else old(Value())
    {
      var ids := if user in index then index[user] else {};
      if ids == {} || !sent {
        return;
      }
      var left := ids;
      while left != {}
        invariant left <= ids && store == old(store) - (ids - left) && index == old(index)
        decreases left
      {
        var id :| id in left;
        store := store - {id};
        left := left - {id};
      }
      index := index - {user};
    }

    /** The sessions in the user's set that still live. */
    method ListForUser(user: User, now: int) returns (sessions: set<Session>)
      ensures sessions == set id | id in Listed(Value(), user, now) :: store[id]
      ensures sessions
              == set id | user in index && id in index[user] && id in store && now < store[id].expiresAt :: store[id]
    {
      sessions := {};
      var ids := if user in index then index[user] else {};
      var left := ids;
      while left != {}
        invariant left <= ids
        invariant sessions == set id | id in ids - left && id in store && Value().Live(id, now) :: store[id]
        decreases left
      {
        var id :| id in left;
        var sess := Get(id, now);
        if sess.Some? {
          sessions := sessions + {sess.value};
        }
        left := left - {id};
      }
    }
  }
}
