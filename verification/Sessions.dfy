/** The session lifecycle of the panel (panel/panel-backend/internal/auth/service.go, repository.go,
    model.go): a table with lazy and periodic deletion, against a specification over the history. */
module Sessions {
  import opened Prelude

  type UserId = nat
  type Token = string
  type Time = int

  const WEEK: Time := 7 * 24 * 3600 * 1000000000

  datatype User = User(username: string, passwordHash: string)

  datatype Session = Session(userId: UserId, expiresAt: Time) {
    predicate IsExpired(now: Time) {
      now > expiresAt
    }
  }

  datatype AuthError = InvalidCredentials | SessionNotFound | SessionExpired | UserNotFound | Storage | Hashing

  datatype State = State(users: map<UserId, User>, sessions: map<Token, Session>, sessionDuration: Time)

  // ---------- the tables ----------

  ghost predicate IsUserNamed(users: map<UserId, User>, username: string, id: UserId) {
    id in users && users[id].username == username
  }

  /** The unique index on user names. */
  ghost predicate NamesUnique(users: map<UserId, User>) {
    forall i, j | i in users && j in users && users[i].username == users[j].username :: i == j
  }

  function WithoutExpired(sessions: map<Token, Session>, now: Time): map<Token, Session> {
    map t | t in sessions && !(sessions[t].expiresAt < now) :: sessions[t]
  }

  function WithoutUser(sessions: map<Token, Session>, id: UserId): map<Token, Session> {
    map t | t in sessions && sessions[t].userId != id :: sessions[t]
  }

  // ---------- specification of the operations ----------

  /** The results of the password comparison and of the password hashing, and the clock and token
      readings, are supplied by the environment. */
  datatype Command =
    | Login(id: UserId, passwordOk: bool, token: Token, now: Time)
    | Validate(token: Token, now: Time)
    | Logout(token: Token)
    | ChangePassword(id: UserId, oldOk: bool, newHash: Option<string>)
    | Rename(id: UserId, username: string)
    | SetDuration(d: Time)
    | Restart(d: Time)
    | Cleanup(now: Time)

  predicate LoginSucceeds(st: State, c: Command)
    requires c.Login?
  {
    c.id in st.users && c.passwordOk && c.token !in st.sessions
  }

  predicate ChangeSucceeds(st: State, c: Command)
    requires c.ChangePassword?
  {
    c.id in st.users && c.oldOk && c.newHash.Some?
  }

  predicate RenameSucceeds(st: State, c: Command)
    requires c.Rename?
  {
    c.id in st.users && forall i | i in st.users && i != c.id :: st.users[i].username != c.username
  }

  function Apply(st: State, c: Command): State {
    match c
    case Login(id, _, token, now) =>
      if LoginSucceeds(st, c) then st.(sessions := st.sessions[token := Session(id, now + st.sessionDuration)]) else st
    case Validate(token, now) =>
      if token in st.sessions && st.sessions[token].IsExpired(now) then st.(sessions := st.sessions - {token}) else st
    case Logout(token) => st.(sessions := st.sessions - {token})
    case ChangePassword(id, _, newHash) =>
      if ChangeSucceeds(st, c)
      then st.(users := st.users[id := st.users[id].(passwordHash := newHash.value)],
               sessions := WithoutUser(st.sessions, id))
      else st
    case Rename(id, username) =>
      if RenameSucceeds(st, c) then st.(users := st.users[id := st.users[id].(username := username)]) else st
    case SetDuration(d) => st.(sessionDuration := d)
    case Restart(d) => st.(sessionDuration := if d == 0 then WEEK else d)
    case Cleanup(now) => st.(sessions := WithoutExpired(st.sessions, now))
  }

  /** What `ValidateToken` answers; users are never deleted, but the lookup is kept. */
  function Reply(st: State, token: Token, now: Time): Result<UserId, AuthError> {
    if token !in st.sessions then Err(SessionNotFound)
    else if st.sessions[token].IsExpired(now) then Err(SessionExpired)
    else if st.sessions[token].userId !in st.users then Err(UserNotFound)
    else Ok(st.sessions[token].userId)
  }

  // ---------- the service ----------

  class Service {
    var users: map<UserId, User>
    var sessions: map<Token, Session>
    var sessionDuration: Time

    ghost function Abstract(): State
      reads this
    {
      State(users, sessions, sessionDuration)
    }

    ghost predicate Valid()
      reads this
    {
      NamesUnique(users)
    }

    /** Opening the database: sessions survive, a default user is seeded into an empty user table,
        a zero duration means a week. */
    constructor Open(users: map<UserId, User>, sessions: map<Token, Session>, sessionDuration: Time, seedHash: string)
      requires NamesUnique(users)
      ensures Valid() && this.sessions == sessions
      ensures this.users == if users == map[] then map[1 := User("admin", seedHash)] else users
      ensures this.sessionDuration == if sessionDuration == 0 then 604800000000000 else sessionDuration
    {
      this.users := if users == map[] then map[1 := User("admin", seedHash)] else users;
      this.sessions := sessions;
      this.sessionDuration := if sessionDuration == 0 then WEEK else sessionDuration;
    }

    method GetUser(username: string) returns (r: Option<UserId>)
      ensures r.Some? ==> IsUserNamed(users, username, r.value)
      ensures r.None? ==> forall id :: !IsUserNamed(users, username, id)
    {
      var todo := users.Keys;
      while todo != {}
        invariant todo <= users.Keys
        invariant forall id | IsUserNamed(users, username, id) :: id in todo
        decreases todo
      {
        var id :| id in todo;
        if users[id].username == username {
          return Some(id);
        }
        todo := todo - {id};
      }
      return None;
    }

    method Login(username: string, passwordOk: bool, token: Token, now: Time) returns (r: Result<Token, AuthError>)
      requires Valid()
      modifies this
      ensures Valid()
      ensures forall id | old(IsUserNamed(users, username, id)) ::
                var c := Command.Login(id, passwordOk, token, now);
                && Abstract() == Apply(old(Abstract()), c)
                && (r == Ok(token) <==> LoginSucceeds(old(Abstract()), c))
      ensures (forall id :: !old(IsUserNamed(users, username, id))) ==>
                Abstract() == old(Abstract()) && r == Err(InvalidCredentials)
      ensures r.Err? ==> r.error == InvalidCredentials || (r.error == Storage && token in old(sessions))
      ensures r.Ok? <==> passwordOk && token !in old(sessions) && exists id :: old(IsUserNamed(users, username, id))
      ensures r.Ok? ==> r.value == token && token in sessions && sessions[token].expiresAt == now + old(sessionDuration)
      ensures r.Ok? ==> sessions - {token} == old(sessions) && IsUserNamed(users, username, sessions[token].userId)
    {
      var user := GetUser(username);
      if user.None? || !passwordOk {
        return Err(InvalidCredentials);
      }
      if token in sessions {
        return Err(Storage);
      }
      sessions := sessions[token := Session(user.value, now + sessionDuration)];
      return Ok(token);
    }

    method ValidateToken(token: Token, now: Time) returns (r: Result<UserId, AuthError>)
      modifies this
      ensures Abstract() == Apply(old(Abstract()), Validate(token, now))
      ensures r == Reply(old(Abstract()), token, now)
      ensures token !in old(sessions) ==> r == Err(SessionNotFound)
      ensures token in old(sessions) && now > old(sessions)[token].expiresAt ==>
                r == Err(SessionExpired) && sessions == old(sessions) - {token}
      ensures r.Ok? ==> token in sessions && r.value == sessions[token].userId
      ensures users == old(users) && (r != Err(SessionExpired) ==> sessions == old(sessions))
    {
      if token !in sessions {
        return Err(SessionNotFound);
      }
      var session := sessions[token];
      if session.IsExpired(now) {
        sessions := sessions - {token};
        return Err(SessionExpired);
      }
      if session.userId !in users {
        return Err(UserNotFound);
      }
      return Ok(session.userId);
    }

    method Logout(token: Token)
      modifies `sessions
      ensures Abstract() == Apply(old(Abstract()), Command.Logout(token)) && sessions == old(sessions) - {token}
    {
      sessions := sessions - {token};
    }

    method ChangePassword(userId: UserId, oldOk: bool, newHash: Option<string>) returns (r: Result<(), AuthError>)
      requires Valid()
      modifies this
      ensures Valid()
      ensures var c := Command.ChangePassword(userId, oldOk, newHash);
              Abstract() == Apply(old(Abstract()), c) && (r.Ok? <==> ChangeSucceeds(old(Abstract()), c))
      ensures userId !in old(users) ==> r == Err(UserNotFound)
      ensures userId in old(users) && !oldOk ==> r == Err(InvalidCredentials)
      ensures r.Ok? <==> userId in old(users) && oldOk && newHash.Some?
      ensures r.Ok? ==> users == old(users)[userId := User(old(users)[userId].username, newHash.value)]
      ensures r.Ok? ==> forall t :: t in sessions <==> t in old(sessions) && old(sessions)[t].userId != userId
      ensures r.Err? ==> users == old(users) && sessions == old(sessions)
    {
      if userId !in users {
        return Err(UserNotFound);
      }
      if !oldOk {
        return Err(InvalidCredentials);
      }
      if newHash.None? {
        return Err(Hashing);
      }
      users := users[userId := users[userId].(passwordHash := newHash.value)];
      sessions := WithoutUser(sessions, userId);
      return Ok(());
    }

    method ChangeUsername(userId: UserId, newUsername: string) returns (r: Result<(), AuthError>)
      requires Valid()
      modifies `users
      ensures Valid()
      ensures var c := Rename(userId, newUsername);
              Abstract() == Apply(old(Abstract()), c) && (r.Ok? <==> RenameSucceeds(old(Abstract()), c))
      ensures userId !in old(users) ==> r == Err(UserNotFound)
      ensures r.Ok? ==> users == old(users)[userId := User(newUsername, old(users)[userId].passwordHash)]
      ensures r.Err? ==> users == old(users)
      ensures userId in old(users) ==>
                (r.Err? <==> exists id :: id != userId && old(IsUserNamed(users, newUsername, id)))
    {
      if userId !in users {
        return Err(UserNotFound);
      }
      var taken := GetUser(newUsername);
      if taken.Some? && taken.value != userId {
        return Err(Storage);
      }
      assert forall i | i in users && users[i].username == newUsername :: IsUserNamed(users, newUsername, i);
      users := users[userId := users[userId].(username := newUsername)];
      return Ok(());
    }

    method SetSessionDuration(d: Time)
      modifies `sessionDuration
      ensures Abstract() == Apply(old(Abstract()), SetDuration(d)) && sessionDuration == d
    {
      sessionDuration := d;
    }

    method CleanupSessions(now: Time)
      modifies `sessions
      ensures Abstract() == Apply(old(Abstract()), Cleanup(now))
      ensures forall t :: t in sessions <==> t in old(sessions) && now <= old(sessions)[t].expiresAt
    {
      sessions := WithoutExpired(sessions, now);
    }
  }

  // ---------- specification over the history ----------

  datatype Event =
    | LoggedIn(user: UserId, token: Token, expiresAt: Time)
    | LoggedOut(token: Token)
    | PasswordChanged(user: UserId)

  /** What an operation adds to the history. Validations and cleanups add nothing. */
  function Emitted(st: State, c: Command): seq<Event> {
    match c
    case Login(id, _, token, now) =>
      if LoginSucceeds(st, c) then [LoggedIn(id, token, now + st.sessionDuration)] else []
    case Logout(token) => [LoggedOut(token)]
    case ChangePassword(id, _, _) => if ChangeSucceeds(st, c) then [PasswordChanged(id)] else []
    case _ => []
  }

  function Run(st: State, cs: seq<Command>): State
    decreases |cs|
  {
    if cs == [] then st else Run(Apply(st, cs[0]), cs[1..])
  }

  function History(st: State, cs: seq<Command>): seq<Event>
    decreases |cs|
  {
    if cs == [] then [] else Emitted(st, cs[0]) + History(Apply(st, cs[0]), cs[1..])
  }

  /** Event i issued the token to u until e, and nothing revoked it since. */
  ghost predicate StandsFrom(h: seq<Event>, i: nat, token: Token, u: UserId, e: Time) {
    && i < |h| && h[i] == LoggedIn(u, token, e)
    && forall j | i < j < |h| :: h[j] != LoggedOut(token) && h[j] != PasswordChanged(u)
  }

  ghost predicate Stands(h: seq<Event>, token: Token, u: UserId, e: Time) {
    exists i: nat :: StandsFrom(h, i, token, u, e)
  }

  /** The specification: the token is good at time t, and is u's. */
  ghost predicate Accepted(h: seq<Event>, token: Token, u: UserId, t: Time) {
    exists e :: Stands(h, token, u, e) && t <= e
  }

  /** The environment: the clock never goes back from `now` on, and no login reuses a token. */
  ghost predicate Orderly(st: State, h: seq<Event>, now: Time, cs: seq<Command>)
    decreases |cs|
  {
    cs == [] ||
    var c := cs[0];
    && (Clock(c).Some? ==> now <= Clock(c).value)
    && (c.Login? ==> NeverIssued(h, c.token))
    && Orderly(Apply(st, c), h + Emitted(st, c), Later(now, c), cs[1..])
  }

  function Clock(c: Command): Option<Time> {
    match c
    case Login(_, _, _, now) => Some(now)
    case Validate(_, now) => Some(now)
    case Cleanup(now) => Some(now)
    case _ => None
  }

  function Later(now: Time, c: Command): Time {
    if Clock(c).Some? then Clock(c).value else now
  }

  ghost predicate NeverIssued(h: seq<Event>, token: Token) {
    forall i | 0 <= i < |h| :: !(h[i].LoggedIn? && h[i].token == token)
  }

  // ---------- refinement ----------

  /** The table holds only standing logins, and every standing login it lacks has expired. */
  ghost predicate Refines(st: State, h: seq<Event>, now: Time) {
    && (forall i, j | 0 <= i < j < |h| && h[i].LoggedIn? && h[j].LoggedIn? :: h[i].token != h[j].token)
    && (forall i | 0 <= i < |h| && h[i].LoggedIn? :: h[i].user in st.users)
    && (forall t | t in st.sessions :: Stands(h, t, st.sessions[t].userId, st.sessions[t].expiresAt))
    && (forall t, u, e | Stands(h, t, u, e) :: t in st.sessions || e < now)
  }

  lemma StandsAfter(h: seq<Event>, ev: Event, token: Token, u: UserId, e: Time)
    ensures Stands(h + [ev], token, u, e)
       <==> || ev == LoggedIn(u, token, e)
            || (Stands(h, token, u, e) && ev != LoggedOut(token) && ev != PasswordChanged(u))
  {
    var h' := h + [ev];
    if Stands(h', token, u, e) {
      var i: nat :| StandsFrom(h', i, token, u, e);
      if i < |h| {
        assert h'[|h|] == ev;
        assert StandsFrom(h, i, token, u, e) by {
          assert forall j | 0 <= j < |h| :: h[j] == h'[j];
        }
      }
    }
    if ev == LoggedIn(u, token, e) {
      assert StandsFrom(h', |h|, token, u, e);
    } else if Stands(h, token, u, e) && ev != LoggedOut(token) && ev != PasswordChanged(u) {
      var i: nat :| StandsFrom(h, i, token, u, e);
      assert StandsFrom(h', i, token, u, e);
    }
  }

  lemma EmptyEmission(h: seq<Event>)
    ensures h + [] == h
  {
  }

  /** A token standing for somebody stands for nobody else. */
  lemma StandsUnique(h: seq<Event>, token: Token, u: UserId, e: Time, u': UserId, e': Time)
    requires forall i, j | 0 <= i < j < |h| && h[i].LoggedIn? && h[j].LoggedIn? :: h[i].token != h[j].token
    requires Stands(h, token, u, e) && Stands(h, token, u', e')
    ensures u == u' && e == e'
  {
    var i: nat :| StandsFrom(h, i, token, u, e);
    var j: nat :| StandsFrom(h, j, token, u', e');
    assert h[i].token == h[j].token;
  }

  lemma StandingWasIssued(h: seq<Event>, token: Token, u: UserId, e: Time)
    requires Stands(h, token, u, e)
    ensures !NeverIssued(h, token)
  {
    var i: nat :| StandsFrom(h, i, token, u, e);
    assert h[i].LoggedIn? && h[i].token == token;
  }

  lemma StepWithEvent(st: State, h: seq<Event>, now: Time, c: Command, ev: Event)
    requires Refines(st, h, now) && Emitted(st, c) == [ev]
    requires Clock(c).Some? ==> now <= Clock(c).value
    requires c.Login? ==> NeverIssued(h, c.token)
    ensures Refines(Apply(st, c), h + [ev], Later(now, c))
  {
    var st', h' := Apply(st, c), h + [ev];
    forall t | t in st'.sessions
      ensures Stands(h', t, st'.sessions[t].userId, st'.sessions[t].expiresAt)
    {
      StandsAfter(h, ev, t, st'.sessions[t].userId, st'.sessions[t].expiresAt);
    }
    forall t, u, e | Stands(h', t, u, e)
      ensures t in st'.sessions || e < Later(now, c)
    {
      StandsAfter(h, ev, t, u, e);
      if t in st.sessions && Stands(h, t, u, e) {
        StandsUnique(h, t, u, e, st.sessions[t].userId, st.sessions[t].expiresAt);
      }
    }
  }

  lemma StepWithoutEvent(st: State, h: seq<Event>, now: Time, c: Command)
    requires Refines(st, h, now) && Emitted(st, c) == []
    requires Clock(c).Some? ==> now <= Clock(c).value
    ensures Refines(Apply(st, c), h, Later(now, c))
  {
    var st' := Apply(st, c);
    forall t, u, e | Stands(h, t, u, e)
      ensures t in st'.sessions || e < Later(now, c)
    {
      if t in st.sessions {
        StandsUnique(h, t, u, e, st.sessions[t].userId, st.sessions[t].expiresAt);
      }
    }
  }

  lemma RefinesStep(st: State, h: seq<Event>, now: Time, c: Command)
    requires Refines(st, h, now)
    requires Clock(c).Some? ==> now <= Clock(c).value
    requires c.Login? ==> NeverIssued(h, c.token)
    ensures Refines(Apply(st, c), h + Emitted(st, c), Later(now, c))
  {
    if Emitted(st, c) == [] {
      EmptyEmission(h);
      StepWithoutEvent(st, h, now, c);
    } else {
      StepWithEvent(st, h, now, c, Emitted(st, c)[0]);
    }
  }

  function LastClock(now: Time, cs: seq<Command>): Time
    decreases |cs|
  {
    if cs == [] then now else LastClock(Later(now, cs[0]), cs[1..])
  }

  lemma {:induction false} RefinesRun(st: State, h: seq<Event>, now: Time, cs: seq<Command>)
    requires Refines(st, h, now) && Orderly(st, h, now, cs)
    ensures Refines(Run(st, cs), h + History(st, cs), LastClock(now, cs))
    decreases |cs|
  {
    if cs == [] {
      EmptyEmission(h);
    } else {
      var c := cs[0];
      RefinesStep(st, h, now, c);
      RefinesRun(Apply(st, c), h + Emitted(st, c), Later(now, c), cs[1..]);
      assert h + Emitted(st, c) + History(Apply(st, c), cs[1..]) == h + History(st, cs);
    }
  }

  lemma ReplyRefines(st: State, h: seq<Event>, now: Time, token: Token, u: UserId, t: Time)
    requires Refines(st, h, now) && now <= t
    ensures Reply(st, token, t) == Ok(u) <==> Accepted(h, token, u, t)
  {
    if Reply(st, token, t) == Ok(u) {
      assert Stands(h, token, u, st.sessions[token].expiresAt);
    }
    if Accepted(h, token, u, t) {
      var e :| Stands(h, token, u, e) && t <= e;
      StandsUnique(h, token, u, e, st.sessions[token].userId, st.sessions[token].expiresAt);
      var i: nat :| StandsFrom(h, i, token, u, e);
      assert h[i].user in st.users;
    }
  }

  /** Over every orderly run, `ValidateToken` at time t answers user u exactly when a login of u issued
      the token, neither a logout of it nor a password change of u came since, and t is not after the
      expiry fixed at that login. */
  lemma ValidateRefinesHistory(st: State, now: Time, cs: seq<Command>, token: Token, u: UserId, t: Time)
    requires st.sessions == map[] && Orderly(st, [], now, cs) && LastClock(now, cs) <= t
    ensures Reply(Run(st, cs), token, t) == Ok(u) <==> Accepted(History(st, cs), token, u, t)
  {
    assert Refines(st, [], now) by {
      forall token, u, e ensures !Stands([], token, u, e) {}
    }
    RefinesRun(st, [], now, cs);
    assert [] + History(st, cs) == History(st, cs);
    ReplyRefines(Run(st, cs), History(st, cs), LastClock(now, cs), token, u, t);
  }

  // ---------- lazy deletion is invisible ----------

  /** The run without its validations and cleanups. */
  function Essential(cs: seq<Command>): seq<Command>
    decreases |cs|
  {
    if cs == [] then []
    else (if cs[0].Validate? || cs[0].Cleanup? then [] else [cs[0]]) + Essential(cs[1..])
  }

  /** The cleaned state has nothing but rows of the state that never cleans. */
  ghost predicate Lazier(st: State, full: State) {
    && st.users == full.users && st.sessionDuration == full.sessionDuration
    && forall t | t in st.sessions :: t in full.sessions && full.sessions[t] == st.sessions[t]
  }

  lemma LazierStep(st: State, full: State, c: Command)
    requires Lazier(st, full) && (c.Login? ==> c.token !in full.sessions)
    ensures if c.Validate? || c.Cleanup? then Lazier(Apply(st, c), full)
            else Lazier(Apply(st, c), Apply(full, c)) && Emitted(full, c) == Emitted(st, c)
  {
  }

  lemma {:induction false} EssentialHistory(st: State, full: State, h: seq<Event>, now: Time, cs: seq<Command>)
    requires Refines(full, h, now) && Lazier(st, full) && Orderly(st, h, now, cs)
    ensures History(full, Essential(cs)) == History(st, cs)
    ensures Orderly(full, h, now, Essential(cs))
    ensures LastClock(now, Essential(cs)) <= LastClock(now, cs)
    decreases |cs|, 1
  {
    if cs != [] {
      FullLacksToken(full, h, now, cs[0]);
      LazierStep(st, full, cs[0]);
      if cs[0].Validate? || cs[0].Cleanup? {
        DropFirst(st, full, h, now, cs);
      } else {
        KeepFirst(st, full, h, now, cs);
      }
    }
  }

  lemma {:induction false} DropFirst(st: State, full: State, h: seq<Event>, now: Time, cs: seq<Command>)
    requires cs != [] && (cs[0].Validate? || cs[0].Cleanup?)
    requires Refines(full, h, now) && Lazier(Apply(st, cs[0]), full) && Orderly(st, h, now, cs)
    ensures History(full, Essential(cs)) == History(st, cs)
    ensures Orderly(full, h, now, Essential(cs))
    ensures LastClock(now, Essential(cs)) <= LastClock(now, cs)
    decreases |cs|, 0
  {
    var c := cs[0];
    EmptyEmission(h);
    assert Essential(cs) == Essential(cs[1..]);
    RefinesLater(full, h, now, Later(now, c));
    EssentialHistory(Apply(st, c), full, h, Later(now, c), cs[1..]);
    OrderlyEarlier(full, h, now, Later(now, c), Essential(cs[1..]));
  }

  lemma {:induction false} KeepFirst(st: State, full: State, h: seq<Event>, now: Time, cs: seq<Command>)
    requires cs != [] && !cs[0].Validate? && !cs[0].Cleanup?
    requires Refines(full, h, now) && Orderly(st, h, now, cs)
    requires Lazier(Apply(st, cs[0]), Apply(full, cs[0])) && Emitted(full, cs[0]) == Emitted(st, cs[0])
    ensures History(full, Essential(cs)) == History(st, cs)
    ensures Orderly(full, h, now, Essential(cs))
    ensures LastClock(now, Essential(cs)) <= LastClock(now, cs)
    decreases |cs|, 0
  {
    var c := cs[0];
    var rest := Essential(cs[1..]);
    assert Essential(cs) == [c] + rest && ([c] + rest)[1..] == rest;
    RefinesStep(full, h, now, c);
    EssentialHistory(Apply(st, c), Apply(full, c), h + Emitted(st, c), Later(now, c), cs[1..]);
  }

  lemma FullLacksToken(full: State, h: seq<Event>, now: Time, c: Command)
    requires Refines(full, h, now) && (c.Login? ==> NeverIssued(h, c.token))
    ensures c.Login? ==> c.token !in full.sessions
  {
    if c.Login? && c.token in full.sessions {
      StandingWasIssued(h, c.token, full.sessions[c.token].userId, full.sessions[c.token].expiresAt);
    }
  }

  lemma RefinesLater(st: State, h: seq<Event>, now: Time, later: Time)
    requires Refines(st, h, now) && now <= later
    ensures Refines(st, h, later)
  {
  }

  lemma {:induction false} OrderlyEarlier(st: State, h: seq<Event>, now: Time, later: Time, cs: seq<Command>)
    requires now <= later && Orderly(st, h, later, cs)
    ensures Orderly(st, h, now, cs)
    ensures LastClock(now, cs) <= LastClock(later, cs)
    decreases |cs|
  {
    if cs != [] {
      OrderlyEarlier(Apply(st, cs[0]), h + Emitted(st, cs[0]), Later(now, cs[0]), Later(later, cs[0]), cs[1..]);
    }
  }

  /** Lazy deletion and `CleanupSessions` never change an answer: dropping every validation and cleanup
      from a run leaves what is accepted afterwards, and for whom, unchanged. */
  lemma LazyDeletionInvisible(st: State, now: Time, cs: seq<Command>, token: Token, u: UserId, t: Time)
    requires st.sessions == map[] && Orderly(st, [], now, cs) && LastClock(now, cs) <= t
    ensures Reply(Run(st, cs), token, t) == Ok(u) <==> Reply(Run(st, Essential(cs)), token, t) == Ok(u)
  {
    assert Refines(st, [], now) by {
      forall token, u, e ensures !Stands([], token, u, e) {}
    }
    EssentialHistory(st, st, [], now, cs);
    ValidateRefinesHistory(st, now, cs, token, u, t);
    ValidateRefinesHistory(st, now, Essential(cs), token, u, t);
  }
}
