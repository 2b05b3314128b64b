// The account store: users, their sessions and two-factor enrolment, one call at a time.
module AuthStore {
  import opened Wrappers

  // A row of the user table; its place stands for the id. Passwords stand for their hashes.
  datatype User = User(email: string, password: string, role: string, active: bool,
                       totpSecret: Option<string>, totpEnabled: bool, recoveryCodes: seq<string>,
                       createdAt: int, lastActiveAt: Option<int>)

  datatype Session = Session(user: nat, expiresAt: int, lastSeenAt: int)

  datatype Store = Store(users: seq<User>, sessions: map<string, Session>)

  // The shape test of addresses and the check of a one-time code.
  datatype Rules = Rules(validEmail: string -> bool, totpOk: (string, string, int) -> bool, sessionTtl: int)

  datatype Error = InvalidEmail | PasswordTooShort | InvalidRole | EmailAlreadyExists | UnknownUser
                 | LastAdminRequired | TotpNotStarted | InvalidCode | InvalidPassword | DuplicateToken

  const MIN_PASSWORD_LENGTH: nat := 12

  predicate ActiveAdmin(u: User) { u.role == "admin" && u.active }

  function CountActiveAdmins(users: seq<User>): nat {
    if users == [] then 0
    else CountActiveAdmins(users[..|users| - 1]) + if ActiveAdmin(users[|users| - 1]) then 1 else 0
  }

  predicate KnownRole(role: string) { role == "admin" || role == "member" }

  function WithoutSessionsOf(sessions: map<string, Session>, user: nat): map<string, Session> {
    map t | t in sessions && sessions[t].user != user :: sessions[t]
  }

  // Those of one user are gone, all others stay.
  ghost predicate OnlyEnds(before: map<string, Session>, after: map<string, Session>, user: nat) {
    && (forall t :: t in after <==> t in before && before[t].user != user)
    && (forall t :: t in after ==> after[t] == before[t])
  }

  // No active admin but this user.
  predicate LastAdmin(users: seq<User>, id: nat) {
    && id < |users| && users[id].role == "admin" && users[id].active
    && forall k :: 0 <= k < |users| && k != id ==> !(users[k].role == "admin" && users[k].active)
  }

  lemma {:induction false} CountOthers(users: seq<User>, id: nat)
    requires id < |users| && ActiveAdmin(users[id])
    ensures CountActiveAdmins(users) <= 1 <==> LastAdmin(users, id)
  {
    var n := |users| - 1;
    var others := users[..n];
    assert users == others + [users[n]];
    if id == n {
      NoneCounts(others);
    } else {
      CountOthers(others, id);
      NoneCounts(others);
      assert others[id] == users[id];
    }
  }

  lemma {:induction false} NoneCounts(users: seq<User>)
    ensures CountActiveAdmins(users) == 0 <==> forall k :: 0 <= k < |users| ==> !ActiveAdmin(users[k])
  {
    if users != [] { NoneCounts(users[..|users| - 1]); }
  }

  // ---------------------------------------------------------------- one call

  datatype Call =
    | CreateUser(email: string, password: string, role: string, now: int)
    | UpdateUser(id: nat, newRole: Option<string>, newActive: Option<bool>, newPassword: Option<string>)
    | StartTotp(id: nat, secret: string)
    | ConfirmTotp(id: nat, code: string, now: int, freshCodes: seq<string>)
    | DisableTotp(id: nat, password: string)
    | CreateSession(id: nat, token: string, now: int)
    | GetSession(token: string, now: int)
    | DeleteSession(token: string)
    | Reopen

  function UpdatedUser(u: User, c: Call): User
    requires c.UpdateUser?
  {
    u.(role := if c.newRole.Some? then c.newRole.value else u.role,
       active := if c.newActive.Some? then c.newActive.value else u.active,
       password := if c.newPassword.Some? then c.newPassword.value else u.password)
  }

  function UpdateError(s: Store, c: Call): Option<Error>
    requires c.UpdateUser?
  {
    if c.id >= |s.users| then Some(UnknownUser)
    else
      var u, u' := s.users[c.id], UpdatedUser(s.users[c.id], c);
      if !KnownRole(u'.role) then Some(InvalidRole)
      else if c.newPassword.Some? && |c.newPassword.value| < MIN_PASSWORD_LENGTH then Some(PasswordTooShort)
      else if ActiveAdmin(u) && !ActiveAdmin(u') && CountActiveAdmins(s.users) <= 1 then Some(LastAdminRequired)
      else None
  }

  function CreateError(r: Rules, s: Store, c: Call): Option<Error>
    requires c.CreateUser?
  {
    if !r.validEmail(c.email) then Some(InvalidEmail)
    else if |c.password| < MIN_PASSWORD_LENGTH then Some(PasswordTooShort)
    else if !KnownRole(c.role) then Some(InvalidRole)
    else if exists i :: 0 <= i < |s.users| && s.users[i].email == c.email then Some(EmailAlreadyExists)
    else None
  }

  function ConfirmError(r: Rules, s: Store, c: Call): Option<Error>
    requires c.ConfirmTotp?
  {
    if c.id >= |s.users| || s.users[c.id].totpSecret.None? then Some(TotpNotStarted)
    else if !r.totpOk(s.users[c.id].totpSecret.value, c.code, c.now) then Some(InvalidCode)
    else None
  }

  function DisableError(s: Store, c: Call): Option<Error>
    requires c.DisableTotp?
  {
    if c.id >= |s.users| || s.users[c.id].password != c.password then Some(InvalidPassword) else None
  }

  // The oldest user, whom opening a store without an active admin promotes.
  predicate Oldest(users: seq<User>, i: nat) {
    i < |users| && forall k :: 0 <= k < |users| ==> users[i].createdAt <= users[k].createdAt
  }

  function Promoted(u: User): User { u.(role := "admin", active := true) }

  ghost predicate Reopened(s: Store, s': Store) {
    if CountActiveAdmins(s.users) > 0 || s.users == [] then s' == s
    else exists i: nat :: Oldest(s.users, i) && s' == s.(users := s.users[i := Promoted(s.users[i])])
  }

  // The token is known and its user active.
  predicate OfActiveUser(s: Store, token: string) {
    token in s.sessions && s.sessions[token].user < |s.users| && s.users[s.sessions[token].user].active
  }

  // Every call but the reopening of the store.
  function Next(r: Rules, s: Store, c: Call): Store
    requires !c.Reopen?
  {
    match c
    case CreateUser(email, password, role, now) =>
      if CreateError(r, s, c).Some? then s
      else s.(users := s.users + [User(email, password, role, true, None, false, [], now, None)])
    case UpdateUser(id, _, _, password) =>
      if UpdateError(s, c).Some? then s
      else
        var u, u' := s.users[id], UpdatedUser(s.users[id], c);
        Store(s.users[id := u'],
              if password.Some? || !u'.active || u'.role != u.role then WithoutSessionsOf(s.sessions, id)
                  else s.sessions)
    case StartTotp(id, secret) =>
      if id >= |s.users| then s
      else s.(users := s.users[id := s.users[id].(totpSecret := Some(secret), totpEnabled := false,
          recoveryCodes := [])])
    case ConfirmTotp(id, _, _, codes) =>
      if ConfirmError(r, s, c).Some? then s
      else Store(s.users[id := s.users[id].(totpEnabled := true, recoveryCodes := codes)],
          WithoutSessionsOf(s.sessions, id))
    case DisableTotp(id, _) =>
      if DisableError(s, c).Some? then s
      else Store(s.users[id := s.users[id].(totpSecret := None, totpEnabled := false, recoveryCodes := [])],
          WithoutSessionsOf(s.sessions, id))
    case CreateSession(id, token, now) =>
      if id >= |s.users| || token in s.sessions then s
      else s.(sessions := s.sessions[token := Session(id, now + r.sessionTtl, now)])
    case GetSession(token, now) =>
      if !OfActiveUser(s, token) then s
      else if s.sessions[token].expiresAt <= now then s.(sessions := s.sessions - {token})
      else
        var id := s.sessions[token].user;
        Store(s.users[id := s.users[id].(lastActiveAt := Some(now))],
              s.sessions[token := s.sessions[token].(lastSeenAt := now)])
    case DeleteSession(token) => s.(sessions := s.sessions - {token})
  }

  // The last active admin stays one; otherwise what is given replaces what was there, and the user's sessions end
  // with a new password, a change of role, or when the user is not active.
  ghost predicate UpdateMeans(s: Store, s': Store, id: nat, role: Option<string>, active: Option<bool>,
      password: Option<string>, error: Option<Error>)
  {
    if id >= |s.users| then error == Some(UnknownUser) && s' == s
    else
      var u := s.users[id];
      var newRole := if role.Some? then role.value else u.role;
      var newActive := if active.Some? then active.value else u.active;
      if newRole != "admin" && newRole != "member" then error == Some(InvalidRole) && s' == s
      else if password.Some? && |password.value| < 12 then error == Some(PasswordTooShort) && s' == s
      else if LastAdmin(s.users, id) && (newRole == "member" || !newActive) then
        error == Some(LastAdminRequired) && s' == s
      else
        && error == None
        && s'.users == s.users[id := u.(role := newRole, active := newActive,
                                        password := if password.Some? then password.value else u.password)]
        && if password.Some? || newRole != u.role || !newActive then OnlyEnds(s.sessions, s'.sessions, id)
           else s'.sessions == s.sessions
  }

  lemma UpdateSays(r: Rules, s: Store, id: nat, role: Option<string>, active: Option<bool>, password: Option<string>)
    ensures var c := UpdateUser(id, role, active, password);
            UpdateMeans(s, Next(r, s, c), id, role, active, password, UpdateError(s, c))
  {
    if id < |s.users| && ActiveAdmin(s.users[id]) { CountOthers(s.users, id); }
  }

  class Accounts {
    const rules: Rules
    var users: seq<User>
    var sessions: map<string, Session>

    ghost function Abstract(): Store
      reads this
    {
      Store(users, sessions)
    }

    constructor (rules: Rules, users: seq<User>, sessions: map<string, Session>)
      ensures this.rules == rules && Reopened(Store(users, sessions), Abstract())
    {
      this.rules, this.users, this.sessions := rules, users, sessions;
      new;
      EnsureAdminExists();
    }

    method CountAdmins() returns (n: nat)
      ensures n == CountActiveAdmins(users)
    {
      n := 0;
      var i := 0;
      while i < |users|
        invariant 0 <= i <= |users| && n == CountActiveAdmins(users[..i])
      {
        assert users[..i + 1][..i] == users[..i];
        if ActiveAdmin(users[i]) { n := n + 1; }
        i := i + 1;
      }
      assert users[..i] == users;
    }

    method EnsureAdminExists()
      modifies this`users
      ensures Reopened(old(Abstract()), Abstract())
      ensures (exists k :: 0 <= k < |old(users)| && old(users)[k].role == "admin" && old(users)[k].active) ==>
                users == old(users)
      ensures users == old(users)
          || exists i: nat ::
               Oldest(old(users), i) && users == old(users)[i := old(users)[i].(role := "admin", active := true)]
    {
      NoneCounts(users);
      var n := CountAdmins();
      if n > 0 || users == [] {
        return;
      }
      var first := 0;
      var k := 1;
      while k < |users|
        invariant 1 <= k <= |users| && first < k
        invariant forall m :: 0 <= m < k ==> users[first].createdAt <= users[m].createdAt
      {
        if users[k].createdAt < users[first].createdAt { first := k; }
        k := k + 1;
      }
      assert Oldest(users, first);
      users := users[first := Promoted(users[first])];
    }

    method DeleteUserSessions(id: nat)
      modifies this`sessions
      ensures sessions == WithoutSessionsOf(old(sessions), id)
    {
      sessions := map t | t in sessions && sessions[t].user != id :: sessions[t];
    }

    method UpdateUserRow(id: nat, role: Option<string>, active: Option<bool>, password: Option<string>)
        returns (error: Option<Error>)
      modifies this
      ensures error == UpdateError(old(Abstract()), UpdateUser(id, role, active, password))
      ensures Abstract() == Next(rules, old(Abstract()), UpdateUser(id, role, active, password))
      ensures UpdateMeans(old(Abstract()), Abstract(), id, role, active, password, error)
    {
      UpdateSays(rules, Abstract(), id, role, active, password);
      if id >= |users| {
        return Some(UnknownUser);
      }
      var user := users[id];
      var newRole := if role.Some? then role.value else user.role;
      var newActive := if active.Some? then active.value else user.active;
      if !KnownRole(newRole) {
        return Some(InvalidRole);
      }
      if password.Some? && |password.value| < MIN_PASSWORD_LENGTH {
        return Some(PasswordTooShort);
      }
      if user.role == "admin" && user.active && (newRole != "admin" || !newActive) {
        var admins := CountAdmins();
        if admins <= 1 {
          return Some(LastAdminRequired);
        }
      }
      users := users[id := user.(role := newRole, active := newActive,
                                 password := if password.Some? then password.value else user.password)];
      if password.Some? || !newActive || newRole != user.role {
        DeleteUserSessions(id);
      }
      error := None;
    }

    method ConfirmTotpEnrollment(id: nat, code: string, now: int, freshCodes: seq<string>)
        returns (error: Option<Error>)
      modifies this
      ensures error == ConfirmError(rules, old(Abstract()), ConfirmTotp(id, code, now, freshCodes))
      ensures Abstract() == Next(rules, old(Abstract()), ConfirmTotp(id, code, now, freshCodes))
      ensures error == None <==> id < |old(users)| && old(users)[id].totpSecret.Some?
                                 && rules.totpOk(old(users)[id].totpSecret.value, code, now)
      ensures error.Some? ==> users == old(users) && sessions == old(sessions)
      ensures error == None ==>
                && users == old(users)[id := old(users)[id].(totpEnabled := true, recoveryCodes := freshCodes)]
                && OnlyEnds(old(sessions), sessions, id)
    {
      if id >= |users| || users[id].totpSecret.None? {
        return Some(TotpNotStarted);
      }
      if !rules.totpOk(users[id].totpSecret.value, code, now) {
        return Some(InvalidCode);
      }
      users := users[id := users[id].(totpEnabled := true, recoveryCodes := freshCodes)];
      DeleteUserSessions(id);
      error := None;
    }

    method DisableTotpFor(id: nat, password: string) returns (error: Option<Error>)
      modifies this
      ensures error == DisableError(old(Abstract()), DisableTotp(id, password))
      ensures Abstract() == Next(rules, old(Abstract()), DisableTotp(id, password))
      ensures error == None <==> id < |old(users)| && old(users)[id].password == password
      ensures error.Some? ==> users == old(users) && sessions == old(sessions)
      ensures error == None ==>
                && users == old(users)[id := old(users)[id].(totpSecret := None, totpEnabled := false,
                    recoveryCodes := [])]
                && OnlyEnds(old(sessions), sessions, id)
    {
      if id >= |users| || users[id].password != password {
        return Some(InvalidPassword);
      }
      users := users[id := users[id].(totpSecret := None, totpEnabled := false, recoveryCodes := [])];
      DeleteUserSessions(id);
      error := None;
    }

    method OpenSession(id: nat, token: string, now: int) returns (error: Option<Error>)
      modifies this`sessions
      ensures error.None? <==> id < |users| && token !in old(sessions)
      ensures Abstract() == Next(rules, old(Abstract()), CreateSession(id, token, now))
      ensures sessions == if error.None? then old(sessions)[token := Session(id, now + rules.sessionTtl, now)]
                          else old(sessions)
    {
      if id >= |users| {
        return Some(UnknownUser);
      }
      if token in sessions {
        return Some(DuplicateToken);
      }
      sessions := sessions[token := Session(id, now + rules.sessionTtl, now)];
      error := None;
    }

    // The session of a token: present, of an active user and not expired.
    method FindSession(token: string, now: int) returns (user: Option<nat>)
      modifies this
      ensures Abstract() == Next(rules, old(Abstract()), GetSession(token, now))
      ensures user.Some? <==> OfActiveUser(old(Abstract()), token) && old(sessions)[token].expiresAt > now
      ensures user.Some? ==>
                && user.value == old(sessions)[token].user
                && sessions == old(sessions)[token := old(sessions)[token].(lastSeenAt := now)]
                && users == old(users)[user.value := old(users)[user.value].(lastActiveAt := Some(now))]
      ensures user.None? ==>
                && users == old(users)
                && sessions == if OfActiveUser(old(Abstract()), token) then old(sessions) - {token} else old(sessions)
    {
      if token !in sessions || sessions[token].user >= |users| || !users[sessions[token].user].active {
        return None;
      }
      var row := sessions[token];
      if row.expiresAt <= now {
        sessions := sessions - {token};
        return None;
      }
      sessions := sessions[token := row.(lastSeenAt := now)];
      users := users[row.user := users[row.user].(lastActiveAt := Some(now))];
      user := Some(row.user);
    }
  }

  // ---------------------------------------------------------------- runs

  ghost predicate Leads(r: Rules, s: Store, c: Call, s': Store) {
    if c.Reopen? then Reopened(s, s') else s' == Next(r, s, c)
  }

  // The stores a run goes through.
  ghost predicate IsRun(r: Rules, stores: seq<Store>, calls: seq<Call>) {
    |stores| == |calls| + 1 && forall i :: 0 <= i < |calls| ==> Leads(r, stores[i], calls[i], stores[i + 1])
  }

  predicate HasSession(s: Store, id: nat) { exists t :: t in s.sessions && s.sessions[t].user == id }

  // The call set the user's password, changed its role or deactivated it, or its second factor was confirmed,
  // disabled or otherwise switched off.
  predicate Changes(r: Rules, s: Store, c: Call, s': Store, id: nat) {
    && id < |s.users| && id < |s'.users|
    && var u, u' := s.users[id], s'.users[id];
       || u'.password != u.password || u'.role != u.role || (u.active && !u'.active)
       || (u.totpEnabled && !u'.totpEnabled)
       || (c.ConfirmTotp? && c.id == id && ConfirmError(r, s, c).None?)
       || (c.UpdateUser? && c.id == id && c.newPassword.Some? && UpdateError(s, c).None?)
       || (c.DisableTotp? && c.id == id && DisableError(s, c).None?)
  }

  // The two calls that change a user and leave its sessions alone: opening the store, which may promote it,
  // and starting another enrolment, which switches its second factor off.
  predicate Spares(c: Call, id: nat) { c.Reopen? || (c.StartTotp? && c.id == id) }

  lemma ChangeEndsSessions(r: Rules, s: Store, c: Call, s': Store, id: nat)
    requires Leads(r, s, c, s') && !Spares(c, id) && Changes(r, s, c, s', id)
    ensures !HasSession(s', id)
  {
  }

  // A change ends the user's sessions if and only if it is not one of these two calls on a user with one.
  lemma ChangeEndsSessionsIff(r: Rules, s: Store, c: Call, s': Store, id: nat)
    requires Leads(r, s, c, s') && Changes(r, s, c, s', id)
    ensures !HasSession(s', id) <==> !(Spares(c, id) && HasSession(s, id))
  {
    if Spares(c, id) {
      assert s'.sessions == s.sessions;
    } else {
      ChangeEndsSessions(r, s, c, s', id);
    }
  }

  const NEVER := Rules(email => false, (secret, code, now) => false, 0)

  // A member with a session, promoted when the store is opened.
  lemma PromotionKeepsSession(token: string)
    ensures var u := User("a", "p", "member", true, None, false, [], 0, None);
            var s := Store([u], map[token := Session(0, 9, 0)]);
            var s' := s.(users := [Promoted(u)]);
            Leads(NEVER, s, Reopen, s') && Changes(NEVER, s, Reopen, s', 0) && HasSession(s', 0)
  {
    var u := User("a", "p", "member", true, None, false, [], 0, None);
    var s := Store([u], map[token := Session(0, 9, 0)]);
    assert Oldest(s.users, 0) && s.users[0 := Promoted(u)] == [Promoted(u)];
    assert s.users[..0] == [];
    assert token in s.sessions && s.sessions[token].user == 0;
    assert CountActiveAdmins(s.users) == 0;
  }

  // An enrolled user with a session, starting another enrolment.
  lemma NewEnrolmentKeepsSession(token: string)
    ensures var u := User("a", "p", "member", true, Some("x"), true, [], 0, None);
            var s := Store([u], map[token := Session(0, 9, 0)]);
            var s' := Next(NEVER, s, StartTotp(0, "y"));
            Changes(NEVER, s, StartTotp(0, "y"), s', 0) && HasSession(s', 0)
  {
    var u := User("a", "p", "member", true, Some("x"), true, [], 0, None);
    var s := Store([u], map[token := Session(0, 9, 0)]);
    var s' := Next(NEVER, s, StartTotp(0, "y"));
    assert token in s'.sessions && s'.sessions[token].user == 0;
  }

  // Tokens only appear through the opening of a session.
  lemma StepOpens(r: Rules, s: Store, c: Call, s': Store, token: string)
    requires Leads(r, s, c, s') && token in s'.sessions
    ensures || (token in s.sessions && s.sessions[token].user == s'.sessions[token].user)
            || (c.CreateSession? && c.token == token && c.id == s'.sessions[token].user)
  {
  }

  ghost predicate OpenedIn(calls: seq<Call>, from: nat, token: string, id: nat) {
    exists i :: from <= i < |calls| && calls[i].CreateSession? && calls[i].token == token && calls[i].id == id
  }

  lemma {:induction false} SessionsAreOpened(r: Rules, stores: seq<Store>, calls: seq<Call>, from: nat, token: string)
    requires IsRun(r, stores, calls) && from <= |calls| && token in stores[|calls|].sessions
    ensures || (token in stores[from].sessions
        && stores[from].sessions[token].user == stores[|calls|].sessions[token].user)
            || OpenedIn(calls, from, token, stores[|calls|].sessions[token].user)
    decreases |calls| - from
  {
    if from < |calls| {
      SessionsAreOpened(r, stores, calls, from + 1, token);
      assert Leads(r, stores[from], calls[from], stores[from + 1]);
      if token in stores[from + 1].sessions
          && stores[from + 1].sessions[token].user == stores[|calls|].sessions[token].user {
        StepOpens(r, stores[from], calls[from], stores[from + 1], token);
      }
    }
  }

  // At the end of any run, a session was opened after every change its user went through, promotions when
  // the store was opened and new enrolments aside.
  lemma SessionsAreYounger(r: Rules, stores: seq<Store>, calls: seq<Call>, k: nat, token: string)
    requires IsRun(r, stores, calls) && k < |calls| && token in stores[|calls|].sessions
    requires !Spares(calls[k], stores[|calls|].sessions[token].user)
    requires Changes(r, stores[k], calls[k], stores[k + 1], stores[|calls|].sessions[token].user)
    ensures OpenedIn(calls, k + 1, token, stores[|calls|].sessions[token].user)
  {
    var id := stores[|calls|].sessions[token].user;
    assert Leads(r, stores[k], calls[k], stores[k + 1]);
    ChangeEndsSessions(r, stores[k], calls[k], stores[k + 1], id);
    SessionsAreOpened(r, stores, calls, k + 1, token);
  }

  // ---------------------------------------------------------------- the last admin

  ghost predicate SomeActiveAdmin(users: seq<User>) { exists i :: 0 <= i < |users| && ActiveAdmin(users[i]) }

  lemma {:induction false} CountFinds(users: seq<User>)
    ensures CountActiveAdmins(users) > 0 <==> SomeActiveAdmin(users)
  {
    if users != [] {
      var n := |users| - 1;
      CountFinds(users[..n]);
      assert forall i :: 0 <= i < n ==> users[..n][i] == users[i];
    }
  }

  lemma {:induction false} CountUpdate(users: seq<User>, i: nat, u: User)
    requires i < |users|
    ensures CountActiveAdmins(users[i := u]) + (if ActiveAdmin(users[i]) then 1 else 0) ==
            CountActiveAdmins(users) + (if ActiveAdmin(u) then 1 else 0)
  {
    var n := |users| - 1;
    if i < n {
      assert users[i := u][..n] == users[..n][i := u];
      CountUpdate(users[..n], i, u);
    } else {
      assert users[i := u][..n] == users[..n];
    }
  }

  lemma StepKeepsAdmin(r: Rules, s: Store, c: Call, s': Store)
    requires Leads(r, s, c, s') && SomeActiveAdmin(s.users)
    ensures SomeActiveAdmin(s'.users)
  {
    CountFinds(s.users);
    CountFinds(s'.users);
    match c
    case CreateUser(_, _, _, _) =>
      var i :| 0 <= i < |s.users| && ActiveAdmin(s.users[i]);
      assert s'.users[i] == s.users[i];
    case UpdateUser(id, _, _, _) => if id < |s.users| { CountUpdate(s.users, id, s'.users[id]); }
    case StartTotp(id, _) => if id < |s.users| { CountUpdate(s.users, id, s'.users[id]); }
    case ConfirmTotp(id, _, _, _) => if id < |s.users| { CountUpdate(s.users, id, s'.users[id]); }
    case DisableTotp(id, _) => if id < |s.users| { CountUpdate(s.users, id, s'.users[id]); }
    case GetSession(token, _) =>
      if OfActiveUser(s, token) { CountUpdate(s.users, s.sessions[token].user, s'.users[s.sessions[token].user]); }
    case _ =>
  }

  // Once there is an active admin there always is one.
  lemma {:induction false} AdminRemains(r: Rules, stores: seq<Store>, calls: seq<Call>, k: nat)
    requires IsRun(r, stores, calls) && k <= |calls| && SomeActiveAdmin(stores[0].users)
    ensures SomeActiveAdmin(stores[k].users)
  {
    if k > 0 {
      AdminRemains(r, stores, calls, k - 1);
      assert Leads(r, stores[k - 1], calls[k - 1], stores[k]);
      StepKeepsAdmin(r, stores[k - 1], calls[k - 1], stores[k]);
    }
  }

  // And opening a store with any user in it makes sure there is one.
  lemma ReopeningFindsAdmin(s: Store, s': Store)
    requires Reopened(s, s') && s.users != []
    ensures SomeActiveAdmin(s'.users)
  {
    CountFinds(s.users);
    if CountActiveAdmins(s.users) == 0 {
      var i: nat :| Oldest(s.users, i) && s' == s.(users := s.users[i := Promoted(s.users[i])]);
      assert ActiveAdmin(s'.users[i]);
    }
  }
}
