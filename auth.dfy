/**
 * The authentication endpoints of the server as transitions over a user
 * store and a session: `viewer` reads the session user, `login` checks a
 * password and stores the user in the session, `logout` clears the session
 * and `register` creates an account, the first one as server owner.
 */
module Auth {
  import opened Wrappers

  /** The roles an account can have. */
  datatype UserRole = ServerOwner | Member

  /** The role an account gets unless it is the first one. */
  const DefaultRole: UserRole := Member

  /** The errors the endpoints answer with. */
  datatype ApiError = Unauthorized | Forbidden(message: string) | InternalError

  /** An endpoint's answer. */
  datatype ApiResult<T> = Ok(value: T) | Err(error: ApiError)

  const ForbiddenMessage: string := "Must be server owner to register member accounts"

  /** A row of the user table. */
  datatype UserRecord = UserRecord(id: nat, username: string, hashedPassword: string, role: UserRole)

  /** A user as the endpoints return it and the session stores it. */
  datatype User = User(id: nat, username: string, role: UserRole, hasPreferences: bool)

  /** The session already holds the user with this name. */
  predicate SessionHolds(session: Option<User>, username: string) {
    session.Some? && session.value.username == username
  }

  /** Every successful hash verifies against the password it was made from. */
  ghost predicate VerifiesOwnHashes(hash: (string, nat) -> Option<string>, verify: (string, string) -> Option<bool>) {
    forall p, c :: hash(p, c).Some? ==> verify(hash(p, c).value, p) == Some(true)
  }

  class AuthService {
    /** Checks a password against a stored hash; `None` is a failure of the check. */
    const verifyPassword: (string, string) -> Option<bool>
    /** Hashes a password at a cost; `None` is a failure of the hashing. */
    const hashPassword: (string, nat) -> Option<string>
    /** The configured hashing cost. */
    const hashCost: nat

    /** The user table, by username. */
    var users: map<string, UserRecord>
    /** The ids of the users that have a preferences record. */
    var preferences: set<nat>
    /** The id the store gives the next user it creates. */
    var nextId: nat
    /** The user stored in the caller's session, if any. */
    var session: Option<User>

    /** The store is well formed: keyed by username, with unique ids already given out. */
    ghost predicate Valid()
      reads this
    {
      && (forall name :: name in users ==> users[name].username == name && users[name].id < nextId)
      && (forall a, b :: a in users && b in users && users[a].id == users[b].id ==> a == b)
      && (forall id :: id in preferences ==> id < nextId)
    }

    /** A non-empty store has exactly one server owner. */
    ghost predicate SingleOwner()
      reads this
    {
      && (users != map[] ==> exists name :: name in users && users[name].role == ServerOwner)
      && (forall a, b ::
            a in users && b in users && users[a].role == ServerOwner && users[b].role == ServerOwner
            ==> a == b)
    }

    /**
     * A user row as returned with its preferences fetched: the same id, name
     * and role, without the password hash, and flagged as having preferences
     * iff a preferences record is linked to the id.
     */
    function ToUser(record: UserRecord): (u: User)
      reads this
      ensures u.id == record.id && u.username == record.username && u.role == record.role
      ensures u.hasPreferences <==> record.id in preferences
    {
      User(record.id, record.username, record.role, record.id in preferences)
    }

    /** A server with an empty store and no session. */
    constructor (verifyPassword: (string, string) -> Option<bool>, hashPassword: (string, nat) -> Option<string>, hashCost: nat)
      ensures Valid() && SingleOwner()
      ensures users == map[] && preferences == {} && session.None?
      ensures this.verifyPassword == verifyPassword && this.hashPassword == hashPassword
      ensures this.hashCost == hashCost
    {
      this.verifyPassword := verifyPassword;
      this.hashPassword := hashPassword;
      this.hashCost := hashCost;
      users := map[];
      preferences := {};
      nextId := 0;
      session := None;
    }

    /** The session user, or Unauthorized without one; reads the state only. */
    method Viewer() returns (r: ApiResult<User>)
      ensures session.Some? ==> r == Ok(session.value)
      ensures session.None? ==> r == Err(Unauthorized)
    {
      if session.Some? {
        r := Ok(session.value);
      } else {
        r := Err(Unauthorized);
      }
    }

    /**
     * Logs a user in. A session that already holds this username answers at
     * once; otherwise an unknown name or a wrong password is Unauthorized and
     * a correct one replaces the session user. Only a success changes the
     * session.
     */
    method Login(username: string, password: string) returns (r: ApiResult<User>)
      requires Valid()
      modifies this`session
      ensures Valid()
      ensures SessionHolds(old(session), username) ==>
        r == Ok(old(session).value) && session == old(session)
      ensures !SessionHolds(old(session), username) && username !in users ==>
        r == Err(Unauthorized)
      ensures !SessionHolds(old(session), username) && username in users ==>
        match verifyPassword(users[username].hashedPassword, password)
        case None => r == Err(InternalError)
        case Some(false) => r == Err(Unauthorized)
        case Some(true) => r == Ok(ToUser(users[username]))
      ensures r.Ok? ==> session == Some(r.value) && r.value.username == username
      ensures r.Err? ==> session == old(session)
    {
      if session.Some? && username == session.value.username {
        return Ok(session.value);
      }
      if username in users {
        var record := users[username];
        var matches := verifyPassword(record.hashedPassword, password);
        if matches.None? {
          return Err(InternalError);
        }
        if !matches.value {
          return Err(Unauthorized);
        }
        var user := ToUser(record);
        session := Some(user);
        return Ok(user);
      }
      r := Err(Unauthorized);
    }

    /** Ends the session; always succeeds. */
    method Logout() returns (r: ApiResult<()>)
      modifies this`session
      ensures session.None?
      ensures r == Ok(())
    {
      session := None;
      r := Ok(());
    }

    /**
     * Creates an account. Without a session user, only the first account may
     * be registered, and it becomes the server owner; later accounts get the
     * default role. A successful registration adds exactly one user row and a
     * preferences record linked to it; the session is only read.
     */
    method Register(username: string, password: string) returns (r: ApiResult<User>)
      requires Valid()
      modifies this`users, this`preferences, this`nextId
      ensures Valid()
      ensures session == old(session)
      ensures old(users) != map[] && session.None? ==> r == Err(Forbidden(ForbiddenMessage))
      ensures r.Ok? <==>
        && (old(users) == map[] || session.Some?)
        && hashPassword(password, hashCost).Some?
        && username !in old(users)
      ensures r.Err? ==> users == old(users) && preferences == old(preferences) && nextId == old(nextId)
      ensures r.Err? && (old(users) == map[] || session.Some?) ==> r == Err(InternalError)
      ensures r.Ok? ==>
        var role := if old(users) == map[] then ServerOwner else DefaultRole;
        var created := UserRecord(old(nextId), username, hashPassword(password, hashCost).value, role);
        && users == old(users)[username := created]
        && preferences == old(preferences) + {created.id}
        && r.value == User(created.id, username, role, true)
      ensures old(SingleOwner()) ==> SingleOwner()
    {
      var hasUsers := users != map[];
      var userRole := DefaultRole;
      if session.None? && hasUsers {
        return Err(Forbidden(ForbiddenMessage));
      } else if !hasUsers {
        userRole := ServerOwner;
      }
      var hashed := hashPassword(password, hashCost);
      if hashed.None? {
        return Err(InternalError);
      }
      if username in users {
        // the username column is unique: the store refuses the row
        return Err(InternalError);
      }
      ghost var wasSingleOwner := SingleOwner();
      ghost var oldUsers := users;
      var created := UserRecord(nextId, username, hashed.value, userRole);
      users := users[username := created];
      nextId := nextId + 1;
      preferences := preferences + {created.id};
      if wasSingleOwner && hasUsers {
        var owner :| owner in oldUsers && oldUsers[owner].role == ServerOwner;
        assert owner != username && users[owner].role == ServerOwner;
      }
      r := Ok(ToUser(created));
    }
  }

  /**
   * The onboarding of a fresh server: the first account becomes the owner, an
   * anonymous second registration is refused, the owner logs in with the
   * password just set and then registers a member.
   */
  method OwnerOnboarding(svc: AuthService, owner: string, ownerPassword: string, member: string, memberPassword: string)
    returns (first: ApiResult<User>, anonymous: ApiResult<User>, login: ApiResult<User>, second: ApiResult<User>)
    requires svc.Valid() && svc.users == map[] && svc.session.None?
    requires VerifiesOwnHashes(svc.hashPassword, svc.verifyPassword)
    requires svc.hashPassword(ownerPassword, svc.hashCost).Some?
    requires svc.hashPassword(memberPassword, svc.hashCost).Some?
    requires owner != member
    modifies svc
    ensures first.Ok? && first.value.role == ServerOwner
    ensures anonymous == Err(Forbidden(ForbiddenMessage))
    ensures login == first && svc.session == Some(first.value)
    ensures second.Ok? && second.value.role == DefaultRole
    ensures svc.users.Keys == {owner, member} && svc.SingleOwner()
  {
    first := svc.Register(owner, ownerPassword);
    anonymous := svc.Register(member, memberPassword);
    login := svc.Login(owner, ownerPassword);
    second := svc.Register(member, memberPassword);
  }
}
