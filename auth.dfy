/**
 * Role-based permission checks and the decision logic of `authenticate`
 * (auth.py, copied in app.py:151-206). The database query and the JWT
 * library are abstracted: the query arrives as its outcome, token creation
 * as a function that either yields the token's claims or raises.
 */
module Auth {
  import opened Basics
  import opened Config

  /** `config.ROLES.get(role, [])`: every configured role holds something, an unknown one nothing. */
  function RolePermissions(role: string): (held: seq<string>)
    ensures held == [] <==> role !in ROLES
    ensures role in ROLES ==> held == ROLES[role]
  {
    if role in ROLES then ROLES[role] else []
  }

  /** `AuthSystem.check_permission`. */
  function CheckPermission(role: string, permission: string): (granted: bool)
    ensures role == "owner" ==> granted
    ensures role !in ROLES ==> !granted
    ensures role in ROLES && role != "owner" ==> (granted <==> permission in ROLES[role])
  {
    var held := RolePermissions(role);
    if "*" in held then true else permission in held
  }

  /** The roles from least to most privileged. */
  const HIERARCHY: seq<string> := ["viewer", "agent", "manager", "admin", "owner"]

  lemma PermissionStep(k: nat, permission: string)
    requires k + 1 < |HIERARCHY|
    ensures CheckPermission(HIERARCHY[k], permission) ==> CheckPermission(HIERARCHY[k + 1], permission)
  {
    RolesNest();
  }

  /** Whatever a role is granted, every role above it is granted too. */
  lemma {:induction false} PermissionMonotone(lo: nat, hi: nat, permission: string)
    requires lo <= hi < |HIERARCHY|
    ensures CheckPermission(HIERARCHY[lo], permission) ==> CheckPermission(HIERARCHY[hi], permission)
    decreases hi - lo
  {
    if lo < hi {
      PermissionStep(lo, permission);
      PermissionMonotone(lo + 1, hi, permission);
    }
  }

  /** The `is_active` column of a row: absent, present but null, or a boolean. */
  datatype ActiveColumn = Absent | Null | Flag(value: bool)

  /** A row of the users table. */
  datatype UserRow = UserRow(id: string, username: string, role: string, isActive: ActiveColumn)

  /** What `db.execute(table="users", operation="select", ...)` produced. */
  datatype UserQuery = Rows(rows: seq<UserRow>) | QueryRaised

  /** The claims a token carries; signing and expiry belong to the JWT library. */
  datatype Claims = Claims(userId: string, role: string)

  datatype TokenOutcome = Issued(claims: Claims) | TokenRaised

  datatype SessionUser = SessionUser(id: string, username: string, role: string, permissions: seq<string>)

  datatype AuthError = BadCredentials | ServerError

  datatype AuthResult = Authenticated(user: SessionUser, token: Claims) | AuthFailed(error: AuthError)

  /** The value of `user.get("is_active", True)`: `None` stands for Python's `None`. */
  function ActiveValue(u: UserRow): Option<bool>
  {
    match u.isActive
    case Absent => Some(true)
    case Null => None
    case Flag(b) => Some(b)
  }

  /** The truthiness of that value, which `authenticate` tests. */
  predicate IsActive(u: UserRow)
  {
    ActiveValue(u) == Some(true)
  }

  /** An absent column counts as active; a null or false one as inactive. */
  lemma IsActiveCases(u: UserRow)
    ensures IsActive(u) <==> u.isActive == Absent || u.isActive == Flag(true)
    ensures u.isActive == Null ==> !IsActive(u)
  {
  }

  /** `AuthSystem.authenticate`: only the first returned row is looked at. */
  function Authenticate(q: UserQuery, createToken: (string, string) -> TokenOutcome): (r: AuthResult)
    ensures r.Authenticated? <==>
              q.Rows? && q.rows != [] && IsActive(q.rows[0])
              && createToken(q.rows[0].id, q.rows[0].role).Issued?
    ensures r.Authenticated? ==>
              var u := q.rows[0];
              r.user == SessionUser(u.id, u.username, u.role, RolePermissions(u.role))
              && r.token == createToken(u.id, u.role).claims
    ensures r == AuthFailed(BadCredentials) <==> q.Rows? && (q.rows == [] || !IsActive(q.rows[0]))
    ensures q.QueryRaised? ==> r == AuthFailed(ServerError)
  {
    match q
    case QueryRaised => AuthFailed(ServerError)
    case Rows(rows) =>
      if rows != [] && IsActive(rows[0]) then
        var u := rows[0];
        match createToken(u.id, u.role)
        case TokenRaised => AuthFailed(ServerError)
        case Issued(claims) =>
          Authenticated(SessionUser(u.id, u.username, u.role, RolePermissions(u.role)), claims)
      else AuthFailed(BadCredentials)
  }

  /** `create_token` in auth.py: the payload of user id and role. */
  function CreateToken(userId: string, role: string): (t: TokenOutcome)
    ensures t.Issued? && t.claims.userId == userId && t.claims.role == role
  {
    Issued(Claims(userId, role))
  }

  /** `create_token` in app.py: `time.timedelta` does not exist, so building the payload raises. */
  function CreateTokenAsWrittenInApp(userId: string, role: string): (t: TokenOutcome)
    ensures t.TokenRaised?
  {
    TokenRaised
  }

  /** auth.py's authenticate signs in exactly the active first row, with its role's permissions. */
  lemma AuthenticateSignsInActiveUser(q: UserQuery)
    ensures Authenticate(q, CreateToken).Authenticated? <==> q.Rows? && q.rows != [] && IsActive(q.rows[0])
    ensures q.Rows? && q.rows != [] && IsActive(q.rows[0]) ==>
              Authenticate(q, CreateToken).user.permissions == RolePermissions(q.rows[0].role)
              && Authenticate(q, CreateToken).token == Claims(q.rows[0].id, q.rows[0].role)
  {
  }

  /**
   * app.py's copy can never sign anyone in: an active user gets the
   * server-error answer instead of a session.
   */
  lemma AppAuthenticateNeverSucceeds(q: UserQuery)
    ensures !Authenticate(q, CreateTokenAsWrittenInApp).Authenticated?
    ensures q.Rows? && q.rows != [] && IsActive(q.rows[0]) ==>
              Authenticate(q, CreateTokenAsWrittenInApp) == AuthFailed(ServerError)
  {
  }

  /** A concrete active admin account: auth.py signs it in, app.py answers with a server error. */
  lemma AppRejectsActiveAdmin()
    ensures var q := Rows([UserRow("u1", "sara", "admin", Flag(true))]);
            Authenticate(q, CreateTokenAsWrittenInApp) == AuthFailed(ServerError)
            && Authenticate(q, CreateToken).Authenticated?
            && Authenticate(q, CreateToken).user.permissions == ["view", "create", "edit", "delete", "export"]
  {
  }
}
