/** The role gate meant for the admin routes, though the router attaches
    it to no route (router/router.go:19-20): an ordered chain of checks on
    the Authorization header that either refuses the request or hands it
    to the next handler. */
module CheckRole {
  import opened Common
  import opened Models
  import opened Database

  const BearerPrefix: string := "Bearer "

  /** What the JWT verifier makes of a token: rejected (a parse error, a bad
      signature or an invalid token), or valid with the email claim. */
  datatype TokenCheck = Rejected | Verified(email: string)

  /** The gate's decision: refuse with a status and a message, or call the
      next handler. */
  datatype Verdict = Deny(code: int, message: string) | CallNext

  /** The checks after the token has been verified: the user with the
      claimed email, that user's role, and the role's code. */
  function DecideClaims(requiredRole: string, check: TokenCheck, users: seq<User>, roles: seq<Role>): (v: Verdict)
    ensures check.Rejected? ==> v == Deny(StatusUnauthorized, "Unauthorized")
    ensures check.Verified? && UserByEmail(users, check.email).None? ==> v == Deny(StatusUnauthorized, "User not found")
    ensures check.Verified? && UserByEmail(users, check.email).Some? ==>
              var user := UserByEmail(users, check.email).value;
              && (RoleById(roles, user.roleId).None? ==> v == Deny(StatusForbidden, "Role not found"))
              && (RoleById(roles, user.roleId).Some? && RoleById(roles, user.roleId).value.code != requiredRole ==>
                    v == Deny(StatusForbidden, "Forbidden: insufficient role permissions"))
              && (RoleById(roles, user.roleId).Some? && RoleById(roles, user.roleId).value.code == requiredRole ==>
                    v == CallNext)
  {
    match check
    case Rejected => Deny(StatusUnauthorized, "Unauthorized")
    case Verified(email) =>
      match UserByEmail(users, email)
      case None => Deny(StatusUnauthorized, "User not found")
      case Some(user) =>
        match RoleById(roles, user.roleId)
        case None => Deny(StatusForbidden, "Role not found")
        case Some(role) =>
          if role.code != requiredRole then Deny(StatusForbidden, "Forbidden: insufficient role permissions")
          else CallNext
  }

  /** The whole gate for a request carrying `header` as its Authorization
      header; `verify` is the JWT verifier. */
  function Decide(requiredRole: string, header: string, verify: string -> TokenCheck,
                  users: seq<User>, roles: seq<Role>): (v: Verdict)
    ensures !HasPrefix(header, BearerPrefix) ==> v == Deny(StatusUnauthorized, "Unauthorized: Invalid token format")
    ensures HasPrefix(header, BearerPrefix) ==>
              v == DecideClaims(requiredRole, verify(header[|BearerPrefix|..]), users, roles)
  {
    if !HasPrefix(header, BearerPrefix) then Deny(StatusUnauthorized, "Unauthorized: Invalid token format")
    else
      var token := TrimPrefix(header, BearerPrefix);
      DecideClaims(requiredRole, verify(token), users, roles)
  }

  /** The verifier is shown the header with exactly one leading "Bearer "
      removed, whatever follows it. */
  lemma VerifierSeesToken(requiredRole: string, token: string, verify: string -> TokenCheck,
                          users: seq<User>, roles: seq<Role>)
    ensures Decide(requiredRole, BearerPrefix + token, verify, users, roles)
            == DecideClaims(requiredRole, verify(token), users, roles)
  {
    TrimPrefixOfConcat(BearerPrefix, token);
  }

  /** The prefix test is case-sensitive: a lower-case scheme is refused
      before the verifier is consulted. */
  lemma LowercaseSchemeRefused(requiredRole: string, token: string, verify: string -> TokenCheck,
                               users: seq<User>, roles: seq<Role>)
    ensures Decide(requiredRole, "bearer " + token, verify, users, roles)
            == Deny(StatusUnauthorized, "Unauthorized: Invalid token format")
  {
    var header := "bearer " + token;
    assert header[0] != BearerPrefix[0];
  }

  /** Whether some user with the verified email holds a role whose code is
      `requiredRole`. */
  predicate Entitled(requiredRole: string, header: string, verify: string -> TokenCheck,
                     users: seq<User>, roles: seq<Role>)
  {
    && HasPrefix(header, BearerPrefix)
    && verify(header[|BearerPrefix|..]).Verified?
    && exists i, j :: 0 <= i < |users| && 0 <= j < |roles|
         && users[i].email == verify(header[|BearerPrefix|..]).email
         && roles[j].id == users[i].roleId && roles[j].code == requiredRole
  }

  /** The next handler runs only for an entitled request. */
  lemma CallNextOnlyIfEntitled(requiredRole: string, header: string, verify: string -> TokenCheck,
                               users: seq<User>, roles: seq<Role>)
    requires Decide(requiredRole, header, verify, users, roles) == CallNext
    ensures Entitled(requiredRole, header, verify, users, roles)
  {
    var email := verify(header[|BearerPrefix|..]).email;
    var user := UserByEmail(users, email).value;
    var role := RoleById(roles, user.roleId).value;
    var i :| 0 <= i < |users| && users[i] == user;
    var j :| 0 <= j < |roles| && roles[j] == role;
  }

  /** Emails are unique among users and ids among roles (the tables'
      unique and primary-key constraints). */
  predicate UniqueKeys(users: seq<User>, roles: seq<Role>) {
    && (forall i, k :: 0 <= i < k < |users| ==> users[i].email != users[k].email)
    && (forall i, k :: 0 <= i < k < |roles| ==> roles[i].id != roles[k].id)
  }

  /** Under those constraints the gate lets a request through exactly when
      it is entitled. */
  lemma CallNextIffEntitled(requiredRole: string, header: string, verify: string -> TokenCheck,
                            users: seq<User>, roles: seq<Role>)
    requires UniqueKeys(users, roles)
    ensures Decide(requiredRole, header, verify, users, roles) == CallNext
            <==> Entitled(requiredRole, header, verify, users, roles)
  {
    if Entitled(requiredRole, header, verify, users, roles) {
      var email := verify(header[|BearerPrefix|..]).email;
      var i, j :| 0 <= i < |users| && 0 <= j < |roles|
                  && users[i].email == email && roles[j].id == users[i].roleId && roles[j].code == requiredRole;
      var user := UserByEmail(users, email).value;
      var i' :| 0 <= i' < |users| && users[i'] == user;
      assert i' == i;
      var role := RoleById(roles, user.roleId).value;
      var j' :| 0 <= j' < |roles| && roles[j'] == role;
      assert j' == j;
    } else if Decide(requiredRole, header, verify, users, roles) == CallNext {
      CallNextOnlyIfEntitled(requiredRole, header, verify, users, roles);
    }
  }
}
