/**
 * `User.verifyUsername` and `User.hasPermission`: the admin short-circuit
 * over a user's roles, then a search through the roles, in order, for one
 * whose inherited permission list holds the permission.
 */
module Users {
  import opened Wrappers
  import opened Text
  import opened Store
  import opened Permissions

  datatype UsernameError = TooShort | TooLong | InvalidCharacters

  /** The regular expression `/^[a-zA-Z0-9]+$/`. */
  predicate MatchesAlphanumericPlus(s: string)
  {
    |s| >= 1 && forall k :: 0 <= k < |s| ==> IsAsciiAlphanumeric(s[k])
  }

  /**
   * `verifyUsername`: `None` when the name is accepted, otherwise the
   * first check it fails, tried in the order length-below, length-above,
   * character set.
   */
  function VerifyUsername(username: string): (r: Option<UsernameError>)
    ensures r.None? <==> 3 <= |username| <= 32 && forall k :: 0 <= k < |username| ==> IsAsciiAlphanumeric(username[k])
    ensures r == Some(TooShort) <==> |username| < 3
    ensures r == Some(TooLong) <==> |username| > 32
    ensures r == Some(InvalidCharacters) <==> 3 <= |username| <= 32 && exists k :: 0 <= k < |username| && !IsAsciiAlphanumeric(username[k])
  {
    if |username| < 3 then Some(TooShort)
    else if |username| > 32 then Some(TooLong)
    else if !MatchesAlphanumericPlus(username) then Some(InvalidCharacters)
    else None
  }

  /** `role.name.toLowerCase() === "admin"`. */
  predicate IsAdminRole(role: RoleRow)
  {
    ToLowerAscii(role.name) == "admin"
  }

  /** A role name is the admin name exactly when it spells "admin" in any mix of cases. */
  lemma AdminNameIgnoresCase(name: string)
    ensures ToLowerAscii(name) == "admin" <==>
              |name| == 5 && forall k :: 0 <= k < 5 ==> name[k] == "admin"[k] || name[k] == "ADMIN"[k]
  {
    if |name| == 5 && forall k :: 0 <= k < 5 ==> name[k] == "admin"[k] || name[k] == "ADMIN"[k] {
      assert forall k :: 0 <= k < 5 ==> LowerChar(name[k]) == "admin"[k];
    }
    if ToLowerAscii(name) == "admin" {
      forall k | 0 <= k < 5
        ensures name[k] == "admin"[k] || name[k] == "ADMIN"[k]
      {
        assert LowerChar(name[k]) == "admin"[k];
      }
    }
  }

  /** `roles.some(isAdmin)`. */
  predicate AnyAdmin(rs: seq<RoleRow>)
  {
    exists k :: 0 <= k < |rs| && IsAdminRole(rs[k])
  }

  /**
   * `role.hasPermissionInherit(p)`; `None` while the inherited list has not
   * settled. A settled answer is yes exactly when the role or one of its
   * ancestors lists `p` itself.
   */
  function HasPermissionInherit(role: RoleRow, roles: map<string, RoleRow>, fuel: nat, p: string): (r: Option<bool>)
    ensures r.Some? <==> FullPermissionList(role, roles, fuel).Some?
    ensures r == Some(true) ==> exists anc, k :: Ancestor(role, roles, anc, k) && p in PermissionList(anc.permissions)
    ensures r == Some(false) ==> forall anc, k :: Ancestor(role, roles, anc, k) ==> p !in PermissionList(anc.permissions)
  {
    match FullPermissionList(role, roles, fuel)
    case None => None
    case Some(full) =>
      if p in full then FullListSound(role, roles, fuel, p); Some(true)
      else FullListAbsent(role, roles, fuel, p); Some(false)
  }

  /** A permission missing from a settled full list is listed by no ancestor. */
  lemma FullListAbsent(role: RoleRow, roles: map<string, RoleRow>, fuel: nat, p: string)
    requires FullPermissionList(role, roles, fuel).Some?
    requires p !in FullPermissionList(role, roles, fuel).value
    ensures forall anc, k :: Ancestor(role, roles, anc, k) ==> p !in PermissionList(anc.permissions)
  {
    forall anc, k | Ancestor(role, roles, anc, k)
      ensures p in PermissionList(anc.permissions) ==> p in FullPermissionList(role, roles, fuel).value
    {
      if p in PermissionList(anc.permissions) {
        FullListComplete(role, roles, fuel, anc, k, p);
      }
    }
  }

  /** The loop over the roles: the first role that grants wins; a role that never settles blocks the rest. */
  function FirstGrant(rs: seq<RoleRow>, roles: map<string, RoleRow>, fuel: nat, p: string): Option<bool>
  {
    if rs == [] then Some(false)
    else
      match HasPermissionInherit(rs[0], roles, fuel, p)
      case None => None
      case Some(true) => Some(true)
      case Some(false) => FirstGrant(rs[1..], roles, fuel, p)
  }

  /** What `hasPermission` settles to for a user whose roles are `rs`. */
  function PermissionDecision(rs: seq<RoleRow>, roles: map<string, RoleRow>, fuel: nat, p: string): Option<bool>
  {
    if AnyAdmin(rs) then Some(true) else FirstGrant(rs, roles, fuel, p)
  }

  /**
   * `user.hasPermission(p)`: the roles are fetched, the admin test runs
   * over all of them, then each role's inherited list is awaited in turn.
   */
  method HasPermission(dir: Directory, userId: string, fuel: nat, p: string) returns (r: Option<bool>)
    ensures r == PermissionDecision(RolesOf(dir, userId), dir.roles, fuel, p)
  {
    var rs := RolesOf(dir, userId);
    var isAdmin := exists k :: 0 <= k < |rs| && IsAdminRole(rs[k]);
    if isAdmin {
      return Some(true);
    }
    var i := 0;
    while i < |rs|
      invariant 0 <= i <= |rs|
      invariant FirstGrant(rs, dir.roles, fuel, p) == FirstGrant(rs[i..], dir.roles, fuel, p)
    {
      var full := FullPermissionList(rs[i], dir.roles, fuel);
      FirstGrantStep(rs, dir.roles, fuel, p, i);
      if full.None? {
        return None;
      }
      if p in full.value {
        return Some(true);
      }
      i := i + 1;
    }
    return Some(false);
  }

  /** One turn of the loop over the roles: the first remaining role decides, or the rest do. */
  lemma FirstGrantStep(rs: seq<RoleRow>, roles: map<string, RoleRow>, fuel: nat, p: string, i: nat)
    requires i < |rs|
    ensures FirstGrant(rs[i..], roles, fuel, p) ==
              match FullPermissionList(rs[i], roles, fuel)
              case None => None
              case Some(full) => if p in full then Some(true) else FirstGrant(rs[i + 1..], roles, fuel, p)
  {
    assert rs[i..][0] == rs[i];
    assert rs[i..][1..] == rs[i + 1..];
  }

  /**
   * When every role's inherited list settles, the decision is: some role
   * is an admin, or some role's full list holds the permission.
   */
  lemma {:induction false} SettledDecision(rs: seq<RoleRow>, roles: map<string, RoleRow>, fuel: nat, p: string)
    requires forall k :: 0 <= k < |rs| ==> FullPermissionList(rs[k], roles, fuel).Some?
    ensures PermissionDecision(rs, roles, fuel, p) ==
              Some(AnyAdmin(rs) || exists k :: 0 <= k < |rs| && p in FullPermissionList(rs[k], roles, fuel).value)
  {
    FirstGrantSettled(rs, roles, fuel, p);
  }

  lemma {:induction false} FirstGrantSettled(rs: seq<RoleRow>, roles: map<string, RoleRow>, fuel: nat, p: string)
    requires forall k :: 0 <= k < |rs| ==> FullPermissionList(rs[k], roles, fuel).Some?
    ensures FirstGrant(rs, roles, fuel, p) ==
              Some(exists k :: 0 <= k < |rs| && p in FullPermissionList(rs[k], roles, fuel).value)
  {
    if rs != [] {
      FirstGrantSettled(rs[1..], roles, fuel, p);
      var tail := rs[1..];
      assert forall k :: 0 <= k < |tail| ==> tail[k] == rs[k + 1];
      if p !in FullPermissionList(rs[0], roles, fuel).value {
        assert (exists k :: 0 <= k < |rs| && p in FullPermissionList(rs[k], roles, fuel).value) ==
               (exists k :: 0 <= k < |tail| && p in FullPermissionList(tail[k], roles, fuel).value);
      }
    }
  }

  /** The decision stays pending only if no role is an admin and some role's inherited list never settles. */
  lemma {:induction false} PendingDecision(rs: seq<RoleRow>, roles: map<string, RoleRow>, fuel: nat, p: string)
    requires PermissionDecision(rs, roles, fuel, p).None?
    ensures !AnyAdmin(rs)
    ensures exists k :: 0 <= k < |rs| && FullPermissionList(rs[k], roles, fuel).None?
  {
    FirstGrantPending(rs, roles, fuel, p);
  }

  lemma {:induction false} FirstGrantPending(rs: seq<RoleRow>, roles: map<string, RoleRow>, fuel: nat, p: string)
    requires FirstGrant(rs, roles, fuel, p).None?
    ensures exists k :: 0 <= k < |rs| && FullPermissionList(rs[k], roles, fuel).None?
  {
    if FullPermissionList(rs[0], roles, fuel).Some? {
      FirstGrantPending(rs[1..], roles, fuel, p);
      var k :| 0 <= k < |rs[1..]| && FullPermissionList(rs[1..][k], roles, fuel).None?;
      assert rs[1..][k] == rs[k + 1];
    }
  }
}
