/** hasPermission (permission.go:18-40): may a commenter approve a pull
    request? A repository role of admin or write is enough; otherwise, when
    the caller asks for it, the commenter must own every directory the pull
    request touches (isOwnerOfSig).

    The role lookup (GetUserPermissionsOfRepo) is a parameter: a function
    from the lowered login to the role it reports, or an error. */
module Permission {
  import opened Wrappers
  import opened Identity
  import opened Gitee
  import opened SigOwnership

  /** The roles that approve on their own (permission.go:31). */
  predicate IsElevated(role: string) {
    role == "admin" || role == "write"
  }

  /** hasPermission. The login is lowered first, and both the role lookup and
      the ownership check see only the lowered login. */
  method HasPermission(env: Env, getRole: string -> Result<string, ApiError>, commenter: string,
                       needCheckSig: bool, pr: PullRequestData) returns (ok: bool, err: Option<ApiError>)
    ensures var role := getRole(Lower(commenter));
            && (role.Failure? ==> !ok && err == Some(role.error))
            && (role.Success? && IsElevated(role.value) ==> ok && err == None)
            && (role.Success? && !IsElevated(role.value) && !needCheckSig ==> !ok && err == None)
            && (role.Success? && !IsElevated(role.value) && needCheckSig ==>
                  Answer(ok, err) == Decision(env, pr, Lower(commenter)))
  {
    var login := Lower(commenter);
    var p := getRole(login);
    if p.Failure? {
      return false, Some(p.error);
    }
    if p.value == "admin" || p.value == "write" {
      return true, None;
    }
    if needCheckSig {
      ok, err := IsOwnerOfSig(env, pr, login);
      return;
    }
    return false, None;
  }

  /** Two spellings of one login that differ only in letter case get the same
      role and the same ownership answer: "AliceDev" and "ALICEDEV" are one
      commenter. */
  lemma CommenterCaseIrrelevant(env: Env, getRole: string -> Result<string, ApiError>,
                                pr: PullRequestData, a: string, b: string)
    requires EqualFold(a, b)
    ensures getRole(Lower(a)) == getRole(Lower(b))
    ensures Decision(env, pr, Lower(a)) == Decision(env, pr, Lower(b))
  {
    LowerEqualIffEqualFold(a, b);
  }
}
