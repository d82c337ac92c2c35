/** The admin guard: `next()` only for an authenticated user whose role is exactly "admin". */
module Admin {
  import opened Wrappers
  import opened Http
  import Auth

  const ForbiddenMessage := "Forbidden: You do not have admin rights."

  function IsAdmin(user: Option<Auth.Claims>): (outcome: Outcome)
    ensures outcome == Next <==> user.Some? && user.value.role == Some("admin")
    ensures outcome != Next ==> outcome == Respond(403, ForbiddenMessage)
  {
    if user.Some? && user.value.role == Some("admin") then Next else Respond(403, ForbiddenMessage)
  }

  /** The role comparison is exact: other spellings of "admin" are refused. */
  lemma RoleMatchIsExact(id: Option<int>, email: Option<string>)
    ensures IsAdmin(Some(Auth.Claims(id, email, Some("Admin")))) == Respond(403, ForbiddenMessage)
    ensures IsAdmin(Some(Auth.Claims(id, email, Some("admin ")))) == Respond(403, ForbiddenMessage)
    ensures IsAdmin(Some(Auth.Claims(id, email, None))) == Respond(403, ForbiddenMessage)
    ensures IsAdmin(None) == Respond(403, ForbiddenMessage)
  {
    assert "Admin" != "admin";
    assert "admin " != "admin";
  }
}
