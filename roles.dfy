/** Display helpers for roles in the web client: a human-readable label and
    the colour class of the role badge. The role arrives as an optional
    string; JavaScript treats a missing role and "" alike. */
module Roles {
  import opened Wrappers
  import opened Text

  /** `!role`. */
  predicate Falsy(role: Option<string>)
  {
    role.None? || role.value == ""
  }

  /** `formatRoleName(role)`. */
  function FormatRoleName(role: Option<string>): (shown: string)
    ensures Falsy(role) ==> shown == "Unknown"
    ensures !Falsy(role) && ToUpper(role.value) == "ADMIN" ==> shown == "Administrator"
    ensures !Falsy(role) && ToUpper(role.value) == "EMPLOYEE" ==> shown == "Employee"
    ensures !Falsy(role) && ToUpper(role.value) == "USER" ==> shown == "Customer"
    ensures !Falsy(role) && ToUpper(role.value) !in {"ADMIN", "EMPLOYEE", "USER"} ==> shown == role.value
  {
    if Falsy(role) then "Unknown"
    else
      match ToUpper(role.value)
      case "ADMIN" => "Administrator"
      case "EMPLOYEE" => "Employee"
      case "USER" => "Customer"
      case _ => role.value
  }

  /** `getRoleBadgeClass(role)`. */
  function RoleBadgeClass(role: Option<string>): (badge: string)
    ensures badge in {"danger", "warning", "neutral"}
    ensures badge == "danger" <==> !Falsy(role) && ToUpper(role.value) == "ADMIN"
    ensures badge == "warning" <==> !Falsy(role) && ToUpper(role.value) == "EMPLOYEE"
  {
    if Falsy(role) then "neutral"
    else
      match ToUpper(role.value)
      case "ADMIN" => "danger"
      case "EMPLOYEE" => "warning"
      case "USER" => "neutral"
      case _ => "neutral"
  }

  /** The mapping ignores letter case: a role and its upper-cased spelling
      get the same badge, and the same label unless the role is unknown. */
  lemma RoleCaseInsensitive(role: string)
    requires role != ""
    ensures RoleBadgeClass(Some(role)) == RoleBadgeClass(Some(ToUpper(role)))
    ensures ToUpper(role) in {"ADMIN", "EMPLOYEE", "USER"} ==>
      FormatRoleName(Some(role)) == FormatRoleName(Some(ToUpper(role)))
  {
    ToUpperIdempotent(role);
    assert ToUpper(role) != "";
  }

  /** Each backend role gets its own label: two known roles share a label
      exactly when they are the same role, whatever their letter case. */
  lemma KnownRoleLabels(a: string, b: string)
    requires a != "" && b != ""
    requires ToUpper(a) in {"ADMIN", "EMPLOYEE", "USER"} && ToUpper(b) in {"ADMIN", "EMPLOYEE", "USER"}
    ensures FormatRoleName(Some(a)) == FormatRoleName(Some(b)) <==> ToUpper(a) == ToUpper(b)
  {
  }
}
