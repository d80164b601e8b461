/** The admin console's user-management page: the role badge, the role buttons a row
    offers, and the role change with its local update. The HTTP call is an outcome parameter. */
module UsersPage {

  import opened Wrappers
  import Auth

  /** A row of the page: the user document's id, its role if any, and its other fields. */
  datatype UserRow = UserRow(id: string, role: Option<string>, email: string, displayName: string)

  datatype PageState = PageState(users: seq<UserRow>, error: string, currentRole: Option<string>)

  /** How the role-change request ended: an ok reply, a non-ok reply with the body's `error`
      field, or an exception with its message (token or network failure). */
  datatype RoleReply = Ok | NotOk(error: Option<string>) | Thrown(message: string)

  const OnlySuperadmin: string := "Only Super Admin can change roles."

  /** The badge text: the role, or `user` when it is missing or empty. */
  function DisplayRole(role: Option<string>): (r: string)
    ensures Auth.Truthy(role) ==> r == role.value
    ensures !Auth.Truthy(role) ==> r == "user"
    ensures r != ""
  {
    if Auth.Truthy(role) then role.value else "user"
  }

  /** `updateUserRole`: only the superadmin may act; a failed request sets an error and keeps
      the list; a successful one replaces the role of the rows with that id and clears the
      error. */
  function UpdateUserRole(st: PageState, userId: string, newRole: string, reply: RoleReply): (r: PageState)
    ensures r.currentRole == st.currentRole
    ensures st.currentRole != Some("superadmin") ==> r == st.(error := OnlySuperadmin)
    ensures st.currentRole == Some("superadmin") && !reply.Ok? ==> r.users == st.users && r.error != ""
    ensures st.currentRole == Some("superadmin") && reply.Ok? ==>
      && r.error == ""
      && |r.users| == |st.users|
      && forall i :: 0 <= i < |st.users| ==>
           r.users[i] == (if st.users[i].id == userId then st.users[i].(role := Some(newRole)) else st.users[i])
  {
    if st.currentRole != Some("superadmin") then st.(error := OnlySuperadmin)
    else match reply
      case NotOk(e) => st.(error := if Auth.Truthy(e) then e.value else "Failed to update role")
      case Thrown(m) => st.(error := if m != "" then m else "Failed to update user role.")
      case Ok =>
        var users := seq(|st.users|, i requires 0 <= i < |st.users| =>
          if st.users[i].id == userId then st.users[i].(role := Some(newRole)) else st.users[i]);
        st.(users := users, error := "")
  }

  /** A successful change is visible on the target's row, and nobody else's row changes. */
  lemma UpdateOnlyTarget(st: PageState, userId: string, newRole: string, i: nat)
    requires st.currentRole == Some("superadmin") && i < |st.users|
    ensures var r := UpdateUserRole(st, userId, newRole, Ok);
      && (st.users[i].id == userId ==>
            r.users[i].role == Some(newRole) && r.users[i].email == st.users[i].email
            && r.users[i].displayName == st.users[i].displayName)
      && (st.users[i].id != userId ==> r.users[i] == st.users[i])
  {
  }

  /** The role buttons: the new role each one sets. */
  datatype Action = MakeAdmin | MakeTeacher | Demote

  function ActionRole(a: Action): string {
    match a
    case MakeAdmin => "admin"
    case MakeTeacher => "teacher"
    case Demote => "user"
  }

  /** The buttons a row offers: none unless the viewer is the superadmin and the row is not;
      then "Make Admin" unless already admin, "Make Teacher" unless already teacher, and
      "Demote to User" for admins and teachers. */
  function Offered(current: Option<string>, target: Option<string>): (r: set<Action>)
    ensures current != Some("superadmin") || target == Some("superadmin") ==> r == {}
    ensures current == Some("superadmin") && target != Some("superadmin") ==>
      && (MakeAdmin in r <==> target != Some("admin"))
      && (MakeTeacher in r <==> target != Some("teacher"))
      && (Demote in r <==> target == Some("admin") || target == Some("teacher"))
  {
    if current != Some("superadmin") || target == Some("superadmin") then {}
    else
      (if target != Some("admin") then {MakeAdmin} else {})
      + (if target != Some("teacher") then {MakeTeacher} else {})
      + (if target != Some("user") && (target == Some("admin") || target == Some("teacher")) then {Demote} else {})
  }

  /** No offered button re-assigns the role the row already has, and every row that is not the
      superadmin's has at least one button for the superadmin. */
  lemma OfferedChangesRole(target: Option<string>)
    requires target != Some("superadmin")
    ensures forall a :: a in Offered(Some("superadmin"), target) ==> target != Some(ActionRole(a))
    ensures Offered(Some("superadmin"), target) != {}
  {
    assert MakeAdmin in Offered(Some("superadmin"), target) || MakeTeacher in Offered(Some("superadmin"), target);
  }
}
