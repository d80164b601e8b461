/** The admin console's navigation menu, filtered by the signed-in user's role. */
module Sidebar {

  import opened Wrappers
  import Seqs

  /** A menu entry; an entry without a role list would be shown to everyone. */
  datatype MenuItem = MenuItem(caption: string, path: string, roles: Option<seq<string>>)

  const Dashboard := MenuItem("Dashboard", "/dashboard", Some(["admin", "superadmin", "teacher", "accountant"]))
  const Students := MenuItem("Students", "/students", Some(["admin", "superadmin", "teacher"]))
  const Teachers := MenuItem("Teachers", "/teachers", Some(["admin", "superadmin"]))
  const Timetable := MenuItem("Timetable", "/timetable", Some(["admin", "superadmin"]))
  const Attendance := MenuItem("Attendance", "/attendance", Some(["admin", "superadmin", "teacher"]))
  const Assignments := MenuItem("Assignments", "/assignments", Some(["admin", "superadmin", "teacher"]))
  const Announcements := MenuItem("Announcements", "/announcements", Some(["admin", "superadmin", "teacher"]))
  const Fees := MenuItem("Fees", "/fees", Some(["admin", "superadmin", "accountant"]))
  const Reports := MenuItem("Reports", "/reports", Some(["admin", "superadmin", "accountant"]))

  const MenuItems: seq<MenuItem> :=
    [Dashboard, Students, Teachers, Timetable, Attendance, Assignments, Announcements, Fees, Reports]

  predicate ShownTo(item: MenuItem, role: Option<string>) {
    item.roles.None? || (role.Some? && role.value in item.roles.value)
  }

  /** `filteredMenuItems`: the entries for this role, in menu order. */
  function Visible(role: Option<string>): (r: seq<MenuItem>)
    ensures forall item :: item in r <==> item in MenuItems && ShownTo(item, role)
    ensures Seqs.IsSubsequence(r, MenuItems)
  {
    Seqs.FilterIsSubsequence(MenuItems, (item: MenuItem) => ShownTo(item, role));
    Seqs.Filter(MenuItems, (item: MenuItem) => ShownTo(item, role))
  }

  /** Admins and the superadmin see the whole menu. */
  lemma AdminsSeeAll()
    ensures Visible(Some("admin")) == MenuItems
    ensures Visible(Some("superadmin")) == MenuItems
  {
    AdminsListed("admin");
    Seqs.FilterAll(MenuItems, (item: MenuItem) => ShownTo(item, Some("admin")));
    AdminsListed("superadmin");
    Seqs.FilterAll(MenuItems, (item: MenuItem) => ShownTo(item, Some("superadmin")));
  }

  /** Both admin roles appear in every entry's role list. */
  lemma AdminsListed(role: string)
    requires role == "admin" || role == "superadmin"
    ensures forall item :: item in MenuItems ==> ShownTo(item, Some(role))
  {
  }

  /** A teacher sees exactly the five teaching entries (in menu order, as `Visible` keeps it). */
  lemma TeacherMenu()
    ensures forall item :: item in Visible(Some("teacher")) <==>
      item in [Dashboard, Students, Attendance, Assignments, Announcements]
  {
    var t := Some("teacher");
    assert !ShownTo(Teachers, t) && !ShownTo(Timetable, t) && !ShownTo(Fees, t) && !ShownTo(Reports, t);
  }

  /** An accountant sees exactly the dashboard and the money entries. */
  lemma AccountantMenu()
    ensures forall item :: item in Visible(Some("accountant")) <==> item in [Dashboard, Fees, Reports]
  {
    var a := Some("accountant");
    assert !ShownTo(Students, a) && !ShownTo(Teachers, a) && !ShownTo(Timetable, a);
    assert !ShownTo(Attendance, a) && !ShownTo(Assignments, a) && !ShownTo(Announcements, a);
  }

  /** Every entry declares its roles, so without a role, or with one no entry lists, the menu
      is empty. */
  lemma UnknownRoleSeesNothing(role: Option<string>)
    requires role.None? || role.value !in ["admin", "superadmin", "teacher", "accountant"]
    ensures Visible(role) == []
  {
  }
}
