/** Back-office users: the accounts the admin panel signs into, keyed by Firebase uid. */
module Users {

  import opened Wrappers
  import Store
  import Strings
  import opened People

  const Roles: seq<string> := ["superadmin", "admin", "teacher", "accountant"]

  datatype User = User(email: string, name: Name, role: string, firebaseUid: Option<string>, active: bool)

  type Users = seq<Store.Doc<User>>

  /** A user document's schema checks: e-mail and both name parts present, role in the enum. */
  predicate ValidUser(u: User) {
    u.email != "" && u.name.first != "" && u.name.last != "" && u.role in Roles
  }

  /** The `trim` and `lowercase` setters on `email`, applied before validation. */
  function NormalEmail(e: string): (r: string)
    ensures |r| <= |e|
    ensures r == "" <==> Strings.AllSpace(e)
    ensures |r| > 0 ==> !Strings.IsSpace(r[0]) && !Strings.IsSpace(r[|r| - 1])
    ensures forall i :: 0 <= i < |r| ==> !Strings.IsUpper(r[i])
    ensures Strings.EqualIgnoringCase(r, Strings.Trim(e))
  {
    var t := Strings.Trim(e);
    var r := Strings.ToLower(t);
    Strings.ToLowerKeepsLower(r);
    Strings.ToLowerCaseBlind(r, t);
    r
  }

  /** The unique index sees addresses after the setters: two addresses that differ only in
      letter case or surrounding whitespace are stored as the same address. */
  lemma SameAddressCollides(e1: string, e2: string)
    requires Strings.EqualIgnoringCase(Strings.Trim(e1), Strings.Trim(e2))
    ensures NormalEmail(e1) == NormalEmail(e2)
  {
    Strings.ToLowerCaseBlind(Strings.Trim(e1), Strings.Trim(e2));
  }

  /** The setters run on every save: an address already normalised is stored unchanged. */
  lemma NormalEmailIdempotent(e: string)
    ensures NormalEmail(NormalEmail(e)) == NormalEmail(e)
  {
    var r := NormalEmail(e);
    Strings.TrimKeepsClean(r);
    Strings.ToLowerKeepsLower(r);
  }

  function UidKey(u: User): Option<string> { u.firebaseUid }

  function EmailKey(u: User): string { u.email }

  /** `User.findOne({firebaseUid: uid})`. */
  function FindByUid(users: Users, uid: string): (r: Option<User>)
    ensures r.Some? ==> r.value.firebaseUid == Some(uid)
    ensures r.Some? <==> exists i :: 0 <= i < |users| && users[i].body.firebaseUid == Some(uid)
  {
    Store.FindOne(users, UidKey, Some(uid))
  }
}
