/** `autoRegisterSuperadmin`: the login gate that admits known users and registers the
    superadmin on first sign-in. Token verification is an oracle. */
module AutoRegister {

  import opened Wrappers
  import opened Http
  import Store
  import opened People
  import opened Users
  import opened Auth

  const SuperadminEmail: string := "admin@solomon.school"

  /** What a passing request carries on: the stored user and the decoded token. */
  datatype Admitted = Admitted(user: User, token: Decoded)

  /** The gate's verdict and the user collection after it. */
  datatype Admission = Admission(gate: Gate<Admitted>, users: Users)

  function Superadmin(uid: string): (u: User)
    ensures u.role == "superadmin" && u.firebaseUid == Some(uid) && u.active && ValidUser(u)
  {
    User(SuperadminEmail, Name("Super", "Admin"), "superadmin", Some(uid), true)
  }

  /** Everything up to the activity check: the body's token, its verification, and finding
      or registering the user. A save that breaks the unique `email` index throws and is
      answered like any other failure. */
  function Resolve(users: Users, idToken: Option<string>, verify: Verifier, newId: string): (r: Admission)
    ensures !Truthy(idToken) ==> r == Admission(Halt(BAD_REQUEST, "ID token required"), users)
    ensures Truthy(idToken) && verify(idToken.value).Rejected? ==>
      r == Admission(Halt(UNAUTHORIZED, if verify(idToken.value).expired then "Token expired. Please login again."
                                        else "Authentication failed"), users)
    ensures r.gate.Halt? ==> r.users == users
    ensures r.gate.Next? ==>
      && Truthy(idToken) && verify(idToken.value).Verified?
      && r.gate.value.token == verify(idToken.value).token
      && r.gate.value.user.firebaseUid == Some(r.gate.value.token.uid)
    ensures Truthy(idToken) && verify(idToken.value).Verified? ==>
      var d := verify(idToken.value).token;
      && (FindByUid(users, d.uid).Some? ==> r == Admission(Next(Admitted(FindByUid(users, d.uid).value, d)), users))
      && (FindByUid(users, d.uid).None? && d.email != Some(SuperadminEmail) ==>
            r == Admission(Halt(NOT_FOUND, "User not found. Please contact administrator to create your account."), users))
      && (FindByUid(users, d.uid).None? && d.email == Some(SuperadminEmail) ==>
            if Store.Collides(users, newId, EmailKey, SuperadminEmail)
            then r == Admission(Halt(UNAUTHORIZED, "Authentication failed"), users)
            else r == Admission(Next(Admitted(Superadmin(d.uid), d)), Store.Insert(users, newId, Superadmin(d.uid))))
  {
    if !Truthy(idToken) then Admission(Halt(BAD_REQUEST, "ID token required"), users)
    else match verify(idToken.value)
      case Rejected(expired) =>
        Admission(Halt(UNAUTHORIZED, if expired then "Token expired. Please login again." else "Authentication failed"), users)
      case Verified(d) =>
        match FindByUid(users, d.uid)
        case Some(u) => Admission(Next(Admitted(u, d)), users)
        case None =>
          if d.email == Some(SuperadminEmail) then
            var u := Superadmin(d.uid);
            if Store.Collides(users, newId, EmailKey, u.email) then Admission(Halt(UNAUTHORIZED, "Authentication failed"), users)
            else Admission(Next(Admitted(u, d)), Store.Insert(users, newId, u))
          else Admission(Halt(NOT_FOUND, "User not found. Please contact administrator to create your account."), users)
  }

  /** The gate as written: it tests `user.isActive`, a path the user schema does not declare,
      so no stored or newly built user carries it and the test always sees `undefined`. */
  function AutoRegisterAsWritten(users: Users, idToken: Option<string>, verify: Verifier, newId: string): (r: Admission)
    ensures r.users == Resolve(users, idToken, verify, newId).users
    ensures Resolve(users, idToken, verify, newId).gate.Halt? ==> r == Resolve(users, idToken, verify, newId)
    ensures Resolve(users, idToken, verify, newId).gate.Next? ==> r.gate == Halt(FORBIDDEN, "Account is deactivated")
  {
    var r := Resolve(users, idToken, verify, newId);
    var isActive: Option<bool> := None;
    if r.gate.Next? && isActive != Some(true) then Admission(Halt(FORBIDDEN, "Account is deactivated"), r.users)
    else r
  }

  /** Even the superadmin it has just registered is turned away: nobody gets through. */
  lemma AsWrittenAdmitsNobody(users: Users, idToken: Option<string>, verify: Verifier, newId: string)
    ensures AutoRegisterAsWritten(users, idToken, verify, newId).gate.Halt?
    ensures var d := Decoded("uid-1", Some(SuperadminEmail), None, None, None);
      AutoRegisterAsWritten([], Some("t"), (_: string) => Verified(d), newId)
        == Admission(Halt(FORBIDDEN, "Account is deactivated"), [Store.Doc(newId, Superadmin("uid-1"))])
  {
    var d := Decoded("uid-1", Some(SuperadminEmail), None, None, None);
    var v: Verifier := (_: string) => Verified(d);
    assert Resolve([], Some("t"), v, newId).gate.Next?;
  }

  /** The gate reading the schema's `active` flag: deactivated users get 403, active ones
      pass with their user and token. */
  function AutoRegister(users: Users, idToken: Option<string>, verify: Verifier, newId: string): (r: Admission)
    ensures r.users == Resolve(users, idToken, verify, newId).users
    ensures r.gate.Next? <==> Resolve(users, idToken, verify, newId).gate.Next? && Resolve(users, idToken, verify, newId).gate.value.user.active
    ensures r.gate.Next? ==> r == Resolve(users, idToken, verify, newId)
    ensures Resolve(users, idToken, verify, newId).gate.Next? && !r.gate.Next? ==> r.gate == Halt(FORBIDDEN, "Account is deactivated")
  {
    var r := Resolve(users, idToken, verify, newId);
    if r.gate.Next? && !r.gate.value.user.active then Admission(Halt(FORBIDDEN, "Account is deactivated"), r.users)
    else r
  }

  /** The superadmin's first sign-in registers exactly one user and lets them in; signing in
      again with the same uid registers nobody and lets them in as the same user. */
  lemma SuperadminFirstLogin(users: Users, idToken: string, verify: Verifier, id1: string, id2: string)
    requires idToken != "" && verify(idToken).Verified?
    requires verify(idToken).token.email == Some(SuperadminEmail)
    requires FindByUid(users, verify(idToken).token.uid).None?
    requires !Store.Collides(users, id1, EmailKey, SuperadminEmail)
    ensures var r1 := AutoRegister(users, Some(idToken), verify, id1);
      && r1.gate.Next? && r1.gate.value.user.role == "superadmin"
      && |r1.users| == |users| + 1 && r1.users[..|users|] == users
      && var r2 := AutoRegister(r1.users, Some(idToken), verify, id2);
      r2 == Admission(Next(r1.gate.value), r1.users)
  {
    var d := verify(idToken).token;
    var r1 := AutoRegister(users, Some(idToken), verify, id1);
    assert r1.users[|users|].body.firebaseUid == Some(d.uid);
    var found := FindByUid(r1.users, d.uid);
    assert found.Some?;
    assert found.value == Superadmin(d.uid) by {
      var i :| 0 <= i < |r1.users| && r1.users[i].body == found.value;
      if i < |users| {
        assert false;
      }
    }
  }
}
