/** `verifyFirebaseToken` and `adminLogin`: the login endpoint that checks an ID token,
    registers a user on first sign-in when the token carries a role claim, and reports the
    caller's identity. Token verification is an oracle. */
module AuthController {

  import opened Wrappers
  import opened Http
  import Store
  import Strings
  import opened People
  import opened Users
  import opened Auth

  /** The `user` object of a successful reply. */
  datatype TokenUser = TokenUser(uid: string, email: Option<string>, role: Option<string>,
                                 name: Option<string>, emailVerified: Option<bool>)

  /** `name?.split(' ')[0] || 'User'`. */
  function FirstName(name: Option<string>): (r: string)
    ensures r != "" && ' ' !in r
  {
    if name.None? then "User"
    else
      var w := Strings.Split(name.value, ' ')[0];
      if w == "" then "User" else w
  }

  /** `name?.split(' ').slice(1).join(' ') || ''`. */
  function LastName(name: Option<string>): (r: string)
    ensures name.None? || ' ' !in name.value ==> r == ""
    ensures name.Some? ==> forall k :: 0 <= k < |name.value| && name.value[k] == ' ' && ' ' !in name.value[..k] ==>
      r == name.value[k + 1..]
  {
    if name.None? then ""
    else
      var s := name.value;
      var r := Strings.Join(Strings.Split(s, ' ')[1..], ' ');
      assert ' ' !in s ==> r == "" by {
        if ' ' !in s {
          Strings.SplitNone(s, ' ');
          assert Strings.Split(s, ' ')[1..] == [];
        }
      }
      assert forall k :: 0 <= k < |s| && s[k] == ' ' && ' ' !in s[..k] ==> r == s[k + 1..] by {
        forall k | 0 <= k < |s| && s[k] == ' ' && ' ' !in s[..k] ensures r == s[k + 1..] {
          Strings.SplitAtFirst(s, ' ', k);
        }
      }
      r
  }

  /** What the split means: the first name is the text before the first space and the last
      name is everything after it, spaces included; a name without a space is all first name. */
  lemma {:induction false} NameSplitMeaning(name: string)
    ensures ' ' !in name ==> FirstName(Some(name)) == (if name == "" then "User" else name) && LastName(Some(name)) == ""
    ensures forall k :: 0 <= k < |name| && name[k] == ' ' && ' ' !in name[..k] ==>
      FirstName(Some(name)) == (if k == 0 then "User" else name[..k]) && LastName(Some(name)) == name[k + 1..]
  {
    if ' ' !in name {
      Strings.SplitNone(name, ' ');
      assert Strings.Split(name, ' ')[1..] == [];
    }
    forall k | 0 <= k < |name| && name[k] == ' ' && ' ' !in name[..k]
      ensures FirstName(Some(name)) == (if k == 0 then "User" else name[..k]) && LastName(Some(name)) == name[k + 1..]
    {
      Strings.SplitAtFirst(name, ' ', k);
    }
  }

  /** A full name of two parts, the first without spaces, splits back into those parts. */
  lemma FullNameRoundTrip(n: Name)
    requires n.first != "" && ' ' !in n.first
    ensures FirstName(Some(FullName(n))) == n.first && LastName(Some(FullName(n))) == n.last
  {
    var s := FullName(n);
    assert s[..|n.first|] == n.first;
    NameSplitMeaning(s);
  }

  /** The user a first sign-in builds from the token, after the e-mail setters. */
  function NewUser(d: Decoded): (u: User)
    requires Truthy(d.role)
    ensures u.role == d.role.value && u.firebaseUid == Some(d.uid) && u.active
    ensures u.name == Name(FirstName(d.name), LastName(d.name))
  {
    User(NormalEmail(d.email.GetOr("")), Name(FirstName(d.name), LastName(d.name)), d.role.value, Some(d.uid), true)
  }

  /** The handler, for a given check of new user documents (`accepts`): without a truthy token
      400; a rejected token 401; when no user has the uid and the claims carry a role, the
      new user is saved, and a save that fails validation or the unique `email` index is a
      401; otherwise 200 with the claims, the role being the claim or else the stored
      user's. */
  function VerifyFirebaseTokenWith(users: Users, idToken: Option<string>, verify: Verifier, newId: string,
                                   accepts: User -> bool): (r: Step<TokenUser, Users>)
    ensures !Truthy(idToken) ==> r == Step(Failure(BAD_REQUEST, "Bad request"), users)
    ensures Truthy(idToken) && verify(idToken.value).Rejected? ==> r == Step(Failure(UNAUTHORIZED, "Unauthorized"), users)
    ensures r.response.Failure? ==> r.store == users && r.response.code in {BAD_REQUEST, UNAUTHORIZED}
    ensures Truthy(idToken) && r.response.Failure? ==> r.response == Failure(UNAUTHORIZED, "Unauthorized")
    ensures r.response.Success? ==>
      && Truthy(idToken) && verify(idToken.value).Verified?
      && var d := verify(idToken.value).token;
      var found := FindByUid(users, d.uid);
      && r.response.code == OK
      && r.response.data == TokenUser(d.uid, d.email, if Truthy(d.role) then d.role else if found.Some? then Some(found.value.role) else None,
                                      d.name, d.emailVerified)
      && (if found.None? && Truthy(d.role)
          then accepts(NewUser(d)) && !Store.Collides(users, newId, EmailKey, NewUser(d).email)
               && r.store == Store.Insert(users, newId, NewUser(d))
          else r.store == users)
    ensures Truthy(idToken) && verify(idToken.value).Verified? ==>
      var d := verify(idToken.value).token;
      (r.response.Failure? <==> FindByUid(users, d.uid).None? && Truthy(d.role)
                                && (!accepts(NewUser(d)) || Store.Collides(users, newId, EmailKey, NewUser(d).email)))
  {
    if !Truthy(idToken) then Step(Failure(BAD_REQUEST, "Bad request"), users)
    else match verify(idToken.value)
      case Rejected(_) => Step(Failure(UNAUTHORIZED, "Unauthorized"), users)
      case Verified(d) =>
        var found := FindByUid(users, d.uid);
        if found.None? && Truthy(d.role) then
          var u := NewUser(d);
          if !accepts(u) || Store.Collides(users, newId, EmailKey, u.email) then Step(Failure(UNAUTHORIZED, "Unauthorized"), users)
          else Step(Success(OK, TokenUser(d.uid, d.email, d.role, d.name, d.emailVerified)), Store.Insert(users, newId, u))
        else
          var role := if Truthy(d.role) then d.role else if found.Some? then Some(found.value.role) else None;
          Step(Success(OK, TokenUser(d.uid, d.email, role, d.name, d.emailVerified)), users)
  }

  /** As written: an account is created only when it meets the full schema, whose `name.last`
      is required. */
  function VerifyFirebaseTokenAsWritten(users: Users, idToken: Option<string>, verify: Verifier, newId: string): (r: Step<TokenUser, Users>)
    ensures r.store == users
            || (|r.store| == |users| + 1 && r.store[..|users|] == users && ValidUser(r.store[|users|].body))
  {
    VerifyFirebaseTokenWith(users, idToken, verify, newId, ValidUser)
  }

  /** The schema check with an empty last name allowed, as the `|| ''` fallback expects. */
  predicate ValidNewUser(u: User) {
    u.email != "" && u.name.first != "" && u.role in Roles
  }

  /** The handler with the empty last name the split produces accepted. */
  function VerifyFirebaseToken(users: Users, idToken: Option<string>, verify: Verifier, newId: string): (r: Step<TokenUser, Users>)
    ensures r.store == users
            || (|r.store| == |users| + 1 && r.store[..|users|] == users && ValidNewUser(r.store[|users|].body))
  {
    VerifyFirebaseTokenWith(users, idToken, verify, newId, ValidNewUser)
  }

  /** The claims of the example below: a teacher whose display name is one word. */
  function OneWordClaims(): Decoded {
    Decoded("uid-1", Some("ann@example.org"), Some("Ann"), Some("teacher"), Some(true))
  }

  /** The user record those claims produce: last name empty, so the schema rejects it, while
      the corrected check accepts it. */
  lemma OneWordUser()
    ensures ' ' !in OneWordClaims().name.value
    ensures NewUser(OneWordClaims()).name == Name("Ann", "")
    ensures NewUser(OneWordClaims()).email != ""
    ensures !ValidUser(NewUser(OneWordClaims())) && ValidNewUser(NewUser(OneWordClaims()))
  {
    var n := "Ann";
    assert n[0] == 'A' && n[1] == 'n' && n[2] == 'n';
    assert ' ' !in n;
    NameSplitMeaning(n);
    var e := "ann@example.org";
    assert e[0] == 'a' && !Strings.IsSpace(e[0]);
    assert Strings.Trim(e) != "";
  }

  /** As written, every first sign-in whose display name is a single word fails: the last
      name comes out empty, the schema rejects the new user, and the reply is 401 with
      nothing saved. */
  lemma OneWordNameRejected(users: Users, idToken: string, verify: Verifier, newId: string)
    requires idToken != "" && verify(idToken).Verified?
    requires var d := verify(idToken).token;
      Truthy(d.role) && d.name.Some? && ' ' !in d.name.value && FindByUid(users, d.uid).None?
    ensures VerifyFirebaseTokenAsWritten(users, Some(idToken), verify, newId) == Step(Failure(UNAUTHORIZED, "Unauthorized"), users)
  {
    NameSplitMeaning(verify(idToken).token.name.value);
  }

  /** The concrete case: a new teacher named "Ann" gets 401 as written and is created, with
      an empty last name, by the corrected handler. */
  lemma SingleWordNameRejected()
    ensures var v: Verifier := (_: string) => Verified(OneWordClaims());
      && VerifyFirebaseTokenAsWritten([], Some("t"), v, "id-1") == Step(Failure(UNAUTHORIZED, "Unauthorized"), [])
      && NewUser(OneWordClaims()).name.last == ""
      && VerifyFirebaseToken([], Some("t"), v, "id-1").store == [Store.Doc("id-1", NewUser(OneWordClaims()))]
  {
    var v: Verifier := (_: string) => Verified(OneWordClaims());
    OneWordUser();
    OneWordNameRejected([], "t", v, "id-1");
    CorrectedRegistersEveryName([], "t", v, "id-1");
  }

  /** With the correction, any token with a role claim in the enum and an e-mail that is not
      blank registers a new uid, whatever the name. */
  lemma CorrectedRegistersEveryName(users: Users, idToken: string, verify: Verifier, newId: string)
    requires idToken != "" && verify(idToken).Verified?
    requires var d := verify(idToken).token;
      Truthy(d.role) && d.role.value in Roles && d.email.Some? && !Strings.AllSpace(d.email.value)
    requires FindByUid(users, verify(idToken).token.uid).None?
    requires !Store.Collides(users, newId, EmailKey, NewUser(verify(idToken).token).email)
    ensures var r := VerifyFirebaseToken(users, Some(idToken), verify, newId);
      r.response.Success? && r.store == Store.Insert(users, newId, NewUser(verify(idToken).token))
  {
  }

  /** `adminLogin`: local password login is not implemented; every request is answered 501. */
  function AdminLogin(email: Option<string>, password: Option<string>): (r: Response<()>)
    ensures r.Failure? && r.code == NOT_IMPLEMENTED
  {
    Failure(NOT_IMPLEMENTED, "Not implemented")
  }
}
