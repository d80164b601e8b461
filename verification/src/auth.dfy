/** The Firebase token middleware and the role gate that every protected route runs. Token
    verification is an oracle: a function from the token string to its outcome. */
module Auth {

  import opened Wrappers
  import opened Http
  import Strings

  /** The claims of a verified ID token that the server reads. */
  datatype Decoded = Decoded(uid: string, email: Option<string>, name: Option<string>,
                             role: Option<string>, emailVerified: Option<bool>)

  /** The outcome of `verifyIdToken`: the claims, or a rejection (expired or otherwise). */
  datatype Verification = Verified(token: Decoded) | Rejected(expired: bool)

  type Verifier = string -> Verification

  /** The identity attached to the request as `req.firebaseUser`. */
  datatype FirebaseUser = FirebaseUser(uid: string, email: Option<string>, name: Option<string>,
                                       role: Option<string>, emailVerified: Option<bool>)

  const Scheme: string := "Bearer "

  /** JavaScript truthiness of an optional string. */
  predicate Truthy(s: Option<string>) { s.Some? && s.value != "" }

  /** `authHeader.split('Bearer ')[1]` on a header that starts with the scheme: the text after
      the scheme up to its next occurrence, if any. */
  function BearerToken(header: string): (t: string)
    requires Strings.StartsWith(header, Scheme)
    ensures |Scheme| + |t| <= |header| && t == header[|Scheme|..|Scheme| + |t|]
    ensures forall k :: |Scheme| <= k < |Scheme| + |t| ==> !Strings.OccursAt(header, Scheme, k)
    ensures |Scheme| + |t| == |header| || Strings.OccursAt(header, Scheme, |Scheme| + |t|)
  {
    match Strings.IndexOf(header, Scheme, |Scheme|)
    case Some(e) => header[|Scheme|..e]
    case None => header[|Scheme|..]
  }

  /** `pat` occurs somewhere in `s`. */
  predicate Contains(s: string, pat: string) {
    exists k :: 0 <= k <= |s| && Strings.OccursAt(s, pat, k)
  }

  /** A token without the scheme text in it reaches verification exactly as sent. */
  lemma BearerTokenRoundTrip(t: string)
    requires !Contains(t, Scheme)
    ensures Strings.StartsWith(Scheme + t, Scheme) && BearerToken(Scheme + t) == t
  {
    var h := Scheme + t;
    assert h[..|Scheme|] == Scheme;
    forall k | |Scheme| <= k
      ensures !Strings.OccursAt(h, Scheme, k)
    {
      if Strings.OccursAt(h, Scheme, k) {
        assert h[k..k + |Scheme|] == t[k - |Scheme|..k - |Scheme| + |Scheme|];
        assert Strings.OccursAt(t, Scheme, k - |Scheme|);
        assert false;
      }
    }
    assert h[|Scheme|..] == t;
  }

  /** `firebaseAuthMiddleware`: a missing header or one without the scheme 401 "No token
      provided"; a rejected token 401; otherwise the identity, with a falsy role claim read as
      no role. */
  function Authenticate(header: Option<string>, verify: Verifier): (r: Gate<FirebaseUser>)
    ensures header.None? || !Strings.StartsWith(header.value, Scheme) ==> r == Halt(UNAUTHORIZED, "No token provided")
    ensures r.Next? <==>
      header.Some? && Strings.StartsWith(header.value, Scheme) && verify(BearerToken(header.value)).Verified?
    ensures r.Halt? ==> r.code == UNAUTHORIZED
    ensures r.Next? ==>
      var d := verify(BearerToken(header.value)).token;
      && r.value.uid == d.uid && r.value.email == d.email && r.value.name == d.name
      && r.value.emailVerified == d.emailVerified
      && (r.value.role.Some? <==> Truthy(d.role))
      && (r.value.role.Some? ==> r.value.role == d.role)
  {
    if header.None? || !Strings.StartsWith(header.value, Scheme) then Halt(UNAUTHORIZED, "No token provided")
    else match verify(BearerToken(header.value))
      case Rejected(_) => Halt(UNAUTHORIZED, "Invalid or expired token")
      case Verified(d) =>
        Next(FirebaseUser(d.uid, d.email, d.name, if Truthy(d.role) then d.role else None, d.emailVerified))
  }

  /** `requireRole(...allowed)`: no identity 401; no role or one outside the list 403. */
  function RequireRole(allowed: seq<string>, user: Option<FirebaseUser>): (r: Gate<FirebaseUser>)
    ensures user.None? ==> r == Halt(UNAUTHORIZED, "Authentication required")
    ensures user.Some? ==> (r == Next(user.value) <==> user.value.role.Some? && user.value.role.value in allowed)
    ensures user.Some? && r.Halt? ==> r == Halt(FORBIDDEN, "Insufficient permissions")
  {
    if user.None? then Halt(UNAUTHORIZED, "Authentication required")
    else if user.value.role.None? || user.value.role.value !in allowed then Halt(FORBIDDEN, "Insufficient permissions")
    else Next(user.value)
  }

  /** Allowing more roles never turns a pass into a refusal. */
  lemma RequireRoleWidening(allowed: seq<string>, wider: seq<string>, user: Option<FirebaseUser>)
    requires forall x :: x in allowed ==> x in wider
    ensures RequireRole(allowed, user).Next? ==> RequireRole(wider, user).Next?
  {
  }

  /** An empty list refuses every identity. */
  lemma RequireRoleEmpty(user: FirebaseUser)
    ensures RequireRole([], Some(user)) == Halt(FORBIDDEN, "Insufficient permissions")
  {
  }
}
