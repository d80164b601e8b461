/** The console page that creates teacher accounts: its access gate, the parsing of the
    comma-separated subject and class fields, and the form reset after a create. The HTTP
    call is an outcome parameter. */
module ManageTeachers {

  import opened Wrappers
  import Seqs
  import Strings
  import Users

  // ---------------------------------------------------------------------------------------------
  // Comma-separated lists

  /** `s.split(',').map(x => x.trim())`: every piece trimmed, so each is empty or starts and
      ends with a non-space. */
  function TrimAll(parts: seq<string>): (r: seq<string>)
    ensures |r| == |parts| && forall i :: 0 <= i < |parts| ==> r[i] == Strings.Trim(parts[i])
    ensures forall x :: x in r ==> x == "" || Trimmed(x)
  {
    seq(|parts|, i requires 0 <= i < |parts| => Strings.Trim(parts[i]))
  }

  /** Neither end of `x` is whitespace. */
  predicate Trimmed(x: string) {
    x != "" && !Strings.IsSpace(x[0]) && !Strings.IsSpace(x[|x| - 1])
  }

  predicate NonEmpty(s: string) { s != "" }

  /** `s.split(',').map(x => x.trim()).filter(Boolean)`: the trimmed pieces that are not
      empty, in their order, at most one more than there are commas. */
  function ParseList(s: string): (r: seq<string>)
    ensures forall x :: x in r ==> Trimmed(x)
    ensures |r| <= Strings.Occurrences(s, ',') + 1
    ensures Seqs.IsSubsequence(r, TrimAll(Strings.Split(s, ',')))
    ensures |r| == Seqs.Count(TrimAll(Strings.Split(s, ',')), NonEmpty)
    ensures forall x :: x in r <==> x in TrimAll(Strings.Split(s, ',')) && x != ""
  {
    var trimmed := TrimAll(Strings.Split(s, ','));
    Seqs.FilterIsSubsequence(trimmed, NonEmpty);
    Seqs.Filter(trimmed, NonEmpty)
  }

  /** No parsed item contains the separator. */
  lemma ParseListNoComma(s: string)
    ensures forall x :: x in ParseList(s) ==> ',' !in x
  {
    var pieces := Strings.Split(s, ',');
    var trimmed := TrimAll(pieces);
    forall x | x in ParseList(s) ensures ',' !in x {
      assert x in trimmed;
      var i :| 0 <= i < |trimmed| && trimmed[i] == x;
      TrimKeepsOut(pieces[i], ',');
    }
  }

  /** Trimming never introduces a character. */
  lemma TrimKeepsOut(s: string, c: char)
    requires c !in s
    ensures c !in Strings.Trim(s)
  {
    var t := Strings.TrimStart(s);
    assert forall x :: x in t ==> x in s;
    var r := Strings.TrimEnd(t);
    assert forall x :: x in r ==> x in t;
  }

  /** Whitespace and commas alone parse to nothing, the empty input included. */
  lemma BlankParsesEmpty(s: string)
    requires forall i :: 0 <= i < |s| ==> s[i] == ',' || Strings.IsSpace(s[i])
    ensures ParseList(s) == []
  {
    var pieces := Strings.Split(s, ',');
    var trimmed := TrimAll(pieces);
    forall i | 0 <= i < |pieces| ensures trimmed[i] == "" {
      PieceOfBlank(s, i);
    }
  }

  /** Each piece of a split of commas and whitespace is whitespace only. */
  lemma {:induction false} PieceOfBlank(s: string, i: nat)
    requires forall k :: 0 <= k < |s| ==> s[k] == ',' || Strings.IsSpace(s[k])
    requires i < |Strings.Split(s, ',')|
    ensures Strings.AllSpace(Strings.Split(s, ',')[i])
  {
    if |s| > 0 {
      var rest := Strings.Split(s[1..], ',');
      if s[0] == ',' {
        if i > 0 { PieceOfBlank(s[1..], i - 1); }
      } else if i == 0 {
        PieceOfBlank(s[1..], 0);
      } else {
        PieceOfBlank(s[1..], i);
      }
    }
  }

  /** A list of non-empty, already trimmed items without commas survives the join the form
      field holds and the parse back. */
  lemma {:induction false} ParseJoin(items: seq<string>)
    requires forall x :: x in items ==> x != "" && ',' !in x && Strings.Trim(x) == x
    ensures ParseList(Strings.Join(items, ',')) == items
  {
    var s := Strings.Join(items, ',');
    SplitJoin(items);
    if |items| == 0 {
      assert TrimAll([""]) == [""];
    } else {
      assert TrimAll(items) == items;
      Seqs.FilterAll(items, NonEmpty);
    }
  }

  /** Splitting a join of comma-free pieces gives the pieces back (for a non-empty list). */
  lemma {:induction false} SplitJoin(items: seq<string>)
    requires forall x :: x in items ==> ',' !in x
    ensures |items| > 0 ==> Strings.Split(Strings.Join(items, ','), ',') == items
    ensures |items| == 0 ==> Strings.Split(Strings.Join(items, ','), ',') == [""]
  {
    if |items| == 1 {
      assert items[0] in items;
      Strings.SplitNone(items[0], ',');
    } else if |items| > 1 {
      var s := Strings.Join(items, ',');
      var k := |items[0]|;
      var tail := Strings.Join(items[1..], ',');
      assert s == items[0] + [','] + tail;
      assert s[..k] == items[0];
      assert s[k + 1..] == tail;
      assert items[0] in items;
      Strings.SplitAtFirst(s, ',', k);
      assert forall x :: x in items[1..] ==> x in items;
      SplitJoin(items[1..]);
      var r := Strings.Split(s, ',');
      assert r == [r[0]] + r[1..];
      assert items == [items[0]] + items[1..];
    }
  }

  // ---------------------------------------------------------------------------------------------
  // Access gate

  /** The caller's profile document in the console's own user store, if any. */
  datatype Profile = Profile(role: Option<string>)

  /** Where the page goes once the sign-in state is known. */
  datatype Landing = ToLogin | ToDashboard | FetchTeachers

  /** The gate with the role spelling it is given. */
  function GateFor(required: string, signedIn: bool, profile: Option<Profile>): (r: Landing)
    ensures r == ToLogin <==> !signedIn
    ensures r == FetchTeachers <==> signedIn && profile.Some? && profile.value.role == Some(required)
  {
    if !signedIn then ToLogin
    else if profile.None? || profile.value.role != Some(required) then ToDashboard
    else FetchTeachers
  }

  /** The gate as the page writes it: it admits the role `super-admin`. */
  function GateAsWritten(signedIn: bool, profile: Option<Profile>): (r: Landing)
    ensures r == FetchTeachers <==> signedIn && profile.Some? && profile.value.role == Some("super-admin")
    ensures !signedIn ==> r == ToLogin
  {
    GateFor("super-admin", signedIn, profile)
  }

  /** No role the rest of the system assigns passes the gate as written: the superadmin, whose
      stored role is `superadmin`, is sent to the dashboard like everyone else. */
  lemma AsWrittenLocksOutSuperadmin(role: string)
    requires role in Users.Roles
    ensures GateAsWritten(true, Some(Profile(Some(role)))) == ToDashboard
  {
  }

  /** The gate with the role spelling the user schema and the users page use. */
  function Gate(signedIn: bool, profile: Option<Profile>): (r: Landing)
    ensures r == FetchTeachers <==> signedIn && profile.Some? && profile.value.role == Some("superadmin")
    ensures !signedIn ==> r == ToLogin
  {
    GateFor("superadmin", signedIn, profile)
  }

  /** The corrected gate admits exactly the holder of the superadmin role among the assigned
      roles, and nobody without a profile document. */
  lemma GateAdmitsSuperadminOnly(role: string)
    requires role in Users.Roles
    ensures Gate(true, Some(Profile(Some(role)))) == FetchTeachers <==> role == "superadmin"
    ensures Gate(true, None) == ToDashboard
  {
  }

  // ---------------------------------------------------------------------------------------------
  // The create form

  datatype Form = Form(email: string, password: string, displayName: string, subjects: string, classes: string)

  const EmptyForm: Form := Form("", "", "", "", "")

  /** The request body: the form's fields with the two lists parsed. */
  datatype Payload = Payload(email: string, password: string, displayName: string,
                             subjects: seq<string>, classes: seq<string>)

  function ToPayload(f: Form): (p: Payload)
    ensures p.email == f.email && p.password == f.password && p.displayName == f.displayName
    ensures p.subjects == ParseList(f.subjects) && p.classes == ParseList(f.classes)
  {
    Payload(f.email, f.password, f.displayName, ParseList(f.subjects), ParseList(f.classes))
  }

  /** How the create request ended: success, or failure with the reply body's `error` field
      (absent when there was no reply). */
  datatype CreateReply = Created | Refused(error: Option<string>)

  datatype PageState = PageState(form: Form, dialogOpen: bool, error: string, success: string)

  /** `handleCreateTeacher` after the request: success resets every field, closes the dialog
      and shows the success notice; failure keeps the form and dialog and shows the server's
      error or a fallback. */
  function AfterCreate(st: PageState, reply: CreateReply): (r: PageState)
    ensures reply.Created? ==> r.form == EmptyForm && !r.dialogOpen && r.error == "" && r.success != ""
    ensures reply.Refused? ==>
      && r.form == st.form && r.dialogOpen == st.dialogOpen && r.success == "" && r.error != ""
      && (reply.error.Some? && reply.error.value != "" ==> r.error == reply.error.value)
  {
    match reply
    case Created => PageState(EmptyForm, false, "", "Teacher created successfully!")
    case Refused(e) =>
      st.(error := if e.Some? && e.value != "" then e.value else "Failed to create teacher", success := "")
  }

  /** After a success the next submission sends empty lists, whatever was typed before. */
  lemma ResetFormSendsNothing(st: PageState)
    ensures ToPayload(AfterCreate(st, Created).form) == Payload("", "", "", [], [])
  {
    BlankParsesEmpty("");
  }
}
