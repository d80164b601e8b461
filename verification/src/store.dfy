/** A MongoDB collection as the controllers see it: documents in natural (insertion) order,
    each with its `_id`, plus unique secondary indexes. */
module Store {

  import opened Wrappers
  import Http
  import Seqs
  import Strings

  /** A string Mongoose casts to an ObjectId: 24 hexadecimal digits, in either case. Fields
      declared `Schema.Types.ObjectId` fail validation on anything else. */
  predicate IsObjectId(s: string) {
    |s| == 24 && forall i :: 0 <= i < |s| ==> IsHexDigit(s[i])
  }

  /** The canonical text of an ObjectId, the form it is stored and printed in: lower-case
      hexadecimal. Casting the text of an id in either case yields the same ObjectId. */
  function Canon(s: string): (r: string)
    ensures |r| == |s|
    ensures IsObjectId(r) <==> IsObjectId(s)
    ensures forall i :: 0 <= i < |s| ==> Strings.SameIgnoringCase(s[i], r[i]) && !Strings.IsUpper(r[i])
  {
    var r := Strings.ToLower(s);
    assert forall i :: 0 <= i < |s| ==> (IsHexDigit(r[i]) <==> IsHexDigit(s[i]));
    r
  }

  /** Two texts name the same ObjectId, or the same canonical key, exactly when they differ
      at most in the case of their letters. */
  lemma CanonCaseBlind(s: string, t: string)
    ensures Canon(s) == Canon(t) <==> Strings.EqualIgnoringCase(s, t)
  {
    Strings.ToLowerCaseBlind(s, t);
  }

  /** Canonical text is its own canonical form. */
  lemma CanonIdempotent(s: string)
    ensures Canon(Canon(s)) == Canon(s)
  {
  }

  predicate IsHexDigit(ch: char) {
    '0' <= ch <= '9' || 'a' <= ch <= 'f' || 'A' <= ch <= 'F'
  }

  /** One stored document: its `_id` and its fields. */
  datatype Doc<T> = Doc(id: string, body: T)

  /** Some document has this `_id`. */
  predicate HasId<T>(c: seq<Doc<T>>, id: string) {
    exists i :: 0 <= i < |c| && c[i].id == id
  }

  /** No two documents share an `_id`. */
  predicate UniqueIds<T>(c: seq<Doc<T>>) {
    forall i, j :: 0 <= i < j < |c| ==> c[i].id != c[j].id
  }

  /** No two documents share the value of a uniquely indexed field (or field tuple) `key`. */
  predicate UniqueKey<T, K(==)>(c: seq<Doc<T>>, key: T -> K) {
    forall i, j :: 0 <= i < j < |c| ==> key(c[i].body) != key(c[j].body)
  }

  /** A document other than `self` already holds key value `k`: inserting or updating `self`
      to `k` violates the unique index (MongoDB error E11000). */
  predicate Collides<T, K(==)>(c: seq<Doc<T>>, self: string, key: T -> K, k: K) {
    exists i :: 0 <= i < |c| && c[i].id != self && key(c[i].body) == k
  }

  /** `Model.findById(id)`. */
  function Find<T>(c: seq<Doc<T>>, id: string): (r: Option<T>)
    ensures r.Some? <==> HasId(c, id)
    ensures r.Some? ==> Doc(id, r.value) in c
    ensures r.Some? && UniqueIds(c) ==> forall i :: 0 <= i < |c| && c[i].id == id ==> c[i].body == r.value
  {
    if |c| == 0 then None
    else if c[0].id == id then Some(c[0].body)
    else
      var r := Find(c[1..], id);
      assert HasId(c, id) ==> HasId(c[1..], id) by {
        if HasId(c, id) {
          var i :| 0 <= i < |c| && c[i].id == id;
          assert c[1..][i - 1] == c[i];
        }
      }
      assert HasId(c[1..], id) ==> HasId(c, id) by {
        if HasId(c[1..], id) {
          var i :| 0 <= i < |c[1..]| && c[1..][i].id == id;
          assert c[i + 1] == c[1..][i];
        }
      }
      r
  }

  /** `Model.findOne({field: k})`: the first document, in natural order, whose `key` is `k`. */
  function FindOne<T, K(==)>(c: seq<Doc<T>>, key: T -> K, k: K): (r: Option<T>)
    ensures r.Some? <==> exists i :: 0 <= i < |c| && key(c[i].body) == k
    ensures r.Some? ==> key(r.value) == k && exists i :: 0 <= i < |c| && c[i].body == r.value
  {
    if |c| == 0 then None
    else if key(c[0].body) == k then Some(c[0].body)
    else
      var r := FindOne(c[1..], key, k);
      assert forall i :: 1 <= i < |c| ==> c[i] == c[1..][i - 1];
      r
  }

  /** `Model.findById(id)` on an id taken from the request path: an id that does not cast
      to an ObjectId makes the query itself throw (500); otherwise the query looks for the
      canonical form of the id, and a miss yields `null` (404). */
  function Lookup<T>(c: seq<Doc<T>>, id: string): (r: Http.Gate<T>)
    ensures !IsObjectId(id) ==> r == Http.Halt(Http.SERVER_ERROR, "Server error")
    ensures IsObjectId(id) && !HasId(c, Canon(id)) ==> r == Http.Halt(Http.NOT_FOUND, "Not found")
    ensures r.Next? <==> IsObjectId(id) && HasId(c, Canon(id))
    ensures r.Next? ==> Find(c, Canon(id)) == Some(r.value)
  {
    if !IsObjectId(id) then Http.Halt(Http.SERVER_ERROR, "Server error")
    else match Find(c, Canon(id))
      case None => Http.Halt(Http.NOT_FOUND, "Not found")
      case Some(t) => Http.Next(t)
  }

  /** The letter case of a path id does not matter: it finds what its canonical form finds. */
  lemma LookupIgnoresCase<T>(c: seq<Doc<T>>, id: string)
    ensures Lookup(c, id) == Lookup(c, Canon(id))
  {
    CanonIdempotent(id);
  }

  /** An upper-case path id reaches the document stored under the lower-case one. */
  lemma UpperCaseIdFound<T>(body: T)
    ensures Lookup([Doc("507f1f77bcf86cd799439011", body)], "507F1F77BCF86CD799439011") == Http.Next(body)
  {
    var up := "507F1F77BCF86CD799439011";
    var low := "507f1f77bcf86cd799439011";
    assert IsObjectId(up) by {
      forall i | 0 <= i < |up| ensures IsHexDigit(up[i]) {}
    }
    assert Canon(up) == low;
    assert Find([Doc(low, body)], low) == Some(body);
  }

  /** `new Model(body).save()` for a fresh document: appended in natural order. */
  function Insert<T>(c: seq<Doc<T>>, id: string, body: T): (r: seq<Doc<T>>)
    ensures |r| == |c| + 1 && r[..|c|] == c && r[|c|] == Doc(id, body)
    ensures !HasId(c, id) && UniqueIds(c) ==> UniqueIds(r)
  {
    c + [Doc(id, body)]
  }

  /** Rewrites the body of the document with this `_id` (`findByIdAndUpdate`, or a loaded
      document saved back); every other document is left as it was. */
  function Update<T>(c: seq<Doc<T>>, id: string, f: T -> T): (r: seq<Doc<T>>)
    ensures |r| == |c|
    ensures forall i :: 0 <= i < |c| ==> r[i].id == c[i].id
    ensures forall i :: 0 <= i < |c| && c[i].id != id ==> r[i] == c[i]
    ensures forall i :: 0 <= i < |c| && c[i].id == id ==> r[i].body == f(c[i].body)
    ensures UniqueIds(c) ==> UniqueIds(r)
    ensures HasId(r, id) <==> HasId(c, id)
  {
    seq(|c|, i requires 0 <= i < |c| => if c[i].id == id then Doc(id, f(c[i].body)) else c[i])
  }

  /** `findByIdAndDelete(id)`: drops the document with this `_id`, keeping the rest in order. */
  function Remove<T(!new)>(c: seq<Doc<T>>, id: string): (r: seq<Doc<T>>)
    ensures !HasId(r, id)
    ensures forall d :: d in r <==> d in c && d.id != id
    ensures Seqs.IsSubsequence(r, c)
  {
    var r := Seqs.Filter(c, (d: Doc<T>) => d.id != id);
    Seqs.FilterIsSubsequence(c, (d: Doc<T>) => d.id != id);
    assert !HasId(r, id) by {
      forall i | 0 <= i < |r| ensures r[i].id != id { assert r[i] in r; }
    }
    r
  }

  /** With unique ids, deleting a present document removes exactly one. */
  lemma {:induction false} RemoveOne<T(!new)>(c: seq<Doc<T>>, id: string)
    requires UniqueIds(c) && HasId(c, id)
    ensures |Remove(c, id)| == |c| - 1
  {
    var k :| 0 <= k < |c| && c[k].id == id;
    var p := (d: Doc<T>) => d.id != id;
    assert c == c[..k] + [c[k]] + c[k + 1..];
    Seqs.CountAppend(c[..k] + [c[k]], c[k + 1..], p);
    Seqs.CountAppend(c[..k], [c[k]], p);
    AllKept(c[..k], p);
    AllKept(c[k + 1..], p);
    assert Seqs.Filter([c[k]], p) == [];
  }

  lemma {:induction false} AllKept<T(!new)>(s: seq<T>, p: T -> bool)
    requires forall i :: 0 <= i < |s| ==> p(s[i])
    ensures Seqs.Count(s, p) == |s|
  {
    if |s| > 0 {
      AllKept(s[1..], p);
    }
  }

  /** Removing a document keeps every uniqueness the collection had. */
  lemma {:induction false} RemoveKeepsUnique<T(!new), K>(c: seq<Doc<T>>, id: string, key: T -> K)
    requires UniqueKey(c, key)
    ensures UniqueKey(Remove(c, id), key)
  {
    SubsequenceKeepsUnique(Remove(c, id), c, key);
  }

  lemma {:induction false} SubsequenceKeepsUnique<T, K>(a: seq<Doc<T>>, b: seq<Doc<T>>, key: T -> K)
    requires Seqs.IsSubsequence(a, b) && UniqueKey(b, key)
    ensures UniqueKey(a, key)
    decreases |b|
  {
    if |a| > 0 {
      if a[0] == b[0] {
        SubsequenceKeepsUnique(a[1..], b[1..], key);
        SubsequenceMembers(a[1..], b[1..]);
        forall j | 0 < j < |a| ensures key(a[0].body) != key(a[j].body) {
          assert a[j] == a[1..][j - 1];
          var m :| 0 <= m < |b[1..]| && b[1..][m] == a[j];
          assert b[m + 1] == a[j];
        }
      } else {
        SubsequenceKeepsUnique(a, b[1..], key);
      }
    }
  }

  lemma {:induction false} SubsequenceMembers<T>(a: seq<T>, b: seq<T>)
    requires Seqs.IsSubsequence(a, b)
    ensures forall i :: 0 <= i < |a| ==> exists m :: 0 <= m < |b| && b[m] == a[i]
    decreases |b|
  {
    if |a| > 0 {
      if a[0] == b[0] {
        SubsequenceMembers(a[1..], b[1..]);
        forall i | 0 < i < |a| ensures exists m :: 0 <= m < |b| && b[m] == a[i] {
          assert a[i] == a[1..][i - 1];
          var m :| 0 <= m < |b[1..]| && b[1..][m] == a[i];
          assert b[m + 1] == a[i];
        }
      } else {
        SubsequenceMembers(a, b[1..]);
        forall i | 0 <= i < |a| ensures exists m :: 0 <= m < |b| && b[m] == a[i] {
          var m :| 0 <= m < |b[1..]| && b[1..][m] == a[i];
          assert b[m + 1] == a[i];
        }
      }
    }
  }

  /** Inserting a document whose key value nobody holds keeps the key unique. */
  lemma InsertKeepsUnique<T, K>(c: seq<Doc<T>>, id: string, body: T, key: T -> K)
    requires !Collides(c, id, key, key(body)) && !HasId(c, id)
    ensures UniqueKey(c, key) ==> UniqueKey(Insert(c, id, body), key)
  {
    var r := Insert(c, id, body);
    forall i, j | UniqueKey(c, key) && 0 <= i < j < |r| ensures key(r[i].body) != key(r[j].body) {
      if j == |c| {
        assert r[i] == c[i];
        assert c[i].id != id;
      } else {
        assert r[i] == c[i] && r[j] == c[j];
      }
    }
  }

  /** Updating a document to a key value no other document holds keeps the key unique. */
  lemma UpdateKeepsUnique<T, K>(c: seq<Doc<T>>, id: string, f: T -> T, key: T -> K)
    requires UniqueIds(c) && UniqueKey(c, key)
    requires forall i :: 0 <= i < |c| && c[i].id == id ==> !Collides(c, id, key, key(f(c[i].body)))
    ensures UniqueKey(Update(c, id, f), key)
  {
    var r := Update(c, id, f);
    forall i, j | 0 <= i < j < |r| ensures key(r[i].body) != key(r[j].body) {
      if c[i].id == id {
        assert !Collides(c, id, key, key(f(c[i].body)));
        assert c[j].id != id;
      } else if c[j].id == id {
        assert !Collides(c, id, key, key(f(c[j].body)));
      }
    }
  }
}
