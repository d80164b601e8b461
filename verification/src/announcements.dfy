/** Announcements: listing, creation with an optional push notification to the
    `announcements` topic, update and deletion. The push service is an outcome parameter. */
module Announcements {

  import opened Wrappers
  import opened Http
  import Seqs
  import Store
  import Strings

  const Kinds: seq<string> := ["general", "urgent", "event", "holiday", "exam"]
  const Audiences: seq<string> := ["all", "students", "teachers", "parents", "specific_class"]
  const Statuses: seq<string> := ["draft", "published", "archived"]

  /** Longest notification body, in characters of the content. */
  const PreviewLength: nat := 100

  datatype Announcement = Announcement(
    title: string,
    content: string,
    kind: string,
    targetAudience: string,
    createdBy: string,
    publishedAt: int,
    sendNotification: bool,
    notificationSent: bool,
    status: string)

  type Announcements = seq<Store.Doc<Announcement>>

  /** Fields of a create or update body; `createdBy` in a create body is overridden by the
      caller, while an update body may set it. */
  datatype AnnouncementInput = AnnouncementInput(
    title: Option<string>,
    content: Option<string>,
    kind: Option<string>,
    targetAudience: Option<string>,
    createdBy: Option<string>,
    publishedAt: Option<int>,
    sendNotification: Option<bool>,
    notificationSent: Option<bool>,
    status: Option<string>)

  /** The message pushed to the topic. */
  datatype Notification = Notification(topic: string, title: string, body: string, id: string)

  /** What a create request yields: the response, the store after it, and the push it
      attempted, if any. */
  datatype Created = Created(step: Step<Announcement, Announcements>, attempted: Option<Notification>)

  predicate Present(s: Option<string>) { s.Some? && s.value != "" }

  predicate InEnum(s: Option<string>, values: seq<string>) { s.None? || s.value in values }

  predicate ValidInput(b: AnnouncementInput, uid: string) {
    && Present(b.title) && Present(b.content) && Store.IsObjectId(uid)
    && InEnum(b.kind, Kinds) && InEnum(b.targetAudience, Audiences) && InEnum(b.status, Statuses)
  }

  /** The document the schema builds from a valid body, with its defaults applied. */
  function FromInput(b: AnnouncementInput, uid: string, now: int): (a: Announcement)
    requires ValidInput(b, uid)
    ensures a.title == b.title.value && a.content == b.content.value && a.createdBy == Store.Canon(uid)
    ensures a.kind in Kinds && a.targetAudience in Audiences && a.status in Statuses
    ensures a.kind == b.kind.GetOr("general") && a.targetAudience == b.targetAudience.GetOr("all")
    ensures a.status == b.status.GetOr("published")
    ensures a.sendNotification == b.sendNotification.GetOr(true)
    ensures a.notificationSent == b.notificationSent.GetOr(false)
    ensures a.publishedAt == b.publishedAt.GetOr(now)
  {
    Announcement(b.title.value, b.content.value, b.kind.GetOr("general"),
                 b.targetAudience.GetOr("all"), Store.Canon(uid), b.publishedAt.GetOr(now),
                 b.sendNotification.GetOr(true), b.notificationSent.GetOr(false),
                 b.status.GetOr("published"))
  }

  /** `createAnnouncement`. An invalid body is a 500 and nothing is stored. Otherwise the
      announcement is stored, a push is attempted exactly when it asks for one and none was
      sent yet, and the stored flag turns true only when the push succeeded. Either way the
      reply is 201. */
  function CreateAnnouncement(store: Announcements, b: AnnouncementInput, uid: string, newId: string,
                              now: int, pushSucceeds: bool): (r: Created)
    ensures !ValidInput(b, uid) ==> r == Created(Step(Failure(SERVER_ERROR, "Server error"), store), None)
    ensures ValidInput(b, uid) ==>
      && r.step.response.Success? && r.step.response.code == CREATED
      && r.step.store == Store.Insert(store, newId, r.step.response.data)
      && var a := r.step.response.data;
      && a.title == b.title.value && a.content == b.content.value && a.createdBy == Store.Canon(uid)
      && a.kind == b.kind.GetOr("general") && a.targetAudience == b.targetAudience.GetOr("all")
      && a.status == b.status.GetOr("published") && a.publishedAt == b.publishedAt.GetOr(now)
      && a.sendNotification == b.sendNotification.GetOr(true)
      && (r.attempted.Some? <==> b.sendNotification.GetOr(true) && !b.notificationSent.GetOr(false))
      && (r.attempted.Some? ==>
            && r.attempted.value.topic == "announcements"
            && r.attempted.value.title == a.title
            && r.attempted.value.id == Store.Canon(newId)
            && |r.attempted.value.body| == (if |a.content| < PreviewLength then |a.content| else PreviewLength)
            && Strings.StartsWith(a.content, r.attempted.value.body))
      && a.notificationSent == (b.notificationSent.GetOr(false) || (r.attempted.Some? && pushSucceeds))
  {
    if !ValidInput(b, uid) then Created(Step(Failure(SERVER_ERROR, "Server error"), store), None)
    else
      var a := FromInput(b, uid, now);
      if a.sendNotification && !a.notificationSent then
        var n := Notification("announcements", a.title, Strings.Take(a.content, PreviewLength), Store.Canon(newId));
        var a' := if pushSucceeds then a.(notificationSent := true) else a;
        Created(Step(Success(CREATED, a'), Store.Insert(store, newId, a')), Some(n))
      else
        Created(Step(Success(CREATED, a), Store.Insert(store, newId, a)), None)
  }

  /** A stored announcement is never pushed a second time by its own creation: asking for a
      push on a body already marked as sent attempts nothing. */
  lemma NoPushWhenAlreadySent(store: Announcements, b: AnnouncementInput, uid: string, newId: string,
                              now: int, ok: bool)
    requires b.notificationSent == Some(true)
    ensures CreateAnnouncement(store, b, uid, newId, now, ok).attempted.None?
  {
  }

  /** Applies the fields present in an update body; an author it names is stored as the
      ObjectId it casts to. */
  function Patch(a: Announcement, b: AnnouncementInput): (r: Announcement)
    ensures b.createdBy.None? ==> r.createdBy == a.createdBy
    ensures b.createdBy.Some? ==> r.createdBy == Store.Canon(b.createdBy.value)
    ensures r.title == b.title.GetOr(a.title) && r.content == b.content.GetOr(a.content)
    ensures r.kind == b.kind.GetOr(a.kind) && r.status == b.status.GetOr(a.status)
    ensures r.targetAudience == b.targetAudience.GetOr(a.targetAudience) && r.publishedAt == b.publishedAt.GetOr(a.publishedAt)
    ensures r.sendNotification == b.sendNotification.GetOr(a.sendNotification)
    ensures r.notificationSent == b.notificationSent.GetOr(a.notificationSent)
    ensures b == AnnouncementInput(None, None, None, None, None, None, None, None, None) ==> r == a
  {
    Announcement(b.title.GetOr(a.title), b.content.GetOr(a.content), b.kind.GetOr(a.kind),
                 b.targetAudience.GetOr(a.targetAudience),
                 if b.createdBy.Some? then Store.Canon(b.createdBy.value) else a.createdBy,
                 b.publishedAt.GetOr(a.publishedAt), b.sendNotification.GetOr(a.sendNotification),
                 b.notificationSent.GetOr(a.notificationSent), b.status.GetOr(a.status))
  }

  /** Update validators check only the fields the body sets. */
  predicate ValidPatch(b: AnnouncementInput) {
    && (b.title.None? || b.title.value != "") && (b.content.None? || b.content.value != "")
    && InEnum(b.kind, Kinds) && InEnum(b.targetAudience, Audiences) && InEnum(b.status, Statuses)
    && (b.createdBy.None? || Store.IsObjectId(b.createdBy.value))
  }

  /** `updateAnnouncement`: an invalid body or a malformed id is a 500, an unknown id a 404; otherwise the
      stored document becomes the patched one and no other document changes. */
  function UpdateAnnouncement(store: Announcements, id: string, b: AnnouncementInput): (r: Step<Announcement, Announcements>)
    ensures !ValidPatch(b) ==> r == Step(Failure(SERVER_ERROR, "Server error"), store)
    ensures ValidPatch(b) && !Store.IsObjectId(id) ==> r == Step(Failure(SERVER_ERROR, "Server error"), store)
    ensures ValidPatch(b) && Store.IsObjectId(id) && !Store.HasId(store, Store.Canon(id)) ==> r == Step(Failure(NOT_FOUND, "Not found"), store)
    ensures r.response.Success? <==> ValidPatch(b) && Store.IsObjectId(id) && Store.HasId(store, Store.Canon(id))
    ensures r.response.Success? ==>
      && r.response.code == OK
      && r.response.data == Patch(Store.Find(store, Store.Canon(id)).value, b)
      && |r.store| == |store|
      && (forall k :: 0 <= k < |store| ==> r.store[k].id == store[k].id)
      && (forall k :: 0 <= k < |store| && store[k].id != Store.Canon(id) ==> r.store[k] == store[k])
      && Store.Find(r.store, Store.Canon(id)) == Some(r.response.data)
  {
    if !ValidPatch(b) then Step(Failure(SERVER_ERROR, "Server error"), store)
    else match Store.Lookup(store, id)
      case Halt(code, e) => Step(Failure(code, e), store)
      case Next(a) =>
        var a' := Patch(a, b);
        var s' := Store.Update(store, Store.Canon(id), (_: Announcement) => a');
        assert Store.HasId(s', Store.Canon(id));
        Step(Success(OK, a'), s')
  }

  /** `deleteAnnouncement`: 500 for a malformed id, 404 for an unknown one, otherwise that document goes and every
      other stays in order. */
  function DeleteAnnouncement(store: Announcements, id: string): (r: Step<string, Announcements>)
    ensures !Store.IsObjectId(id) ==> r == Step(Failure(SERVER_ERROR, "Server error"), store)
    ensures Store.IsObjectId(id) && !Store.HasId(store, Store.Canon(id)) ==> r == Step(Failure(NOT_FOUND, "Not found"), store)
    ensures Store.IsObjectId(id) && Store.HasId(store, Store.Canon(id)) ==>
      && r.response == Success(OK, "Announcement deleted")
      && !Store.HasId(r.store, Store.Canon(id))
      && forall d :: d in r.store <==> d in store && d.id != Store.Canon(id)
  {
    match Store.Lookup(store, id)
    case Halt(code, e) => Step(Failure(code, e), store)
    case Next(_) => Step(Success(OK, "Announcement deleted"), Store.Remove(store, Store.Canon(id)))
  }

  /** The query of a list request; an empty string is no filter. */
  datatype AnnouncementQuery = AnnouncementQuery(status: string, kind: string)

  predicate Matches(a: Announcement, q: AnnouncementQuery) {
    (q.status == "" || a.status == q.status) && (q.kind == "" || a.kind == q.kind)
  }

  predicate NewestFirst(a: Store.Doc<Announcement>, b: Store.Doc<Announcement>) {
    a.body.publishedAt >= b.body.publishedAt
  }

  /** `getAllAnnouncements`: the matching announcements, newest first. */
  function GetAllAnnouncements(store: Announcements, q: AnnouncementQuery): (r: seq<Store.Doc<Announcement>>)
    ensures forall d :: d in r <==> d in store && Matches(d.body, q)
    ensures multiset(r) == multiset(Seqs.Filter(store, (d: Store.Doc<Announcement>) => Matches(d.body, q)))
    ensures forall i, j :: 0 <= i < j < |r| ==> r[i].body.publishedAt >= r[j].body.publishedAt
  {
    Seqs.QuerySorted(store, (d: Store.Doc<Announcement>) => Matches(d.body, q), NewestFirst);
    Seqs.Query(store, (d: Store.Doc<Announcement>) => Matches(d.body, q), NewestFirst)
  }
}
