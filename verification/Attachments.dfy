/** Attachment intake: many clients sign and verify uploads at once.  Each read, each storage call and
    each transaction is one step, and the steps of different clients interleave freely. */
module Attachments {
  import opened Foundations
  import opened Models
  import opened Repository
  import opened Identifiers
  import opened Access
  import opened Texts

  const ALLOWED_TYPES: set<string> := {
    "application/pdf", "audio/m4a", "audio/mpeg", "audio/ogg", "audio/wav", "audio/webm",
    "image/jpeg", "image/png", "image/webp", "text/plain" }

  datatype UploadRequest = UploadRequest(
    attachmentId: string, originalName: Option<string>, contentType: string, byteSize: int, sha256: string)

  /** What storage reports about an object. */
  datatype StoredObject = StoredObject(name: string, contentType: string, byteSize: int, generation: Option<string>)

  function LowerText(s: string): string {
    seq(|s|, i requires 0 <= i < |s| => LowerChar(s[i]))
  }

  function ObjectPath(project: string, id: string): string {
    "projects/" + project + "/attachments/" + id
  }

  /** The upload that an attachment ID is bound to. */
  datatype Contract = Contract(objectPath: string, originalName: Option<string>, contentType: string,
                               byteSize: int, sha256: string)

  function ContractOf(a: Attachment): Contract {
    Contract(a.objectPath, a.originalName, a.contentType, a.byteSize, LowerText(a.sha256))
  }

  function RequestedContract(request: UploadRequest, path: string): Contract {
    Contract(path, request.originalName, request.contentType, request.byteSize, LowerText(request.sha256))
  }

  function AttachmentKey(project: string, id: string): Key {
    Key(Kind.Attachments, project, id)
  }

  function ReadAttachment(db: Db, project: string, id: string): Option<Attachment> {
    var k := AttachmentKey(project, id);
    if k in db && db[k].entity.AttachmentEntity? then Some(db[k].entity.attachment) else None
  }

  function NewAttachment(access: AccessContext, request: UploadRequest): Attachment {
    Attachment(request.attachmentId, access.projectId, ObjectPath(access.projectId, request.attachmentId),
               request.originalName, request.contentType, request.byteSize, LowerText(request.sha256), Initiated,
               Some(access.userId), map[])
  }

  datatype Action = Requested | VerifiedUpload | RejectedUpload

  function ActionText(action: Action): string {
    match action
    case Requested => "attachment.upload_requested"
    case VerifiedUpload => "attachment.upload_verified"
    case RejectedUpload => "attachment.upload_rejected"
  }

  function SummaryText(action: Action): string {
    match action
    case Requested => "Attachment upload URL issued"
    case VerifiedUpload => "Attachment upload verified"
    case RejectedUpload => "Attachment upload rejected"
  }

  function StatusText(status: UploadStatus): string {
    match status
    case Initiated => "initiated"
    case Uploaded => "uploaded"
    case Verified => "verified"
    case Rejected => "rejected"
    case Deleted => "deleted"
  }

  function ActionKey(project: string, id: string, action: Action): Key {
    Key(Activities, project, AttachmentActivityId(id, ActionText(action)))
  }

  function ActionEvent(access: AccessContext, a: Attachment, action: Action, now: int): ActivityEvent {
    ActivityEvent(AttachmentActivityId(a.id, ActionText(action)), access.projectId, User,
                  Some(access.userId), ActionText(action), "attachment", a.id, SummaryText(action),
                  map["upload_status" := Some(StatusText(a.status))], None, None, None, now)
  }

  /** `_create_activity`: an event that is already there is left as it is. */
  function RecordAction(db: Db, access: AccessContext, a: Attachment, action: Action, now: int): Db {
    if ActionKey(access.projectId, a.id, action) in db then db
    else
      match CreateIn(db, ActivityEntity(ActionEvent(access, a, action, now)))
      case Success(after) => after
      case Failure(_) => db
  }

  /** `_create_with_activity` as one transaction. */
  function CreateWithActivity(db: Db, access: AccessContext, a: Attachment, now: int): Result<Db, Error> {
    CreateIn(RecordAction(db, access, a, Requested, now), AttachmentEntity(a))
  }

  /** `_save_with_activity` as one transaction; the save insists on version 0. */
  function SaveWithActivity(db: Db, access: AccessContext, updated: Attachment, action: Action,
                            now: int): Result<Db, Error> {
    if AttachmentKey(updated.projectId, updated.id) !in db then Failure(EntityNotFound)
    else SaveIn(RecordAction(db, access, updated, action, now), AttachmentEntity(updated), Some(0))
  }

  function VerifiedCopy(a: Attachment, generation: Option<string>, at: string): Attachment {
    a.(status := Verified, metadata := a.metadata["storage_generation" := generation]["verified_at" := Some(at)])
  }

  function RejectedCopy(a: Attachment): Attachment {
    a.(status := UploadStatus.Rejected)
  }

  /** Storage answered with the very object that was signed for. */
  predicate Genuine(a: Attachment, seen: Option<StoredObject>) {
    seen.Some? && seen.value.name == a.objectPath && seen.value.contentType == a.contentType
      && seen.value.byteSize == a.byteSize
  }

  /** Where a client is in `sign_upload` or `verify_upload`, with the values it holds. */
  datatype Place =
    | Idle
    | Creating(access: AccessContext, request: UploadRequest)
    | Rereading(access: AccessContext, request: UploadRequest)
    | Signing(access: AccessContext, request: UploadRequest, held: Attachment)
    | Inspecting(access: AccessContext, held: Attachment)
    | Judging(access: AccessContext, held: Attachment, seen: Option<StoredObject>)
    | Confirming(access: AccessContext, id: string)

  /** A signed URL: the path it is for, and the request whose type and size storage is told to accept. */
  datatype Grant = Grant(project: string, path: string, request: UploadRequest)

  /** What storage was asked about an attachment, and its answer. */
  datatype Inspection = Inspection(
    project: string, id: string, path: string, sha256: string, seen: Option<StoredObject>)

  /** The store, the clients, and what has been handed out and seen so far. */
  datatype World = World(
    db: Db, places: map<nat, Place>, grants: set<Grant>, answers: set<Attachment>, inspections: set<Inspection>)

  datatype Event =
    | StartSign(client: nat, access: AccessContext, request: UploadRequest)
    | CommitCreate(client: nat, now: int)
    | Reread(client: nat)
    | IssueGrant(client: nat)
    | StartVerify(client: nat, access: AccessContext, id: string)
    | Inspect(client: nat, seen: Option<StoredObject>)
    | CommitVerdict(client: nat, now: int, at: string)
    | RereadVerdict(client: nat)
    | Crash(client: nat)
    | Elsewhere(db: Db)

  function Inspected(access: AccessContext, held: Attachment, seen: Option<StoredObject>): Inspection {
    Inspection(access.projectId, held.id, held.objectPath, held.sha256, seen)
  }

  function PlaceOf(w: World, client: nat): Place {
    if client in w.places then w.places[client] else Idle
  }

  function Moved(w: World, client: nat, place: Place): World {
    w.(places := w.places[client := place])
  }

  /** The checks of `sign_upload` before it reads anything. */
  predicate MaySign(access: AccessContext, request: UploadRequest, maxBytes: int) {
    && Refusal(access, access.projectId, MayOperate).None?
    && request.contentType in ALLOWED_TYPES
    && 0 < request.byteSize <= maxBytes
    && |request.sha256| == 64
    && CanonicalId(request.attachmentId)
  }

  /** An existing record the request may be signed for. */
  predicate Signable(a: Attachment, access: AccessContext, request: UploadRequest) {
    ContractOf(a) == RequestedContract(request, ObjectPath(access.projectId, request.attachmentId))
      && a.status == Initiated
  }

  function StepSign(w: World, client: nat, access: AccessContext, request: UploadRequest, maxBytes: int): World {
    var existing := ReadAttachment(w.db, access.projectId, request.attachmentId);
    if !MaySign(access, request, maxBytes) then w
    else if existing.None? then Moved(w, client, Creating(access, request))
    else if Signable(existing.value, access, request) then Moved(w, client, Signing(access, request, existing.value))
    else w
  }

  function StepCreate(w: World, client: nat, access: AccessContext, request: UploadRequest, now: int): World {
    var created := NewAttachment(access, request);
    match CreateWithActivity(w.db, access, created, now)
    case Success(db) => Moved(w.(db := db), client, Signing(access, request, created))
    case Failure(EntityAlreadyExists) => Moved(w, client, Rereading(access, request))
    case Failure(_) => Moved(w, client, Idle)
  }

  function StepReread(w: World, client: nat, access: AccessContext, request: UploadRequest): World {
    var concurrent := ReadAttachment(w.db, access.projectId, request.attachmentId);
    if concurrent.Some? && Signable(concurrent.value, access, request)
    then Moved(w, client, Signing(access, request, concurrent.value))
    else Moved(w, client, Idle)
  }

  function StepVerify(w: World, client: nat, access: AccessContext, id: string): World {
    var existing := ReadAttachment(w.db, access.projectId, id);
    if Refusal(access, access.projectId, MayOperate).Some? || existing.None? then w
    else if existing.value.status == Verified then w.(answers := w.answers + {existing.value})
    else if existing.value.status == Initiated then Moved(w, client, Inspecting(access, existing.value))
    else w
  }

  function StepVerdict(w: World, client: nat, access: AccessContext, held: Attachment, seen: Option<StoredObject>,
                       now: int, at: string): World {
    if Genuine(held, seen) then
      match SaveWithActivity(w.db, access, VerifiedCopy(held, seen.value.generation, at), VerifiedUpload, now)
      case Success(db) =>
        Moved(w.(db := db, answers := w.answers + {VerifiedCopy(held, seen.value.generation, at)}), client, Idle)
      case Failure(VersionConflict) => Moved(w, client, Confirming(access, held.id))
      case Failure(_) => Moved(w, client, Idle)
    else
      match SaveWithActivity(w.db, access, RejectedCopy(held), RejectedUpload, now)
      case Success(db) => Moved(w.(db := db), client, Idle)
      case Failure(_) => Moved(w, client, Idle)
  }

  function StepConfirm(w: World, client: nat, access: AccessContext, id: string): World {
    var saved := ReadAttachment(w.db, access.projectId, id);
    var back := Moved(w, client, Idle);
    if saved.Some? && saved.value.status == Verified then back.(answers := back.answers + {saved.value}) else back
  }

  /** Work on other records: attachments stay, and no event of theirs is added, changed or removed. */
  ghost predicate LeavesAttachments(db: Db, after: Db) {
    && WellFormed(after)
    && (forall k: Key | k.kind == Kind.Attachments :: (k in after <==> k in db) && (k in db ==> after[k] == db[k]))
    && (forall p, id, action ::
          && (ActionKey(p, id, action) in after <==> ActionKey(p, id, action) in db)
          && (ActionKey(p, id, action) in db ==> after[ActionKey(p, id, action)] == db[ActionKey(p, id, action)]))
  }

  /** One step; an event that does not fit the client's place does nothing. */
  ghost function Step(w: World, e: Event, maxBytes: int): World {
    match e
    case StartSign(c, access, request) => if PlaceOf(w, c).Idle? then StepSign(w, c, access, request, maxBytes) else w
    case CommitCreate(c, now) => (match PlaceOf(w, c)
                                  case Creating(access, request) => StepCreate(w, c, access, request, now) case _ => w)
    case Reread(c) => (match PlaceOf(w, c)
                       case Rereading(access, request) => StepReread(w, c, access, request) case _ => w)
    case IssueGrant(c) =>
      (match PlaceOf(w, c)
       case Signing(access, request, held) =>
         var path := ObjectPath(access.projectId, request.attachmentId);
         Moved(w.(grants := w.grants + {Grant(access.projectId, path, request)}), c, Idle)
       case _ => w)
    case StartVerify(c, access, id) => if PlaceOf(w, c).Idle? then StepVerify(w, c, access, id) else w
    case Inspect(c, seen) =>
      (match PlaceOf(w, c)
       case Inspecting(access, held) =>
         Moved(w.(inspections := w.inspections + {Inspected(access, held, seen)}), c,
               Judging(access, held, seen))
       case _ => w)
    case CommitVerdict(c, now, at) =>
      (match PlaceOf(w, c) case Judging(access, held, seen) => StepVerdict(w, c, access, held, seen, now, at)
       case _ => w)
    case RereadVerdict(c) => (match PlaceOf(w, c)
                              case Confirming(access, id) => StepConfirm(w, c, access, id) case _ => w)
    case Crash(c) => Moved(w, c, Idle)
    case Elsewhere(db) => if LeavesAttachments(w.db, db) then w.(db := db) else w
  }

  ghost function Run(w: World, events: seq<Event>, maxBytes: int): World {
    if events == [] then w else Step(Run(w, events[..|events| - 1], maxBytes), events[|events| - 1], maxBytes)
  }
}
