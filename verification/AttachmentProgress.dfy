/** What an upload attempt achieves, exactly: when a creation or a verdict is written and which one it is. */
module AttachmentProgress {
  import opened Foundations
  import opened Models
  import opened Repository
  import opened Identifiers
  import opened Access
  import opened Attachments
  import opened AttachmentSafety
  import opened AttachmentOutcomes

  lemma SaveExactly(db: Db, access: AccessContext, held: Attachment, updated: Attachment, action: Action, now: int)
    requires DbOk(db) && HoldsFor(db, access, held)
    requires updated == held.(status := updated.status, metadata := updated.metadata)
    ensures var k := AttachmentKey(access.projectId, held.id);
            k in db &&
            (db[k].version == 0 ==> SaveWithActivity(db, access, updated, action, now).Success?) &&
            (db[k].version != 0 ==> SaveWithActivity(db, access, updated, action, now) == Failure(VersionConflict))
  {
    var k := AttachmentKey(access.projectId, held.id);
    assert WellFormed(db);
    RecordActionEffect(db, access, updated, action, now);
    assert KeyOf(AttachmentEntity(updated)) == k;
    assert k != ActionKey(access.projectId, updated.id, action);
    assert db[k].version == 0 ==> Valid(AttachmentEntity(held)) && Valid(AttachmentEntity(updated));
    hide DbOk, WellFormed, RecordAction;
  }

  lemma CreateExactly(db: Db, access: AccessContext, a: Attachment, now: int)
    requires WellFormed(db) && a.projectId == access.projectId && ValidAttachment(a)
    ensures AttachmentKey(a.projectId, a.id) !in db ==> CreateWithActivity(db, access, a, now).Success?
    ensures AttachmentKey(a.projectId, a.id) in db ==>
            CreateWithActivity(db, access, a, now) == Failure(EntityAlreadyExists)
  {
    RecordActionEffect(db, access, a, Requested, now);
    assert KeyOf(AttachmentEntity(a)) == AttachmentKey(a.projectId, a.id);
    assert AttachmentKey(a.projectId, a.id) != ActionKey(access.projectId, a.id, Requested);
    hide WellFormed, RecordAction;
  }

  /** A verdict is written exactly when the attachment is still undecided, and says that storage showed, or did
      not show, an object of the signed path, type and size; when another client was first the store stays as it
      is, and only a client that saw that object goes on to confirm. */
  lemma VerdictDecides(w: World, c: nat, access: AccessContext, held: Attachment, seen: Option<StoredObject>,
                       now: int, at: string)
    requires Inv(w) && HoldsFor(w.db, access, held)
    ensures var k := AttachmentKey(access.projectId, held.id);
            var next := StepVerdict(w, c, access, held, seen, now, at);
            var shown := seen.Some? && seen.value.name == held.objectPath && seen.value.contentType == held.contentType
                         && seen.value.byteSize == held.byteSize;
            && k in w.db
            && (w.db[k].version == 0 && shown ==>
                  var noted := held.metadata["storage_generation" := seen.value.generation]["verified_at" := Some(at)];
                  var verified := held.(status := Verified, metadata := noted);
                  && ReadAttachment(next.db, access.projectId, held.id) == Some(verified)
                  && PlaceOf(next, c) == Idle && next.answers == w.answers + {verified})
            && (w.db[k].version == 0 && !shown ==>
                  && ReadAttachment(next.db, access.projectId, held.id) == Some(held.(status := UploadStatus.Rejected))
                  && PlaceOf(next, c) == Idle && next.answers == w.answers)
            && (w.db[k].version != 0 ==>
                  && next.db == w.db && next.answers == w.answers
                  && PlaceOf(next, c) == if shown then Confirming(access, held.id) else Idle)
  {
    hide Inv, SaveWithActivity, WellFormed;
    var updated := if Genuine(held, seen) then VerifiedCopy(held, seen.value.generation, at) else RejectedCopy(held);
    var action := if Genuine(held, seen) then VerifiedUpload else RejectedUpload;
    InvMeans(w, access.projectId, held.id);
    SaveExactly(w.db, access, held, updated, action, now);
    if SaveWithActivity(w.db, access, updated, action, now).Success? {
      SaveWrote(w.db, access, updated, action, now);
    }
  }

  lemma RunSnoc(w: World, events: seq<Event>, e: Event, maxBytes: int)
    ensures Run(w, events + [e], maxBytes) == Step(Run(w, events, maxBytes), e, maxBytes)
  {
    hide Step;
    assert (events + [e])[..|events|] == events;
  }

  lemma NewAttachmentIsValid(access: AccessContext, request: UploadRequest, maxBytes: int)
    requires MaySign(access, request, maxBytes) && CanonicalId(access.projectId)
    ensures ValidAttachment(NewAttachment(access, request))
  {
    CanonicalLength(access.projectId);
    CanonicalLength(request.attachmentId);
  }

  lemma CanonicalLength(id: string)
    requires CanonicalId(id)
    ensures |id| <= 145
  {
    var cut :| 2 <= cut <= 16 && CanonicalAt(id, cut);
  }

  lemma SignStarts(w: World, c: nat, access: AccessContext, request: UploadRequest, maxBytes: int)
    requires PlaceOf(w, c) == Idle && MaySign(access, request, maxBytes)
    requires AttachmentKey(access.projectId, request.attachmentId) !in w.db
    ensures Step(w, StartSign(c, access, request), maxBytes) == Moved(w, c, Creating(access, request))
  {
    hide MaySign;
  }

  lemma CreateWritten(w: World, c: nat, access: AccessContext, request: UploadRequest, now: int, maxBytes: int)
    requires WellFormed(w.db) && PlaceOf(w, c) == Creating(access, request)
    requires ValidAttachment(NewAttachment(access, request))
    requires AttachmentKey(access.projectId, request.attachmentId) !in w.db
    ensures var a := NewAttachment(access, request);
            var next := Step(w, CommitCreate(c, now), maxBytes);
            ReadAttachment(next.db, access.projectId, a.id) == Some(a)
              && PlaceOf(next, c) == Signing(access, request, a)
  {
    hide WellFormed, ValidAttachment, CreateWithActivity, ReadAttachment;
    var a := NewAttachment(access, request);
    CreateExactly(w.db, access, a, now);
    CreateWrote(w.db, access, a, now);
    WroteReads(w.db, CreateWithActivity(w.db, access, a, now).value, a.projectId, a.id, Requested, a, 0,
               a.projectId, a.id);
  }

  /** A client starts to create the record of an unused ID exactly for a role that may operate and a request
      within the limits; a viewer, or any other request, changes nothing. */
  lemma SigningStartsExactly(w: World, c: nat, access: AccessContext, request: UploadRequest, maxBytes: int)
    requires PlaceOf(w, c) == Idle && AttachmentKey(access.projectId, request.attachmentId) !in w.db
    ensures var allowed := access.role in {Foreman, Manager, Admin} && CanonicalId(request.attachmentId)
                           && WithinLimits(request.contentType, request.byteSize, request.sha256, maxBytes);
            Step(w, StartSign(c, access, request), maxBytes) ==
            if allowed then w.(places := w.places[c := Creating(access, request)]) else w
  {
    hide CanonicalId;
  }

  /** Asking again under an ID in use: a client that may ask goes on to a grant exactly while the stored upload is
      still undecided and is the very upload it asks for.  Nothing is written. */
  lemma SigningAgain(w: World, c: nat, access: AccessContext, request: UploadRequest, a: Attachment, maxBytes: int)
    requires PlaceOf(w, c) == Idle && ReadAttachment(w.db, access.projectId, request.attachmentId) == Some(a)
    ensures var allowed := access.role in {Foreman, Manager, Admin} && CanonicalId(request.attachmentId)
                           && WithinLimits(request.contentType, request.byteSize, request.sha256, maxBytes);
            Step(w, StartSign(c, access, request), maxBytes) ==
            if allowed && StillTheUpload(a, access.projectId, request)
            then w.(places := w.places[c := Signing(access, request, a)]) else w
  {
    hide CanonicalId;
  }

  /** The same for a client whose own creation came too late. */
  lemma RereadingDecides(w: World, c: nat, access: AccessContext, request: UploadRequest, a: Attachment, maxBytes: int)
    requires PlaceOf(w, c) == Rereading(access, request)
    requires ReadAttachment(w.db, access.projectId, request.attachmentId) == Some(a)
    ensures Step(w, Reread(c), maxBytes) ==
            w.(places := w.places[c := if StillTheUpload(a, access.projectId, request) then Signing(access, request, a)
                                       else Idle])
  {
  }

  /** Undecided, and the upload of this path, name, type, size and digest, whatever the case of its letters. */
  predicate StillTheUpload(a: Attachment, project: string, request: UploadRequest) {
    && a.status == Initiated && a.objectPath == "projects/" + project + "/attachments/" + request.attachmentId
    && a.originalName == request.originalName && a.contentType == request.contentType
    && a.byteSize == request.byteSize && LowerText(a.sha256) == LowerText(request.sha256)
  }

  /** Signing for an unused ID: the record is created as requested and its grant is issued. */
  lemma SigningSucceeds(w: World, c: nat, access: AccessContext, request: UploadRequest, now: int, maxBytes: int)
    requires WellFormed(w.db) && PlaceOf(w, c) == Idle && CanonicalId(access.projectId)
    requires MaySign(access, request, maxBytes)
    requires AttachmentKey(access.projectId, request.attachmentId) !in w.db
    ensures var path := "projects/" + access.projectId + "/attachments/" + request.attachmentId;
            var w1 := Step(w, StartSign(c, access, request), maxBytes);
            var w2 := Step(w1, CommitCreate(c, now), maxBytes);
            var w3 := Step(w2, IssueGrant(c), maxBytes);
            && ReadAttachment(w3.db, access.projectId, request.attachmentId) ==
               Some(Attachment(request.attachmentId, access.projectId, path, request.originalName, request.contentType,
                               request.byteSize, LowerText(request.sha256), Initiated, Some(access.userId), map[]))
            && PlaceOf(w3, c) == Idle && Grant(access.projectId, path, request) in w3.grants
  {
    hide WellFormed, MaySign, CanonicalId, ReadAttachment, ValidAttachment, Step;
    NewAttachmentIsValid(access, request, maxBytes);
    SignStarts(w, c, access, request, maxBytes);
    var w1 := Step(w, StartSign(c, access, request), maxBytes);
    CreateWritten(w1, c, access, request, now, maxBytes);
    GrantIssued(Step(w1, CommitCreate(c, now), maxBytes), c, access, request, NewAttachment(access, request), maxBytes);
  }

  lemma GrantIssued(w: World, c: nat, access: AccessContext, request: UploadRequest, a: Attachment, maxBytes: int)
    requires PlaceOf(w, c) == Signing(access, request, a)
    ensures var next := Step(w, IssueGrant(c), maxBytes);
            next.db == w.db && PlaceOf(next, c) == Idle
            && Grant(access.projectId, ObjectPath(access.projectId, request.attachmentId), request) in next.grants
  {
  }

  lemma VerifyStarts(w: World, c: nat, access: AccessContext, a: Attachment, seen: Option<StoredObject>, maxBytes: int)
    requires PlaceOf(w, c) == Idle && access.role in {Foreman, Manager, Admin}
    requires ReadAttachment(w.db, access.projectId, a.id) == Some(a) && a.status == Initiated
    ensures var w4 := Step(w, StartVerify(c, access, a.id), maxBytes);
            var w5 := Step(w4, Inspect(c, seen), maxBytes);
            w5.db == w.db && PlaceOf(w5, c) == Judging(access, a, seen)
  {
    hide ReadAttachment;
  }

  /** The record after a verdict: verified if and only if storage showed an object of that path, type and size,
      and rejected otherwise. */
  ghost predicate DecidedBy(db: Db, project: string, id: string, path: string, contentType: string, byteSize: int,
                            seen: Option<StoredObject>) {
    var stored := ReadAttachment(db, project, id);
    var shown := seen.Some? && seen.value.name == path && seen.value.contentType == contentType
                 && seen.value.byteSize == byteSize;
    && stored.Some?
    && (stored.value.status == Verified <==> shown)
    && (stored.value.status == UploadStatus.Rejected <==> !shown)
    && (shown ==> "storage_generation" in stored.value.metadata
                  && stored.value.metadata["storage_generation"] == seen.value.generation)
  }

  /** Verifying an undecided attachment: it is decided by what storage shows for it. */
  lemma VerifyingDecides(w: World, c: nat, access: AccessContext, a: Attachment, seen: Option<StoredObject>, later: int,
                         at: string, maxBytes: int)
    requires Inv(w) && PlaceOf(w, c) == Idle && access.role in {Foreman, Manager, Admin}
    requires ReadAttachment(w.db, access.projectId, a.id) == Some(a) && a.status == Initiated
    ensures var w4 := Step(w, StartVerify(c, access, a.id), maxBytes);
            var w5 := Step(w4, Inspect(c, seen), maxBytes);
            var w6 := Step(w5, CommitVerdict(c, later, at), maxBytes);
            && DecidedBy(w6.db, access.projectId, a.id, a.objectPath, a.contentType, a.byteSize, seen)
            && PlaceOf(w6, c) == Idle
  {
    hide Inv, HoldsFor, StepVerdict, ReadAttachment, Step;
    var w4 := Step(w, StartVerify(c, access, a.id), maxBytes);
    var w5 := Step(w4, Inspect(c, seen), maxBytes);
    VerifyStarts(w, c, access, a, seen, maxBytes);
    StoredUndecided(w, access, a);
    StepKeeps(w, StartVerify(c, access, a.id), maxBytes);
    StepKeeps(w4, Inspect(c, seen), maxBytes);
    VerdictDecides(w5, c, access, a, seen, later, at);
    VerdictStep(w5, c, access, a, seen, later, at, maxBytes);
  }

  /** Verifying what is decided already: a verified record is answered as it is stored, a rejected one is refused,
      and a viewer can verify nothing; in no case is anything written. */
  lemma VerifyingAgain(w: World, c: nat, access: AccessContext, a: Attachment, maxBytes: int)
    requires PlaceOf(w, c) == Idle && ReadAttachment(w.db, access.projectId, a.id) == Some(a)
    requires a.status in {Verified, UploadStatus.Rejected} || access.role == Viewer
    ensures Step(w, StartVerify(c, access, a.id), maxBytes) ==
            if a.status == Verified && access.role != Viewer then w.(answers := w.answers + {a}) else w
  {
  }

  lemma VerdictStep(w: World, c: nat, access: AccessContext, a: Attachment, seen: Option<StoredObject>, later: int,
                    at: string, maxBytes: int)
    requires PlaceOf(w, c) == Judging(access, a, seen)
    ensures Step(w, CommitVerdict(c, later, at), maxBytes) == StepVerdict(w, c, access, a, seen, later, at)
  {
    hide StepVerdict;
  }

  lemma StoredUndecided(w: World, access: AccessContext, a: Attachment)
    requires Inv(w) && ReadAttachment(w.db, access.projectId, a.id) == Some(a) && a.status == Initiated
    ensures HoldsFor(w.db, access, a) && w.db[AttachmentKey(access.projectId, a.id)].version == 0
  {
    var k := AttachmentKey(access.projectId, a.id);
    assert RecordOk(w.db, k) && WellFormed(w.db);
    assert KeyOf(w.db[k].entity) == k;
  }

  /** An upload that nobody interferes with: signed for, granted, and then verified exactly when storage holds
      an object of the requested path, type and size, otherwise rejected. */
  lemma UploadCompletes(w: World, c: nat, access: AccessContext, request: UploadRequest, seen: Option<StoredObject>,
                        now: int, later: int, at: string, maxBytes: int)
    requires Inv(w) && PlaceOf(w, c) == Idle && CanonicalId(access.projectId) && MaySign(access, request, maxBytes)
    requires AttachmentKey(access.projectId, request.attachmentId) !in w.db
    ensures var path := "projects/" + access.projectId + "/attachments/" + request.attachmentId;
            var end := Run(w, [StartSign(c, access, request), CommitCreate(c, now), IssueGrant(c),
                               StartVerify(c, access, request.attachmentId), Inspect(c, seen),
                               CommitVerdict(c, later, at)], maxBytes);
            && DecidedBy(end.db, access.projectId, request.attachmentId, path, request.contentType, request.byteSize,
                         seen)
            && PlaceOf(end, c) == Idle
  {
    hide Step, Inv, HoldsFor, DecidedBy, MaySign;
    var a := NewAttachment(access, request);
    var e1, e2, e3 := StartSign(c, access, request), CommitCreate(c, now), IssueGrant(c);
    var e4, e5, e6 := StartVerify(c, access, a.id), Inspect(c, seen), CommitVerdict(c, later, at);
    InvIsWellFormed(w);
    SigningSucceeds(w, c, access, request, now, maxBytes);
    StepKeeps(w, e1, maxBytes);
    StepKeeps(Step(w, e1, maxBytes), e2, maxBytes);
    StepKeeps(Step(Step(w, e1, maxBytes), e2, maxBytes), e3, maxBytes);
    SignersMayOperate(access, request, maxBytes);
    VerifyingDecides(Step(Step(Step(w, e1, maxBytes), e2, maxBytes), e3, maxBytes), c, access, a, seen,
                     later, at, maxBytes);
    RunSix(w, e1, e2, e3, e4, e5, e6, maxBytes);
  }

  lemma InvIsWellFormed(w: World)
    requires Inv(w)
    ensures WellFormed(w.db)
  {
  }

  lemma SignersMayOperate(access: AccessContext, request: UploadRequest, maxBytes: int)
    requires MaySign(access, request, maxBytes)
    ensures access.role in {Foreman, Manager, Admin}
  {
  }

  lemma RunSix(w: World, e1: Event, e2: Event, e3: Event, e4: Event, e5: Event, e6: Event, maxBytes: int)
    ensures Run(w, [e1, e2, e3, e4, e5, e6], maxBytes) ==
            Step(Step(Step(Step(Step(Step(w, e1, maxBytes), e2, maxBytes), e3, maxBytes), e4, maxBytes), e5, maxBytes),
                 e6, maxBytes)
  {
    hide Step, Run;
    RunSnoc(w, [], e1, maxBytes);
    RunSnoc(w, [e1], e2, maxBytes);
    RunSnoc(w, [e1, e2], e3, maxBytes);
    RunSnoc(w, [e1, e2, e3], e4, maxBytes);
    RunSnoc(w, [e1, e2, e3, e4], e5, maxBytes);
    RunSnoc(w, [e1, e2, e3, e4, e5], e6, maxBytes);
    RunEmpty(w, maxBytes);
    assert [] + [e1] == [e1] && [e1] + [e2] == [e1, e2] && [e1, e2] + [e3] == [e1, e2, e3]
           && [e1, e2, e3] + [e4] == [e1, e2, e3, e4]
        && [e1, e2, e3, e4] + [e5] == [e1, e2, e3, e4, e5] && [e1, e2, e3, e4, e5] + [e6] == [e1, e2, e3, e4, e5, e6];
  }

  lemma RunEmpty(w: World, maxBytes: int)
    ensures Run(w, [], maxBytes) == w
  {
  }
}
