/** What a run of uploads leaves in the store, field by field. */
module AttachmentOutcomes {
  import opened Foundations
  import opened Models
  import opened Repository
  import opened Identifiers
  import opened Access
  import opened Attachments
  import opened AttachmentSafety

  /** A request within the service's limits. */
  predicate WithinLimits(contentType: string, byteSize: int, sha256: string, maxBytes: int) {
    && contentType in {"application/pdf", "audio/m4a", "audio/mpeg", "audio/ogg", "audio/wav", "audio/webm",
                       "image/jpeg", "image/png", "image/webp", "text/plain"}
    && 0 < byteSize <= maxBytes && |sha256| == 64
  }

  /** The stored upload of this project and ID: its path and its limits. */
  ghost predicate ContentOk(db: Db, k: Key, maxBytes: int) {
    k in db && k.kind == Kind.Attachments && db[k].entity.AttachmentEntity? ==>
      var a := db[k].entity.attachment;
      && a.objectPath == "projects/" + k.project + "/attachments/" + k.id
      && WithinLimits(a.contentType, a.byteSize, a.sha256, maxBytes)
  }

  ghost predicate RequestOk(place: Place, maxBytes: int) {
    place.Creating? ==> WithinLimits(place.request.contentType, place.request.byteSize, place.request.sha256, maxBytes)
  }

  /** An event about this attachment, by a user, with the status that the action leaves. */
  ghost predicate EventSays(e: Entity, id: string, action: string, summary: string, status: string) {
    && e.ActivityEntity? && e.activity.summary == summary && e.activity.action == action
    && e.activity.entityType == "attachment"
    && e.activity.entityId == id && e.activity.actorType == User && e.activity.actorId.Some?
    && e.activity.metadata == map["upload_status" := Some(status)]
  }

  ghost predicate ActionSays(db: Db, project: string, id: string, action: Action) {
    CanonicalId(id) && ActionKey(project, id, action) in db ==>
      var e := db[ActionKey(project, id, action)].entity;
      match action
      case Requested => EventSays(e, id, "attachment.upload_requested", "Attachment upload URL issued", "initiated")
      case VerifiedUpload => EventSays(e, id, "attachment.upload_verified", "Attachment upload verified", "verified")
      case RejectedUpload => EventSays(e, id, "attachment.upload_rejected", "Attachment upload rejected", "rejected")
  }

  ghost predicate Content(w: World, maxBytes: int) {
    && (forall k :: ContentOk(w.db, k, maxBytes))
    && (forall c | c in w.places :: RequestOk(w.places[c], maxBytes))
    && forall project, id, action :: ActionSays(w.db, project, id, action)
  }

  lemma RecordedEvent(db: Db, access: AccessContext, a: Attachment, action: Action, now: int)
    requires Fits(action, a.status, if action == Requested then 0 else 1)
    requires ActionSays(db, access.projectId, a.id, action) && CanonicalId(a.id)
    ensures ActionSays(RecordAction(db, access, a, action, now), access.projectId, a.id, action)
  {
    hide CanonicalId, AttachmentActivityId;
  }

  /** A creation or a verdict leaves the events of every attachment saying what they should. */
  lemma EventsStillSay(db: Db, noted: Db, after: Db, access: AccessContext, a: Attachment, action: Action, now: int)
    requires forall project, id, other :: ActionSays(db, project, id, other)
    requires WellFormed(db) && CanonicalId(a.id) && Fits(action, a.status, if action == Requested then 0 else 1)
    requires noted == RecordAction(db, access, a, action, now)
    requires forall k: Key | k.kind == Activities ::
             (k in after <==> k in noted) && (k in noted ==> after[k] == noted[k])
    ensures forall project, id, other :: ActionSays(after, project, id, other)
  {
    hide CanonicalId, RecordAction;
    RecordActionEffect(db, access, a, action, now);
    RecordedEvent(db, access, a, action, now);
    forall project, id, other ensures ActionSays(after, project, id, other) {
      assert ActionSays(db, project, id, other);
      if CanonicalId(id) && ActionKey(project, id, other) == ActionKey(access.projectId, a.id, action) {
        ActionKeysDiffer(project, id, other, access.projectId, a.id, action);
      }
    }
  }

  /** A record that was there before is the same upload still. */
  lemma ContentSettles(db: Db, after: Db, k: Key, maxBytes: int)
    requires AllSettle(db, after) && ContentOk(db, k, maxBytes) && RecordOk(db, k)
    requires k in after && k.kind == Kind.Attachments ==> k in db
    ensures ContentOk(after, k, maxBytes)
  {
    if k in after && k.kind == Kind.Attachments {
      assert Settles(db[k], after[k]);
    }
  }

  lemma SettledContent(w: World, next: World, maxBytes: int)
    requires Inv(w) && AllSettle(w.db, next.db) && forall k :: ContentOk(w.db, k, maxBytes)
    requires forall k | k in next.db && k.kind == Kind.Attachments :: k in w.db
    ensures forall k :: ContentOk(next.db, k, maxBytes)
  {
    forall k ensures ContentOk(next.db, k, maxBytes) {
      assert RecordOk(w.db, k);
      ContentSettles(w.db, next.db, k, maxBytes);
    }
  }

  lemma CreateContent(w: World, c: nat, access: AccessContext, request: UploadRequest, now: int, maxBytes: int)
    requires Inv(w) && Content(w, maxBytes) && CanonicalId(request.attachmentId)
    requires WithinLimits(request.contentType, request.byteSize, request.sha256, maxBytes)
    ensures Content(StepCreate(w, c, access, request, now), maxBytes)
  {
    var next := StepCreate(w, c, access, request, now);
    hide Content, CreateWithActivity, CanonicalId, ActionSays, ContentOk, NewAttachment;
    if CreateWithActivity(w.db, access, NewAttachment(access, request), now).Success? {
      CreatedContent(w, next, access, request, now, maxBytes);
    } else {
      QuietContent(w, next, maxBytes);
    }
  }

  lemma CreatedContent(w: World, next: World, access: AccessContext, request: UploadRequest, now: int, maxBytes: int)
    requires Inv(w) && Content(w, maxBytes) && CanonicalId(request.attachmentId)
    requires WithinLimits(request.contentType, request.byteSize, request.sha256, maxBytes)
    requires CreateWithActivity(w.db, access, NewAttachment(access, request), now) == Success(next.db)
    requires forall c | c in next.places ::
             (c in w.places && next.places[c] == w.places[c]) || !next.places[c].Creating?
    ensures Content(next, maxBytes)
  {
    var a := NewAttachment(access, request);
    NewAttachmentFits(access, request, maxBytes);
    InvMeans(w, a.projectId, a.id);
    CreateWrote(w.db, access, a, now);
    AttachmentPlace(a);
    hide CanonicalId, WellFormed, Inv, DbOk, RecordAction, NewAttachment;
    EventsStillSay(w.db, RecordAction(w.db, access, a, Requested, now), next.db, access, a, Requested, now);
    hide CreateWithActivity, ActionSays;
    forall k ensures ContentOk(next.db, k, maxBytes) {
      assert ContentOk(w.db, k, maxBytes);
    }
  }

  lemma NewAttachmentFits(access: AccessContext, request: UploadRequest, maxBytes: int)
    requires WithinLimits(request.contentType, request.byteSize, request.sha256, maxBytes)
    ensures var a := NewAttachment(access, request);
            && a.id == request.attachmentId && a.projectId == access.projectId && a.status == Initiated
            && a.objectPath == "projects/" + access.projectId + "/attachments/" + request.attachmentId
            && WithinLimits(a.contentType, a.byteSize, a.sha256, maxBytes)
  {
  }

  lemma SavedContent(w: World, next: World, c: nat, access: AccessContext, updated: Attachment,
                     action: Action, now: int,
                     maxBytes: int)
    requires Inv(w) && Content(w, maxBytes) && updated.projectId == access.projectId && CanonicalId(updated.id)
    requires action != Requested && Fits(action, updated.status, 1) && AllSettle(w.db, next.db)
    requires SaveWithActivity(w.db, access, updated, action, now) == Success(next.db)
    requires next.places == w.places[c := Idle]
    ensures Content(next, maxBytes)
  {
    hide Inv, DbOk, Valid, CanonicalId, RecordAction, ContentOk, Fits;
    InvMeans(w, updated.projectId, updated.id);
    SaveWrote(w.db, access, updated, action, now);
    AttachmentPlace(updated);
    SavedEvents(w.db, access, updated, action, now);
    EventsStillSay(w.db, RecordAction(w.db, access, updated, action, now), next.db, access, updated, action, now);
    hide SaveWithActivity, WellFormed, AllSettle, ActionSays;
    SettledContent(w, next, maxBytes);
  }

  lemma SavedEvents(db: Db, access: AccessContext, updated: Attachment, action: Action, now: int)
    requires SaveWithActivity(db, access, updated, action, now).Success?
    ensures var noted := RecordAction(db, access, updated, action, now);
            var after := SaveWithActivity(db, access, updated, action, now).value;
            forall k: Key | k.kind == Activities ::
              (k in after <==> k in noted) && (k in noted ==> after[k] == noted[k])
  {
    hide RecordAction, Valid;
    AttachmentPlace(updated);
  }

  lemma VerdictContent(w: World, c: nat, access: AccessContext, held: Attachment, seen: Option<StoredObject>,
                       now: int, at: string, maxBytes: int)
    requires Inv(w) && Content(w, maxBytes) && PlaceOk(w, Judging(access, held, seen))
    ensures Content(StepVerdict(w, c, access, held, seen, now, at), maxBytes)
  {
    hide Inv, AllSettle, SaveWithActivity, CanonicalId, Content, StepVerdict, VerifiedCopy,
         RejectedCopy, HoldsFor;
    VerdictKeeps(w, c, access, held, seen, now, at);
    HeldIsCanonical(w, access, held);
    var next := StepVerdict(w, c, access, held, seen, now, at);
    var updated := if Genuine(held, seen) then VerifiedCopy(held, seen.value.generation, at) else RejectedCopy(held);
    var action := if Genuine(held, seen) then VerifiedUpload else RejectedUpload;
    VerdictCases(w, c, access, held, seen, now, at);
    if SaveWithActivity(w.db, access, updated, action, now).Success? {
      SavedContent(w, next, c, access, updated, action, now, maxBytes);
    } else {
      QuietContent(w, next, maxBytes);
    }
  }

  lemma VerdictCases(w: World, c: nat, access: AccessContext, held: Attachment, seen: Option<StoredObject>,
                     now: int, at: string)
    ensures var next := StepVerdict(w, c, access, held, seen, now, at);
            var updated := if Genuine(held, seen) then VerifiedCopy(held, seen.value.generation, at)
              else RejectedCopy(held);
            var action := if Genuine(held, seen) then VerifiedUpload else RejectedUpload;
            var saved := SaveWithActivity(w.db, access, updated, action, now);
            && updated.id == held.id && updated.projectId == held.projectId && Fits(action, updated.status, 1)
            && (saved.Success? ==> next.db == saved.value && next.places == w.places[c := Idle])
            && (saved.Failure? ==>
                  && next.db == w.db && next.places == w.places[c := PlaceOf(next, c)]
                  && (PlaceOf(next, c).Idle? || PlaceOf(next, c).Confirming?))
  {
    hide SaveWithActivity, Genuine;
  }

  lemma HeldIsCanonical(w: World, access: AccessContext, held: Attachment)
    requires Inv(w) && HoldsFor(w.db, access, held)
    ensures CanonicalId(held.id) && held.projectId == access.projectId
  {
    assert RecordOk(w.db, AttachmentKey(access.projectId, held.id));
  }

  /** The store is untouched and no client starts to create. */
  lemma QuietContent(w: World, next: World, maxBytes: int)
    requires Content(w, maxBytes) && next.db == w.db
    requires forall c | c in next.places ::
             (c in w.places && next.places[c] == w.places[c]) || !next.places[c].Creating?
    ensures Content(next, maxBytes)
  {
    hide ContentOk, ActionSays;
  }

  lemma SignContent(w: World, c: nat, access: AccessContext, request: UploadRequest, maxBytes: int)
    requires Content(w, maxBytes)
    ensures Content(StepSign(w, c, access, request, maxBytes), maxBytes)
  {
    hide ContentOk, ActionSays;
  }

  lemma ElsewhereContent(w: World, after: Db, maxBytes: int)
    requires Inv(w) && Content(w, maxBytes) && LeavesAttachments(w.db, after)
    ensures Content(w.(db := after), maxBytes)
  {
    var next := w.(db := after);
    ElsewhereKeeps(w, after);
    hide Inv, CanonicalId;
    forall project, id, action ensures ActionSays(after, project, id, action) {
      assert ActionSays(w.db, project, id, action);
    }
    SettledContent(w, next, maxBytes);
  }

  lemma StepContent(w: World, e: Event, maxBytes: int)
    requires Inv(w) && Content(w, maxBytes)
    ensures Content(Step(w, e, maxBytes), maxBytes)
  {
    PlacesOk(w);
    hide Inv, StepSign, StepCreate, StepReread, StepVerify, StepVerdict, StepConfirm, LeavesAttachments, CanonicalId,
         ContentOk, ActionSays, HoldsFor, WithinLimits, Answers;
    match e
    case StartSign(c, access, request) => if PlaceOf(w, c).Idle? { SignContent(w, c, access, request, maxBytes); }
    case CommitCreate(c, now) =>
      if PlaceOf(w, c).Creating? { CreateContent(w, c, w.places[c].access, w.places[c].request, now, maxBytes); }
    case CommitVerdict(c, now, at) =>
      if PlaceOf(w, c).Judging? {
        VerdictContent(w, c, w.places[c].access, w.places[c].held, w.places[c].seen, now, at, maxBytes);
      }
    case Elsewhere(db) => if LeavesAttachments(w.db, db) { ElsewhereContent(w, db, maxBytes); }
    case _ =>
      QuietSteps(w, e, maxBytes);
      QuietContent(w, Step(w, e, maxBytes), maxBytes);
  }

  lemma QuietSteps(w: World, e: Event, maxBytes: int)
    requires !e.StartSign? && !e.CommitCreate? && !e.CommitVerdict? && !e.Elsewhere?
    ensures var next := Step(w, e, maxBytes);
            && next.db == w.db
            && forall c | c in next.places ::
               (c in w.places && next.places[c] == w.places[c]) || !next.places[c].Creating?
  {
    hide ReadAttachment, Signable, Refusal;
  }

  lemma {:induction false} RunContent(w: World, events: seq<Event>, maxBytes: int)
    requires Inv(w) && Content(w, maxBytes)
    ensures Inv(Run(w, events, maxBytes)) && Content(Run(w, events, maxBytes), maxBytes)
    decreases |events|
  {
    hide Inv, Content, Step;
    if events != [] {
      var before, last := events[..|events| - 1], events[|events| - 1];
      RunContent(w, before, maxBytes);
      StepKeeps(Run(w, before, maxBytes), last, maxBytes);
      StepContent(Run(w, before, maxBytes), last, maxBytes);
    }
  }

  lemma InitialContent(w: World, maxBytes: int)
    requires Initial(w)
    ensures Content(w, maxBytes)
  {
  }

  /** What the run promises about one attachment, in terms a reader of the store can check. */
  lemma UploadOutcomes(w: World, events: seq<Event>, maxBytes: int, project: string, id: string)
    requires Initial(w) && CanonicalId(id)
    ensures var end := Run(w, events, maxBytes);
            var stored := ReadAttachment(end.db, project, id);
            var requested := Key(Activities, project, AttachmentActivityId(id, "attachment.upload_requested"));
            var verified := Key(Activities, project, AttachmentActivityId(id, "attachment.upload_verified"));
            var rejected := Key(Activities, project, AttachmentActivityId(id, "attachment.upload_rejected"));
            && (requested in end.db <==> stored.Some?)
            && (verified in end.db <==> stored.Some? && stored.value.status == Verified)
            && (rejected in end.db <==> stored.Some? && stored.value.status == UploadStatus.Rejected)
            && (requested in end.db ==>
                  EventSays(end.db[requested].entity, id, "attachment.upload_requested",
                            "Attachment upload URL issued", "initiated"))
            && (verified in end.db ==>
                  EventSays(end.db[verified].entity, id, "attachment.upload_verified",
                            "Attachment upload verified", "verified"))
            && (rejected in end.db ==>
                  EventSays(end.db[rejected].entity, id, "attachment.upload_rejected",
                            "Attachment upload rejected", "rejected"))
  {
    hide Inv, Initial, Run, Content, CanonicalId, EventSays;
    InitialInv(w);
    InitialContent(w, maxBytes);
    RunContent(w, events, maxBytes);
    var end := Run(w, events, maxBytes);
    InvMeans(end, project, id);
    ContentMeans(end, project, id, maxBytes);
    assert ActionSays(end.db, project, id, Requested) && ActionSays(end.db, project, id, VerifiedUpload)
           && ActionSays(end.db, project, id, RejectedUpload);
  }

  lemma ContentMeans(w: World, project: string, id: string, maxBytes: int)
    requires Content(w, maxBytes)
    ensures ContentOk(w.db, AttachmentKey(project, id), maxBytes)
    ensures forall action :: ActionSays(w.db, project, id, action)
  {
  }

  /** A stored upload is at its project's path and within the limits; it is verified only if storage, asked for
      that path and digest, showed an object of that path, type and size, and rejected only if it did not. */
  lemma VerdictsAreJustified(w: World, events: seq<Event>, maxBytes: int, project: string, id: string)
    requires Initial(w) && CanonicalId(id)
    ensures var end := Run(w, events, maxBytes);
            var stored := ReadAttachment(end.db, project, id);
            stored.Some? ==>
              var a := stored.value;
              && a.objectPath == "projects/" + project + "/attachments/" + id
              && WithinLimits(a.contentType, a.byteSize, a.sha256, maxBytes)
              && a.status in {Initiated, Verified, UploadStatus.Rejected}
              && (end.db[AttachmentKey(project, id)].version == if a.status == Initiated then 0 else 1)
              && (a.status == Verified ==>
                    exists o: StoredObject ::
                      && Inspection(project, id, a.objectPath, a.sha256, Some(o)) in end.inspections
                      && o.name == a.objectPath && o.contentType == a.contentType && o.byteSize == a.byteSize
                      && "storage_generation" in a.metadata && a.metadata["storage_generation"] == o.generation)
              && (a.status == UploadStatus.Rejected ==>
                    exists seen: Option<StoredObject> ::
                      && Inspection(project, id, a.objectPath, a.sha256, seen) in end.inspections
                      && !(seen.Some? && seen.value.name == a.objectPath && seen.value.contentType == a.contentType
                           && seen.value.byteSize == a.byteSize))
  {
    hide Inv, Initial, Run, Content, CanonicalId, WithinLimits;
    InitialInv(w);
    InitialContent(w, maxBytes);
    RunContent(w, events, maxBytes);
    var end := Run(w, events, maxBytes);
    InvMeans(end, project, id);
    ContentMeans(end, project, id, maxBytes);
    var k := AttachmentKey(project, id);
    assert RecordOk(end.db, k);
  }

  /** Every signed URL is for the path, the type and the size of the stored upload, and for a request that asked
      for that very upload; every answer of a verification is the stored, verified record. */
  lemma GrantsAreForTheUpload(w: World, events: seq<Event>, maxBytes: int)
    requires Initial(w)
    ensures var end := Run(w, events, maxBytes);
            && (forall g | g in end.grants ::
                  var stored := ReadAttachment(end.db, g.project, g.request.attachmentId);
                  && stored.Some? && g.path == stored.value.objectPath
                  && g.request.contentType == stored.value.contentType && g.request.byteSize == stored.value.byteSize
                  && g.request.originalName == stored.value.originalName
                  && LowerText(g.request.sha256) == LowerText(stored.value.sha256))
            && (forall a | a in end.answers ::
                  a.status == Verified && ReadAttachment(end.db, a.projectId, a.id) == Some(a))
  {
    hide Inv, Initial, Run, CanonicalId;
    InitialInv(w);
    RunSafe(w, events, maxBytes);
    InvGrants(Run(w, events, maxBytes));
  }

  lemma RunSafe(w: World, events: seq<Event>, maxBytes: int)
    requires Inv(w)
    ensures Inv(Run(w, events, maxBytes))
  {
    UploadSafety(w, events, maxBytes, 0, |events|);
    assert events[..|events|] == events;
  }

  lemma InvGrants(w: World)
    requires Inv(w)
    ensures forall g | g in w.grants :: GrantOk(w.db, g)
    ensures forall a | a in w.answers :: AnswerOk(w.db, a)
  {
  }
}
