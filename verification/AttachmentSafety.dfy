/** What every interleaving of uploads keeps. */
module AttachmentSafety {
  import opened Foundations
  import opened Models
  import opened Repository
  import opened Identifiers
  import opened Access
  import opened Attachments

  /** Version 0 means INITIATED, version 1 means decided, and there is nothing else. */
  ghost predicate RecordOk(db: Db, k: Key) {
    k in db && k.kind == Kind.Attachments ==>
      && db[k].entity.AttachmentEntity? && CanonicalId(k.id)
      && var a := db[k].entity.attachment;
         && a.status in {Initiated, Verified, UploadStatus.Rejected}
         && (db[k].version == 0 <==> a.status == Initiated) && db[k].version <= 1
  }

  ghost predicate HasStatus(db: Db, project: string, id: string, status: UploadStatus) {
    var a := ReadAttachment(db, project, id);
    a.Some? && a.value.status == status
  }

  /** The audit events of an attachment exist exactly when they should. */
  ghost predicate EventsOk(db: Db, project: string, id: string) {
    CanonicalId(id) ==>
      && (ActionKey(project, id, Requested) in db <==> AttachmentKey(project, id) in db)
      && (ActionKey(project, id, VerifiedUpload) in db <==> HasStatus(db, project, id, Verified))
      && (ActionKey(project, id, RejectedUpload) in db <==> HasStatus(db, project, id, UploadStatus.Rejected))
  }

  ghost predicate DbOk(db: Db) {
    && WellFormed(db)
    && (forall k: Key :: RecordOk(db, k))
    && (forall project, id :: EventsOk(db, project, id))
  }

  /** The same upload: only the verdict and what it noted may differ. */
  ghost predicate SameUpload(a: Attachment, b: Attachment) {
    a == b.(status := a.status, metadata := a.metadata)
  }

  /** An attachment leaves INITIATED at most once, stays the same upload, and is never removed. */
  ghost predicate Settles(before: Record, after: Record) {
    || after == before
    || (before.version == 0 && after.version == 1 && before.entity.AttachmentEntity? && after.entity.AttachmentEntity?
        && SameUpload(after.entity.attachment, before.entity.attachment))
  }

  ghost predicate AllSettle(db: Db, after: Db) {
    forall k | k in db && k.kind == Kind.Attachments :: k in after && Settles(db[k], after[k])
  }

  // ----- the two transactions -----

  lemma ActionKeysDiffer(p: string, id: string, action: Action, p': string, id': string, action': Action)
    requires CanonicalId(id) && CanonicalId(id')
    ensures ActionKey(p, id, action) == ActionKey(p', id', action') ==> p == p' && id == id' && action == action'
  {
    AttachmentActivityInjective(id, ActionText(action), id', ActionText(action'));
  }

  lemma RecordActionEffect(db: Db, access: AccessContext, a: Attachment, action: Action, now: int)
    requires WellFormed(db)
    ensures var after := RecordAction(db, access, a, action, now);
            && WellFormed(after) && ActionKey(access.projectId, a.id, action) in after
            && forall k | k != ActionKey(access.projectId, a.id, action) ::
               (k in after <==> k in db) && (k in db ==> after[k] == db[k])
  {
    var event := ActivityEntity(ActionEvent(access, a, action, now));
    assert KeyOf(event) == ActionKey(access.projectId, a.id, action) && Valid(event);
    ApplyKeepsWellFormed(db, Create(event));
  }

  /** One event and one attachment record have changed, and nothing else. */
  ghost predicate Wrote(db: Db, after: Db, project: string, id: string, action: Action, a: Attachment, version: nat) {
    && WellFormed(after)
    && ActionKey(project, id, action) in after
    && AttachmentKey(project, id) in after && after[AttachmentKey(project, id)] == Record(AttachmentEntity(a), version)
    && forall k | k != ActionKey(project, id, action) && k != AttachmentKey(project, id) ::
         (k in after <==> k in db) && (k in db ==> after[k] == db[k])
  }

  lemma CreateWrote(db: Db, access: AccessContext, a: Attachment, now: int)
    requires WellFormed(db) && a.projectId == access.projectId && CreateWithActivity(db, access, a, now).Success?
    ensures AttachmentKey(a.projectId, a.id) !in db
    ensures Wrote(db, CreateWithActivity(db, access, a, now).value, a.projectId, a.id, Requested, a, 0)
  {
    RecordActionEffect(db, access, a, Requested, now);
    var noted := RecordAction(db, access, a, Requested, now);
    assert KeyOf(AttachmentEntity(a)) == AttachmentKey(a.projectId, a.id);
    ApplyKeepsWellFormed(noted, Create(AttachmentEntity(a)));
  }

  lemma AttachmentPlace(a: Attachment)
    ensures KeyOf(AttachmentEntity(a)) == AttachmentKey(a.projectId, a.id)
    ensures forall v :: WithVersion(AttachmentEntity(a), v) == AttachmentEntity(a)
  {
  }

  lemma SaveWrote(db: Db, access: AccessContext, a: Attachment, action: Action, now: int)
    requires WellFormed(db) && a.projectId == access.projectId && SaveWithActivity(db, access, a, action, now).Success?
    ensures AttachmentKey(a.projectId, a.id) in db && db[AttachmentKey(a.projectId, a.id)].version == 0
    ensures Wrote(db, SaveWithActivity(db, access, a, action, now).value, a.projectId, a.id, action, a, 1)
  {
    hide WellFormed, RecordAction, Valid, KeyOf, WithVersion;
    RecordActionEffect(db, access, a, action, now);
    var noted := RecordAction(db, access, a, action, now);
    AttachmentPlace(a);
    ApplyKeepsWellFormed(noted, Save(AttachmentEntity(a), Some(0)));
  }

  lemma WroteReads(db: Db, after: Db, project: string, id: string, action: Action, a: Attachment, version: nat,
                   p: string, i: string)
    requires Wrote(db, after, project, id, action, a, version)
    ensures ReadAttachment(after, p, i) == if p == project && i == id then Some(a) else ReadAttachment(db, p, i)
    ensures AttachmentKey(p, i) in after <==> AttachmentKey(p, i) in db || (p == project && i == id)
  {
  }

  lemma WroteEvents(db: Db, after: Db, project: string, id: string, action: Action, a: Attachment, version: nat,
                    p: string, i: string, other: Action)
    requires Wrote(db, after, project, id, action, a, version) && CanonicalId(id) && CanonicalId(i)
    ensures ActionKey(p, i, other) in after <==>
            ActionKey(p, i, other) in db || (p == project && i == id && other == action)
  {
    ActionKeysDiffer(p, i, other, project, id, action);
  }

  predicate Fits(action: Action, status: UploadStatus, version: nat) {
    match action
    case Requested => status == Initiated && version == 0
    case VerifiedUpload => status == Verified && version == 1
    case RejectedUpload => status == UploadStatus.Rejected && version == 1
  }

  lemma WroteKeepsEvents(db: Db, after: Db, project: string, id: string, action: Action, a: Attachment, version: nat,
                         p: string, i: string)
    requires Wrote(db, after, project, id, action, a, version) && CanonicalId(id) && Fits(action, a.status, version)
    requires EventsOk(db, p, i)
    requires action == Requested ==> AttachmentKey(project, id) !in db
    requires action != Requested ==> HasStatus(db, project, id, Initiated)
    ensures EventsOk(after, p, i)
  {
    if CanonicalId(i) {
      WroteReads(db, after, project, id, action, a, version, p, i);
      WroteEvents(db, after, project, id, action, a, version, p, i, Requested);
      WroteEvents(db, after, project, id, action, a, version, p, i, VerifiedUpload);
      WroteEvents(db, after, project, id, action, a, version, p, i, RejectedUpload);
    }
  }

  lemma WroteKeepsDbOk(db: Db, after: Db, project: string, id: string, action: Action, a: Attachment, version: nat)
    requires DbOk(db) && Wrote(db, after, project, id, action, a, version) && CanonicalId(id)
    requires Fits(action, a.status, version)
    requires action == Requested ==> AttachmentKey(project, id) !in db
    requires action != Requested ==> HasStatus(db, project, id, Initiated)
    ensures DbOk(after)
  {
    forall p, i ensures EventsOk(after, p, i) {
      assert EventsOk(db, p, i);
      WroteKeepsEvents(db, after, project, id, action, a, version, p, i);
    }
    forall k: Key ensures RecordOk(after, k) {
      assert RecordOk(db, k);
    }
  }

  lemma CreateOk(db: Db, access: AccessContext, a: Attachment, now: int)
    requires DbOk(db) && a.projectId == access.projectId && CanonicalId(a.id) && a.status == Initiated
    requires CreateWithActivity(db, access, a, now).Success?
    ensures var after := CreateWithActivity(db, access, a, now).value;
            DbOk(after) && AllSettle(db, after)
              && after[AttachmentKey(a.projectId, a.id)] == Record(AttachmentEntity(a), 0)
            && AttachmentKey(a.projectId, a.id) !in db && AttachmentKey(a.projectId, a.id) in after
            && forall k: Key | k.kind == Kind.Attachments && k != AttachmentKey(a.projectId, a.id) ::
                 (k in after <==> k in db) && (k in db ==> after[k] == db[k])
  {
    CreateWrote(db, access, a, now);
    hide DbOk, CreateWithActivity, WellFormed, RecordOk, EventsOk;
    assert WellFormed(db);
    WroteKeepsDbOk(db, CreateWithActivity(db, access, a, now).value, a.projectId, a.id, Requested, a, 0);
  }

  lemma SaveOk(db: Db, access: AccessContext, held: Attachment, updated: Attachment, action: Action, now: int)
    requires DbOk(db) && updated.projectId == access.projectId && SameUpload(updated, held)
    requires action != Requested && Fits(action, updated.status, 1)
    requires AttachmentKey(updated.projectId, updated.id) in db ==>
               var record := db[AttachmentKey(updated.projectId, updated.id)];
               record.version == 0 ==> record.entity == AttachmentEntity(held)
    requires SaveWithActivity(db, access, updated, action, now).Success?
    ensures var after := SaveWithActivity(db, access, updated, action, now).value;
            DbOk(after) && AllSettle(db, after)
            && AttachmentKey(updated.projectId, updated.id) in after
            && after[AttachmentKey(updated.projectId, updated.id)] == Record(AttachmentEntity(updated), 1)
            && forall k: Key | k.kind == Kind.Attachments && k != AttachmentKey(updated.projectId, updated.id) ::
                 (k in after <==> k in db) && (k in db ==> after[k] == db[k])
  {
    SaveWrote(db, access, updated, action, now);
    var k, after := AttachmentKey(updated.projectId, updated.id),
      SaveWithActivity(db, access, updated, action, now).value;
    assert RecordOk(db, k);
    hide DbOk, SaveWithActivity, WellFormed, EventsOk;
    WroteKeepsDbOk(db, after, updated.projectId, updated.id, action, updated, 1);
  }

  // ----- the world -----

  /** What a client may rely on between its steps. */
  ghost predicate HoldsFor(db: Db, access: AccessContext, held: Attachment) {
    var k := AttachmentKey(access.projectId, held.id);
    && held.projectId == access.projectId && k in db && db[k].entity.AttachmentEntity?
    && SameUpload(db[k].entity.attachment, held)
    && held.status == Initiated
    && (db[k].version == 0 ==> db[k].entity == AttachmentEntity(held))
  }

  ghost predicate PlaceOk(w: World, place: Place) {
    match place
    case Creating(access, request) => CanonicalId(request.attachmentId)
    case Signing(access, request, held) =>
      && HoldsFor(w.db, access, held) && request.attachmentId == held.id && Answers(held, request)
      && held.objectPath == ObjectPath(access.projectId, request.attachmentId)
    case Inspecting(access, held) => HoldsFor(w.db, access, held)
    case Judging(access, held, seen) =>
      HoldsFor(w.db, access, held) && Inspected(access, held, seen) in w.inspections
    case _ => true
  }

  /** The attachment is the upload that the request asks for, whatever the case of the digest's letters. */
  ghost predicate Answers(a: Attachment, request: UploadRequest) {
    && a.originalName == request.originalName && a.contentType == request.contentType
    && a.byteSize == request.byteSize && LowerText(a.sha256) == LowerText(request.sha256)
  }

  /** A grant is for the upload its attachment is bound to. */
  ghost predicate GrantOk(db: Db, g: Grant) {
    var a := ReadAttachment(db, g.project, g.request.attachmentId);
    a.Some? && a.value.objectPath == g.path && Answers(a.value, g.request)
  }

  /** A reported verification is the stored record. */
  ghost predicate AnswerOk(db: Db, a: Attachment) {
    a.status == Verified && ReadAttachment(db, a.projectId, a.id) == Some(a)
  }

  /** A decided attachment was inspected, and storage's answer is what decided it. */
  ghost predicate Justified(w: World, k: Key) {
    k in w.db && k.kind == Kind.Attachments && w.db[k].entity.AttachmentEntity? && w.db[k].version == 1 ==>
      var a := w.db[k].entity.attachment;
      exists seen ::
        && Inspection(k.project, k.id, a.objectPath, a.sha256, seen) in w.inspections
        && (a.status == Verified <==>
            seen.Some? && seen.value.name == a.objectPath && seen.value.contentType == a.contentType
            && seen.value.byteSize == a.byteSize)
        && (a.status == Verified ==>
            "storage_generation" in a.metadata && a.metadata["storage_generation"] == seen.value.generation)
  }

  ghost predicate Inv(w: World) {
    && DbOk(w.db)
    && (forall c | c in w.places :: PlaceOk(w, w.places[c]))
    && (forall g | g in w.grants :: GrantOk(w.db, g))
    && (forall a | a in w.answers :: AnswerOk(w.db, a))
    && (forall k :: Justified(w, k))
  }

  lemma PlaceSurvives(w: World, next: World, place: Place)
    requires DbOk(w.db) && DbOk(next.db) && AllSettle(w.db, next.db) && w.inspections <= next.inspections
    requires PlaceOk(w, place)
    ensures PlaceOk(next, place)
  {
    if place.Signing? || place.Inspecting? || place.Judging? {
      var k := AttachmentKey(place.access.projectId, place.held.id);
      assert RecordOk(w.db, k) && RecordOk(next.db, k);
      assert Settles(w.db[k], next.db[k]);
    }
  }

  lemma GrantSurvives(db: Db, after: Db, g: Grant)
    requires AllSettle(db, after) && GrantOk(db, g)
    ensures GrantOk(after, g)
  {
    var k := AttachmentKey(g.project, g.request.attachmentId);
    assert Settles(db[k], after[k]);
  }

  lemma AnswerSurvives(db: Db, after: Db, a: Attachment)
    requires DbOk(db) && AllSettle(db, after) && AnswerOk(db, a)
    ensures AnswerOk(after, a)
  {
    var k := AttachmentKey(a.projectId, a.id);
    assert RecordOk(db, k);
    assert Settles(db[k], after[k]);
  }

  /** Everything but the stepping client's own place carries over to a settled store. */
  lemma WorldSurvives(w: World, next: World, c: nat)
    requires Inv(w) && DbOk(next.db) && AllSettle(w.db, next.db) && w.inspections <= next.inspections
    requires next.places.Keys == w.places.Keys + {c}
    requires forall d | d in w.places && d != c :: next.places[d] == w.places[d]
    requires PlaceOk(next, next.places[c])
    requires forall g | g in next.grants :: g in w.grants || GrantOk(next.db, g)
    requires forall a | a in next.answers :: a in w.answers || AnswerOk(next.db, a)
    requires forall k :: Justified(next, k)
    ensures Inv(next)
  {
    hide DbOk, AllSettle, PlaceOk, GrantOk, AnswerOk, Justified;
    forall d | d in next.places ensures PlaceOk(next, next.places[d]) {
      if d != c { PlaceSurvives(w, next, w.places[d]); }
    }
    forall g | g in next.grants ensures GrantOk(next.db, g) {
      if g in w.grants { GrantSurvives(w.db, next.db, g); }
    }
    forall a | a in next.answers ensures AnswerOk(next.db, a) {
      if a in w.answers { AnswerSurvives(w.db, next.db, a); }
    }
  }

  lemma Itself(db: Db)
    ensures AllSettle(db, db)
  {
  }

  /** The store is untouched: only the client's place, the grants, the answers or the inspections move. */
  lemma QuietStep(w: World, next: World, c: nat)
    requires Inv(w) && next.db == w.db && w.inspections <= next.inspections
    requires next.places == w.places[c := PlaceOf(next, c)] && PlaceOk(next, PlaceOf(next, c))
    requires forall g | g in next.grants :: g in w.grants || GrantOk(next.db, g)
    requires forall a | a in next.answers :: a in w.answers || AnswerOk(next.db, a)
    ensures Inv(next) && AllSettle(w.db, next.db)
  {
    hide DbOk, AllSettle, PlaceOk, GrantOk, AnswerOk;
    Itself(w.db);
    forall k ensures Justified(next, k) {
      assert Justified(w, k);
    }
    WorldSurvives(w, next, c);
  }

  lemma ReadHolds(db: Db, access: AccessContext, id: string)
    requires DbOk(db) && ReadAttachment(db, access.projectId, id).Some?
    requires ReadAttachment(db, access.projectId, id).value.status == Initiated
    ensures HoldsFor(db, access, ReadAttachment(db, access.projectId, id).value)
  {
    var k := AttachmentKey(access.projectId, id);
    assert RecordOk(db, k);
    assert KeyOf(db[k].entity) == k;
  }

  lemma SignKeeps(w: World, c: nat, access: AccessContext, request: UploadRequest, maxBytes: int)
    requires Inv(w)
    ensures var next := StepSign(w, c, access, request, maxBytes); Inv(next) && AllSettle(w.db, next.db)
  {
    var next := StepSign(w, c, access, request, maxBytes);
    Itself(w.db);
    if next != w {
      var existing := ReadAttachment(w.db, access.projectId, request.attachmentId);
      if existing.Some? { ReadHolds(w.db, access, request.attachmentId); }
      hide Inv, HoldsFor;
      QuietStep(w, next, c);
    }
  }

  lemma RereadKeeps(w: World, c: nat, access: AccessContext, request: UploadRequest)
    requires Inv(w)
    ensures var next := StepReread(w, c, access, request); Inv(next) && AllSettle(w.db, next.db)
  {
    var concurrent := ReadAttachment(w.db, access.projectId, request.attachmentId);
    if concurrent.Some? && Signable(concurrent.value, access, request) {
      ReadHolds(w.db, access, request.attachmentId);
    }
    hide Inv, HoldsFor;
    QuietStep(w, StepReread(w, c, access, request), c);
  }

  lemma GrantKeeps(w: World, c: nat, access: AccessContext, request: UploadRequest, held: Attachment)
    requires Inv(w) && PlaceOk(w, Signing(access, request, held))
    ensures var g := Grant(access.projectId, ObjectPath(access.projectId, request.attachmentId), request);
            var next := Moved(w.(grants := w.grants + {g}), c, Idle);
            Inv(next) && AllSettle(w.db, next.db)
  {
    hide Inv;
    var g := Grant(access.projectId, ObjectPath(access.projectId, request.attachmentId), request);
    QuietStep(w, Moved(w.(grants := w.grants + {g}), c, Idle), c);
  }

  lemma ReadAnswers(db: Db, access: AccessContext, id: string)
    requires DbOk(db) && ReadAttachment(db, access.projectId, id).Some?
    requires ReadAttachment(db, access.projectId, id).value.status == Verified
    ensures AnswerOk(db, ReadAttachment(db, access.projectId, id).value)
  {
    var k := AttachmentKey(access.projectId, id);
    assert KeyOf(db[k].entity) == k;
  }

  lemma VerifyKeeps(w: World, c: nat, access: AccessContext, id: string)
    requires Inv(w) && PlaceOf(w, c).Idle?
    ensures var next := StepVerify(w, c, access, id); Inv(next) && AllSettle(w.db, next.db)
  {
    var next := StepVerify(w, c, access, id);
    var existing := ReadAttachment(w.db, access.projectId, id);
    Itself(w.db);
    if next != w {
      if existing.value.status == Verified {
        ReadAnswers(w.db, access, id);
        AnswerAdded(w, existing.value);
      } else {
        ReadHolds(w.db, access, id);
        hide Inv, HoldsFor;
        QuietStep(w, next, c);
      }
    }
  }

  lemma AnswerAdded(w: World, a: Attachment)
    requires Inv(w) && AnswerOk(w.db, a)
    ensures Inv(w.(answers := w.answers + {a}))
  {
    var next := w.(answers := w.answers + {a});
    forall k ensures Justified(next, k) {
      assert Justified(w, k);
    }
    forall c | c in w.places ensures PlaceOk(next, w.places[c]) {
      assert PlaceOk(w, w.places[c]);
    }
  }

  lemma InspectKeeps(w: World, c: nat, access: AccessContext, held: Attachment, seen: Option<StoredObject>)
    requires Inv(w) && HoldsFor(w.db, access, held)
    ensures var next := Moved(w.(inspections := w.inspections + {Inspected(access, held, seen)}), c,
                              Judging(access, held, seen));
            Inv(next) && AllSettle(w.db, next.db)
  {
    hide Inv, HoldsFor;
    QuietStep(w, Moved(w.(inspections := w.inspections + {Inspected(access, held, seen)}), c,
                       Judging(access, held, seen)), c);
  }

  lemma ConfirmKeeps(w: World, c: nat, access: AccessContext, id: string)
    requires Inv(w)
    ensures var next := StepConfirm(w, c, access, id); Inv(next) && AllSettle(w.db, next.db)
  {
    var saved := ReadAttachment(w.db, access.projectId, id);
    if saved.Some? && saved.value.status == Verified {
      ReadAnswers(w.db, access, id);
    }
    hide Inv;
    QuietStep(w, StepConfirm(w, c, access, id), c);
  }

  lemma IdleKeeps(w: World, c: nat)
    requires Inv(w)
    ensures Inv(Moved(w, c, Idle)) && AllSettle(w.db, w.db)
  {
    hide Inv;
    QuietStep(w, Moved(w, c, Idle), c);
  }

  lemma JustifiedSurvives(w: World, next: World, k: Key)
    requires Justified(w, k) && w.inspections <= next.inspections
    requires k in next.db && k.kind == Kind.Attachments ==>
               next.db[k].version == 0 || (k in w.db && next.db[k] == w.db[k])
    ensures Justified(next, k)
  {
  }

  lemma LowerTwice(s: string)
    ensures LowerText(LowerText(s)) == LowerText(s)
  {
  }

  lemma CreatedKeeps(w: World, c: nat, access: AccessContext, request: UploadRequest, now: int)
    requires Inv(w) && CanonicalId(request.attachmentId)
    requires CreateWithActivity(w.db, access, NewAttachment(access, request), now).Success?
    ensures var next := StepCreate(w, c, access, request, now); Inv(next) && AllSettle(w.db, next.db)
  {
    var a := NewAttachment(access, request);
    var next := StepCreate(w, c, access, request, now);
    hide DbOk, AllSettle, Justified, CreateWithActivity, ValidAttachment;
    CreateOk(w.db, access, a, now);
    LowerTwice(request.sha256);
    assert PlaceOk(next, Signing(access, request, a));
    hide PlaceOk;
    forall k ensures Justified(next, k) {
      JustifiedSurvives(w, next, k);
    }
    WorldSurvives(w, next, c);
  }

  lemma CreateKeeps(w: World, c: nat, access: AccessContext, request: UploadRequest, now: int)
    requires Inv(w) && CanonicalId(request.attachmentId)
    ensures var next := StepCreate(w, c, access, request, now); Inv(next) && AllSettle(w.db, next.db)
  {
    var outcome := CreateWithActivity(w.db, access, NewAttachment(access, request), now);
    if outcome.Success? {
      CreatedKeeps(w, c, access, request, now);
    } else if outcome == Failure(EntityAlreadyExists) {
      hide Inv, CreateWithActivity;
      QuietStep(w, Moved(w, c, Rereading(access, request)), c);
    } else {
      hide Inv, CreateWithActivity;
      IdleKeeps(w, c);
    }
  }

  /** The transaction of a verdict went through: the record is now decided by what the client saw. */
  lemma VerdictWritten(w: World, next: World, c: nat, access: AccessContext, held: Attachment,
                       seen: Option<StoredObject>,
                       updated: Attachment, action: Action, now: int)
    requires Inv(w) && HoldsFor(w.db, access, held) && Inspected(access, held, seen) in w.inspections
    requires updated.projectId == access.projectId && SameUpload(updated, held)
    requires action != Requested && Fits(action, updated.status, 1)
    requires updated.status == Verified <==>
             seen.Some? && seen.value.name == held.objectPath && seen.value.contentType == held.contentType
             && seen.value.byteSize == held.byteSize
    requires updated.status == Verified ==>
               "storage_generation" in updated.metadata
               && updated.metadata["storage_generation"] == seen.value.generation
    requires SaveWithActivity(w.db, access, updated, action, now).Success?
    requires next.db == SaveWithActivity(w.db, access, updated, action, now).value
    requires next.places == w.places[c := Idle] && next.grants == w.grants && next.inspections == w.inspections
    requires next.answers == w.answers || (updated.status == Verified && next.answers == w.answers + {updated})
    ensures Inv(next) && AllSettle(w.db, next.db)
  {
    SaveOk(w.db, access, held, updated, action, now);
    var k := AttachmentKey(access.projectId, held.id);
    assert Justified(next, k);
    assert updated.status == Verified ==> AnswerOk(next.db, updated);
    hide DbOk, AllSettle, Justified, SaveWithActivity, HoldsFor, AnswerOk;
    forall j ensures Justified(next, j) {
      if j != k { JustifiedSurvives(w, next, j); }
    }
    WorldSurvives(w, next, c);
  }

  lemma VerdictKeeps(w: World, c: nat, access: AccessContext, held: Attachment, seen: Option<StoredObject>,
                     now: int, at: string)
    requires Inv(w) && HoldsFor(w.db, access, held) && Inspected(access, held, seen) in w.inspections
    ensures var next := StepVerdict(w, c, access, held, seen, now, at); Inv(next) && AllSettle(w.db, next.db)
  {
    var next := StepVerdict(w, c, access, held, seen, now, at);
    var updated := if Genuine(held, seen) then VerifiedCopy(held, seen.value.generation, at) else RejectedCopy(held);
    var action := if Genuine(held, seen) then VerifiedUpload else RejectedUpload;
    var outcome := SaveWithActivity(w.db, access, updated, action, now);
    hide Inv, AllSettle, SaveWithActivity;
    assert updated.projectId == access.projectId && SameUpload(updated, held);
    if outcome.Success? {
      VerdictWritten(w, next, c, access, held, seen, updated, action, now);
    } else if Genuine(held, seen) && outcome == Failure(VersionConflict) {
      QuietStep(w, Moved(w, c, Confirming(access, held.id)), c);
    } else {
      IdleKeeps(w, c);
    }
  }

  lemma ElsewhereKeeps(w: World, after: Db)
    requires Inv(w) && LeavesAttachments(w.db, after)
    ensures Inv(w.(db := after)) && AllSettle(w.db, after)
  {
    var next := w.(db := after);
    assert DbOk(after) by {
      forall k: Key ensures RecordOk(after, k) { assert RecordOk(w.db, k); }
      forall p, i ensures EventsOk(after, p, i) {
        assert EventsOk(w.db, p, i);
        assert ReadAttachment(after, p, i) == ReadAttachment(w.db, p, i);
      }
    }
    forall c | c in next.places ensures PlaceOk(next, next.places[c]) { PlaceSurvives(w, next, w.places[c]); }
    forall g | g in next.grants ensures GrantOk(after, g) { GrantSurvives(w.db, after, g); }
    forall a | a in next.answers ensures AnswerOk(after, a) { AnswerSurvives(w.db, after, a); }
    forall k ensures Justified(next, k) { JustifiedSurvives(w, next, k); }
  }

  lemma PlacesOk(w: World)
    requires Inv(w)
    ensures forall c | c in w.places :: PlaceOk(w, w.places[c])
  {
  }

  /** Every step of every client keeps the invariant, and no attachment is decided twice. */
  lemma StepKeeps(w: World, e: Event, maxBytes: int)
    requires Inv(w)
    ensures Inv(Step(w, e, maxBytes)) && AllSettle(w.db, Step(w, e, maxBytes).db)
  {
    hide Inv, HoldsFor, AllSettle, StepSign, StepCreate, StepReread, StepVerify, StepVerdict, StepConfirm,
         LeavesAttachments, CanonicalId;
    Itself(w.db);
    PlacesOk(w);
    match e
    case StartSign(c, access, request) => if PlaceOf(w, c).Idle? { SignKeeps(w, c, access, request, maxBytes); }
    case CommitCreate(c, now) =>
      if PlaceOf(w, c).Creating? { CreateKeeps(w, c, w.places[c].access, w.places[c].request, now); }
    case Reread(c) => if PlaceOf(w, c).Rereading? { RereadKeeps(w, c, w.places[c].access, w.places[c].request); }
    case IssueGrant(c) =>
      if PlaceOf(w, c).Signing? { GrantKeeps(w, c, w.places[c].access, w.places[c].request, w.places[c].held); }
    case StartVerify(c, access, id) => if PlaceOf(w, c).Idle? { VerifyKeeps(w, c, access, id); }
    case Inspect(c, seen) =>
      if PlaceOf(w, c).Inspecting? { InspectKeeps(w, c, w.places[c].access, w.places[c].held, seen); }
    case CommitVerdict(c, now, at) =>
      if PlaceOf(w, c).Judging? {
        VerdictKeeps(w, c, w.places[c].access, w.places[c].held, w.places[c].seen, now, at);
      }
    case RereadVerdict(c) => if PlaceOf(w, c).Confirming? { ConfirmKeeps(w, c, w.places[c].access, w.places[c].id); }
    case Crash(c) => IdleKeeps(w, c);
    case Elsewhere(db) => if LeavesAttachments(w.db, db) { ElsewhereKeeps(w, db); }
  }

  lemma SettlesTransitive(a: Db, b: Db, c: Db)
    requires AllSettle(a, b) && AllSettle(b, c)
    ensures AllSettle(a, c)
  {
    forall k | k in a && k.kind == Kind.Attachments ensures k in c && Settles(a[k], c[k]) {
      assert Settles(a[k], b[k]) && Settles(b[k], c[k]);
    }
  }

  /** Over any run of any number of clients: the invariant holds throughout, and between any two moments
      each attachment is unchanged or has been decided exactly once, under the same contract. */
  lemma {:induction false} UploadSafety(w: World, events: seq<Event>, maxBytes: int, i: nat, j: nat)
    requires Inv(w) && i <= j <= |events|
    ensures Inv(Run(w, events[..j], maxBytes))
    ensures AllSettle(Run(w, events[..i], maxBytes).db, Run(w, events[..j], maxBytes).db)
    decreases j
  {
    hide Inv, AllSettle, Step;
    if j == 0 {
      Itself(w.db);
    } else {
      UploadSafety(w, events, maxBytes, if i < j then i else j - 1, j - 1);
      assert events[..j][..j - 1] == events[..j - 1];
      StepKeeps(Run(w, events[..j - 1], maxBytes), events[j - 1], maxBytes);
      if i < j {
        SettlesTransitive(Run(w, events[..i], maxBytes).db, Run(w, events[..j - 1], maxBytes).db,
                          Run(w, events[..j], maxBytes).db);
      } else {
        Itself(Run(w, events[..j], maxBytes).db);
      }
    }
  }

  /** A store without attachments or events of theirs, and no client under way. */
  ghost predicate Initial(w: World) {
    && WellFormed(w.db) && w.places == map[] && w.grants == {} && w.answers == {} && w.inspections == {}
    && (forall k | k in w.db :: k.kind != Kind.Attachments)
    && forall p, id, action :: ActionKey(p, id, action) !in w.db
  }

  lemma InitialInv(w: World)
    requires Initial(w)
    ensures Inv(w)
  {
    forall p, i ensures EventsOk(w.db, p, i) {
      assert ActionKey(p, i, Requested) !in w.db && ActionKey(p, i, VerifiedUpload) !in w.db
             && ActionKey(p, i, RejectedUpload) !in w.db;
    }
  }

  lemma InvMeans(w: World, project: string, id: string)
    requires Inv(w)
    ensures EventsOk(w.db, project, id) && RecordOk(w.db, AttachmentKey(project, id))
    ensures Justified(w, AttachmentKey(project, id))
    ensures DbOk(w.db) && forall g | g in w.grants :: GrantOk(w.db, g)
  {
  }
}
