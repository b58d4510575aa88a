/** The stored records and the invariants their validators re-check on every write. */
module Models {
  import opened Foundations

  datatype ActorType = User | Agent | System

  datatype ActionType = Purchase | ScheduleChange | ExternalCommitment | TaskCancel | HighImpactChange

  datatype ApprovalStatus = Pending | Approved | Rejected | Expired | Cancelled

  datatype RequestStatus =
    | Proposed | AwaitingApproval | Approved | Rejected | Submitted
    | Confirmed | Delayed | Delivered | Cancelled

  datatype UploadStatus = Initiated | Uploaded | Verified | Rejected | Deleted

  datatype ReportStatus = Draft | Published

  type Metadata = map<string, Option<string>>

  /** Times are whole milliseconds.  `details` stands for the fields no modelled operation reads. */
  datatype Approval = Approval(
    id: string, projectId: string, actionType: ActionType, status: ApprovalStatus, requestedAt: int,
    resolvedAt: Option<int>, resolvedBy: Option<string>, notes: Option<string>, version: int, details: string)

  datatype MaterialRequest = MaterialRequest(
    id: string, projectId: string, sourceEventId: string, status: RequestStatus, approvalId: Option<string>,
    quantity: int, deliveredQuantity: int, updatedAt: int, details: string)

  datatype AgentRun = AgentRun(id: string, projectId: string, triggerEventId: string, version: int, details: string)

  datatype Confirmation = Confirmation(claimId: string, attemptId: string, commandFingerprint: string)

  /** The canonical JSON payload whose SHA-256 is the mutation fingerprint; two payloads
      have the same digest only when they are equal. */
  datatype Fingerprint = Fingerprint(
    projectId: string, actorType: ActorType, actorId: Option<string>, sourceEventId: Option<string>,
    agentRunId: Option<string>, idempotencyKey: string, action: string, entityType: string, entityId: string,
    summary: string, metadata: Metadata, requestFingerprint: Option<string>, confirmation: Option<Confirmation>)

  datatype ActivityEvent = ActivityEvent(
    id: string, projectId: string, actorType: ActorType, actorId: Option<string>, action: string,
    entityType: string, entityId: string, summary: string, metadata: Metadata,
    fingerprint: Option<Fingerprint>, sourceEventId: Option<string>, agentRunId: Option<string>, createdAt: int)

  datatype OutboxMessage = OutboxMessage(
    id: string, projectId: string, messageType: string, deduplicationKey: string, payload: string,
    pending: bool, version: int)

  datatype ProposalClaim = ProposalClaim(
    id: string, projectId: string, actorId: string, outcome: string,
    attemptId: Option<string>, commandFingerprint: string)

  datatype Attachment = Attachment(
    id: string, projectId: string, objectPath: string, originalName: Option<string>, contentType: string,
    byteSize: int, sha256: string, status: UploadStatus, uploadedBy: Option<string>, metadata: Metadata)

  datatype ReportFact = ReportFact(summary: string, sourceRefs: seq<string>, metadata: map<string, string>)

  datatype DailyReport = DailyReport(
    id: string, projectId: string, reportDate: int, summary: string,
    completedWork: seq<ReportFact>, activeBlockers: seq<ReportFact>, materialRisks: seq<ReportFact>,
    nextFocus: seq<ReportFact>, sourceUpdateIds: seq<string>, status: ReportStatus, version: int,
    createdAt: int, updatedAt: int, extras: ReportExtras)

  /** The report fields that the projection rebuild never fills. */
  datatype ReportExtras = ReportExtras(
    crewSummary: Option<string>, weatherSummary: Option<string>, inProgressWork: seq<ReportFact>,
    deliveries: seq<ReportFact>, inspections: seq<ReportFact>, photoRefs: seq<string>)

  /** One stored document of any collection; `OtherEntity` covers the collections that no
      modelled service interprets, with or without a version field. */
  datatype Entity =
    | ApprovalEntity(approval: Approval)
    | RequestEntity(request: MaterialRequest)
    | RunEntity(run: AgentRun)
    | ActivityEntity(activity: ActivityEvent)
    | OutboxEntity(message: OutboxMessage)
    | ClaimEntity(claim: ProposalClaim)
    | AttachmentEntity(attachment: Attachment)
    | ReportEntity(report: DailyReport)
    | ProjectEntity(projectId: string, name: string)
    | OtherEntity(collection: string, owner: string, otherId: string, otherVersion: Option<int>, body: string)

  /** A collection, one per entity type. */
  datatype Kind =
    | Approvals | Requests | Runs | Activities | Outbox | Claims | Attachments | Reports | Projects
    | Other(collection: string)

  datatype Key = Key(kind: Kind, project: string, id: string)

  function KindOf(e: Entity): Kind {
    match e
    case ApprovalEntity(_) => Approvals
    case RequestEntity(_) => Requests
    case RunEntity(_) => Runs
    case ActivityEntity(_) => Activities
    case OutboxEntity(_) => Outbox
    case ClaimEntity(_) => Claims
    case AttachmentEntity(_) => Attachments
    case ReportEntity(_) => Reports
    case ProjectEntity(_, _) => Projects
    case OtherEntity(c, _, _, _, _) => Other(c)
  }

  function ProjectOf(e: Entity): string {
    match e
    case ApprovalEntity(a) => a.projectId
    case RequestEntity(r) => r.projectId
    case RunEntity(r) => r.projectId
    case ActivityEntity(a) => a.projectId
    case OutboxEntity(m) => m.projectId
    case ClaimEntity(c) => c.projectId
    case AttachmentEntity(a) => a.projectId
    case ReportEntity(r) => r.projectId
    case ProjectEntity(p, _) => p
    case OtherEntity(_, p, _, _, _) => p
  }

  function IdOf(e: Entity): string {
    match e
    case ApprovalEntity(a) => a.id
    case RequestEntity(r) => r.id
    case RunEntity(r) => r.id
    case ActivityEntity(a) => a.id
    case OutboxEntity(m) => m.id
    case ClaimEntity(c) => c.id
    case AttachmentEntity(a) => a.id
    case ReportEntity(r) => r.id
    case ProjectEntity(p, _) => p
    case OtherEntity(_, _, id, _, _) => id
  }

  function KeyOf(e: Entity): Key {
    Key(KindOf(e), ProjectOf(e), IdOf(e))
  }

  /** The record's own `version` field, for the entity types that declare one. */
  function VersionField(e: Entity): Option<int> {
    match e
    case ApprovalEntity(a) => Some(a.version)
    case RunEntity(r) => Some(r.version)
    case OutboxEntity(m) => Some(m.version)
    case ReportEntity(r) => Some(r.version)
    case OtherEntity(_, _, _, v, _) => v
    case _ => None
  }

  function WithVersion(e: Entity, version: int): (updated: Entity)
    ensures KeyOf(updated) == KeyOf(e)
    ensures VersionField(updated) == if VersionField(e).Some? then Some(version) else None
  {
    match e
    case ApprovalEntity(a) => ApprovalEntity(a.(version := version))
    case RunEntity(r) => RunEntity(r.(version := version))
    case OutboxEntity(m) => OutboxEntity(m.(version := version))
    case ReportEntity(r) => ReportEntity(r.(version := version))
    case OtherEntity(c, p, id, Some(_), b) => OtherEntity(c, p, id, Some(version), b)
    case _ => e
  }

  predicate Truthy(text: Option<string>) {
    text.Some? && text.value != ""
  }

  predicate ValidApproval(a: Approval) {
    && (a.status == ApprovalStatus.Pending ==> a.resolvedAt.None? && !Truthy(a.resolvedBy) && !Truthy(a.notes))
    && (a.status in {ApprovalStatus.Approved, ApprovalStatus.Rejected} ==> a.resolvedAt.Some? && a.resolvedBy.Some?)
    && (a.resolvedAt.Some? ==> a.requestedAt <= a.resolvedAt.value)
  }

  predicate ValidRequest(r: MaterialRequest) {
    && 0 < r.quantity
    && 0 <= r.deliveredQuantity <= r.quantity
    && (r.status !in {RequestStatus.Proposed, RequestStatus.Cancelled} ==> r.approvalId.Some?)
  }

  predicate ValidAttachment(a: Attachment) {
    0 < a.byteSize && 0 < |a.objectPath| <= 2000 && |a.sha256| == 64
  }

  /** What `model_validate` checks before a record is stored. */
  predicate Valid(e: Entity) {
    && (VersionField(e).Some? ==> 0 <= VersionField(e).value)
    && match e
       case ApprovalEntity(a) => ValidApproval(a)
       case RequestEntity(r) => ValidRequest(r)
       case ActivityEntity(a) => a.actorType == System || a.actorId.Some?
       case AttachmentEntity(a) => ValidAttachment(a)
       case _ => true
  }
}
