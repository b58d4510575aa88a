/** Deciding an approval: its record, its material request, its audit events and its outbox message. */
module Approvals {
  import opened Foundations
  import opened Models
  import opened Repository
  import opened Identifiers
  import opened Access
  import opened Activity
  import opened Texts

  datatype Command = Command(
    projectId: string, approvalId: string, notes: Option<string>, expectedVersion: Option<int>, occurredAt: int)

  type Resolution = (Approval, Option<string>)

  function Outcome(approved: bool): ApprovalStatus {
    if approved then ApprovalStatus.Approved else ApprovalStatus.Rejected
  }

  function RequestOutcome(approved: bool): RequestStatus {
    if approved then RequestStatus.Approved else RequestStatus.Cancelled
  }

  function MessageType(approved: bool): string {
    if approved then "APPROVAL_GRANTED" else "APPROVAL_REJECTED"
  }

  function ApprovalKey(project: string, id: string): Key {
    Key(Kind.Approvals, project, id)
  }

  function RequestKey(project: string, id: string): Key {
    Key(Requests, project, id)
  }

  function MessageKey(project: string, approvalId: string, approved: bool): Key {
    Key(Outbox, project, DecisionMessageId(approvalId, approved))
  }

  function ReadApproval(db: Db, project: string, id: string): Option<Approval> {
    var k := ApprovalKey(project, id);
    if k in db && db[k].entity.ApprovalEntity? then Some(db[k].entity.approval) else None
  }

  predicate IsLinked(e: Entity, approvalId: string) {
    e.RequestEntity? && e.request.approvalId == Some(approvalId)
  }

  /** The requests of a listing that name the approval, in listing order. */
  function LinkedAmong(entities: seq<Entity>, approvalId: string): seq<MaterialRequest> {
    if entities == [] then []
    else
      var last := entities[|entities| - 1];
      LinkedAmong(entities[..|entities| - 1], approvalId) + (if IsLinked(last, approvalId) then [last.request] else [])
  }

  function Linked(db: Db, project: string, approvalId: string): seq<MaterialRequest> {
    LinkedAmong(EntitiesIn(db, Requests, project), approvalId)
  }

  /** The linked request a decision looks at: none for other kinds of approval, an error for several. */
  function LinkOf(db: Db, a: Approval): Result<Option<MaterialRequest>, Error> {
    var linked := Linked(db, a.projectId, a.id);
    if a.actionType != Purchase || linked == [] then Success(None)
    else if |linked| == 1 then Success(Some(linked[0]))
    else Failure(ApprovalFailed)
  }

  predicate Awaits(status: RequestStatus) {
    status in {RequestStatus.Proposed, RequestStatus.AwaitingApproval}
  }

  function Decided(a: Approval, approved: bool, resolver: string, command: Command): Approval {
    a.(status := Outcome(approved), resolvedAt := Some(command.occurredAt), resolvedBy := Some(resolver),
       notes := command.notes)
  }

  function MovedRequest(r: MaterialRequest, approved: bool, at: int): MaterialRequest {
    r.(status := RequestOutcome(approved), updatedAt := at)
  }

  function RequestStatusText(approved: bool): string {
    if approved then "approved" else "cancelled"
  }

  function RequestContext(context: MutationContext): MutationContext {
    context.(idempotencyKey := "request-resolution:" + Sha256(context.idempotencyKey))
  }

  function RequestEvent(context: MutationContext, requestId: string, approvalId: string,
                        approved: bool): ActivityEvent {
    BuildEvent(RequestContext(context),
               ActivitySpec("material_request." + RequestStatusText(approved), "material_request", requestId,
                            "Material request " + RequestStatusText(approved) + ".",
                            map["approval_id" := Some(approvalId)]))
  }

  function DecisionMessage(command: Command, approved: bool): OutboxMessage {
    OutboxMessage(DecisionMessageId(command.approvalId, approved), command.projectId, MessageType(approved),
                  DecisionKey(command.approvalId, approved), command.approvalId, true, 0)
  }

  /** Moving the linked request and recording it. */
  function MoveRequest(db: Db, r: MaterialRequest, context: MutationContext, a: Approval, approved: bool,
                       at: int): Result<Db, Error> {
    var k := RequestKey(r.projectId, r.id);
    var version := if k in db then Some(db[k].version as int) else None;
    match SaveIn(db, RequestEntity(MovedRequest(r, approved, at)), version)
    case Failure(error) => Failure(error)
    case Success(saved) => CreateIn(saved, ActivityEntity(RequestEvent(context, r.id, a.id, approved)))
  }

  /** The step of `Decide` that moves the linked request. */
  function RequestStage(db: Db, saved: Db, a: Approval, context: MutationContext, approved: bool,
                        at: int): Result<Db, Error>
    requires LinkOf(db, a).Success?
  {
    var link := LinkOf(db, a).value;
    if link.Some? && Awaits(link.value.status) then
      MoveRequest(saved, link.value, context, a, approved, at)
    else
      Success(saved)
  }

  /** `_apply_resolution`, inside the transaction of `mutate`.  `now` is the server's clock. */
  function ApplyResolution(db: Db, access: AccessContext, command: Command, context: MutationContext,
                           approved: bool, now: int)
    : Result<(Db, Resolution), Error>
  {
    var current := ReadApproval(db, access.projectId, command.approvalId);
    if Refusal(access, access.projectId, MayRead).Some? then Failure(Refusal(access, access.projectId, MayRead).value)
    else if current.None? then Failure(EntityNotFound)
    else
      var a := current.value;
      var version := db[ApprovalKey(access.projectId, command.approvalId)].version;
      var messageKey := MessageKey(command.projectId, a.id, approved);
      if command.expectedVersion.Some? && command.expectedVersion.value != version then Failure(VersionConflict)
      else if a.status != ApprovalStatus.Pending then
        if a.status == Outcome(approved) then Success((db, (a, if messageKey in db then Some(messageKey.id) else None)))
        else Failure(ApprovalFailed)
      else Decide(db, a, access, command, context, approved, now)
  }

  /** The project event that a decision emits passes its own validator: it is not received before it
      occurred, notes that are present are not blank, and its key, derived from the caller's, is not too long. */
  predicate LegalEvent(command: Command, context: MutationContext, now: int) {
    && command.occurredAt <= now
    && (command.notes.Some? ==> RequiredText(command.notes.value, 5000))
    && |context.idempotencyKey + "_outbox"| <= 256
  }

  /** The branch of `_apply_resolution` that decides a pending approval. */
  function Decide(db: Db, a: Approval, access: AccessContext, command: Command, context: MutationContext,
                  approved: bool, now: int)
    : Result<(Db, Resolution), Error>
  {
    var link := LinkOf(db, a);
    var refusal := Refusal(access, a.projectId, MayOperate);
    var decided := Decided(a, approved, access.userId, command);
    var messageKey := MessageKey(command.projectId, a.id, approved);
    if link.Failure? then Failure(link.error)
    else if refusal.Some? then Failure(refusal.value)
    else
      match SaveIn(db, ApprovalEntity(decided), command.expectedVersion)
      case Failure(error) => Failure(error)
      case Success(saved) =>
        var moved := RequestStage(db, saved, a, context, approved, command.occurredAt);
        if moved.Failure? then Failure(moved.error)
        else if !LegalEvent(command, context, now) then Failure(ValidationFailed)
        else
          var result := WithVersion(ApprovalEntity(decided), saved[ApprovalKey(a.projectId, a.id)].version).approval;
          if messageKey in db then Success((moved.value, (result, None)))
          else
            match CreateIn(moved.value, OutboxEntity(DecisionMessage(command, approved)))
            case Failure(error) => Failure(error)
            case Success(sent) => Success((sent, (result, Some(messageKey.id))))
  }

  /** `_replay`: what a duplicate answers from the stored state. */
  function Replay(db: Db, access: AccessContext, command: Command): Result<(Db, Resolution), Error> {
    var current := ReadApproval(db, access.projectId, command.approvalId);
    if Refusal(access, access.projectId, MayRead).Some? then Failure(Refusal(access, access.projectId, MayRead).value)
    else if current.None? then Failure(EntityNotFound)
    else
      var a := current.value;
      if a.status !in {ApprovalStatus.Approved, ApprovalStatus.Rejected} then Success((db, (a, None)))
      else
        var messageKey := MessageKey(command.projectId, a.id, a.status == ApprovalStatus.Approved);
        Success((db, (a, if messageKey in db then Some(messageKey.id) else None)))
  }
}
