/** Roles, project scope, and the repository wrapper that enforces both. */
module Access {
  import opened Foundations
  import opened Models
  import opened Repository
  import opened Sessions
  import opened InMemory

  datatype Role = Admin | Manager | Foreman | Viewer

  datatype Permission = MayRead | MayOperate | MayApprove | MayManage

  datatype AccessContext = AccessContext(userId: string, projectId: string, role: Role)

  function Grants(role: Role): set<Permission> {
    match role
    case Admin => {MayRead, MayOperate, MayApprove, MayManage}
    case Manager => {MayRead, MayOperate, MayApprove}
    case Foreman => {MayRead, MayOperate}
    case Viewer => {MayRead}
  }

  /** The exception a check raises: scope first, then the permission. */
  function Refusal(access: AccessContext, project: string, permission: Permission): Option<Error> {
    if access.projectId != project then Some(ProjectForbidden)
    else if permission !in Grants(access.role) then Some(RoleRequired)
    else None
  }

  function RequestRefusal(access: AccessContext, mutation: Permission, req: Request): Option<Error> {
    Refusal(access, RequestProject(req), if IsWrite(req) then mutation else MayRead)
  }

  ghost function GuardedApply(access: AccessContext, mutation: Permission, db: Db, req: Request): (Db, Reply) {
    var refusal := RequestRefusal(access, mutation, req);
    if refusal.Some? then (db, Failed(refusal.value)) else Apply(db, req)
  }

  /** The wrapper around one repository; every method checks before it forwards. */
  class AuthorizedProjectRepository {
    const repository: InMemoryRepository
    const access: AccessContext
    const mutation: Permission

    constructor (repository: InMemoryRepository, access: AccessContext, mutation: Permission)
      ensures this.repository == repository && this.access == access && this.mutation == mutation
    {
      this.repository := repository;
      this.access := access;
      this.mutation := mutation;
    }

    method Get(project: string, id: string) returns (result: Result<Option<Entity>, Error>)
      ensures GuardedApply(access, mutation, repository.Contents(), Request.Get(Key(repository.kind, project, id))).1
              == if result.Success? then Found(result.value) else Failed(result.error)
    {
      var refusal := Refusal(access, project, MayRead);
      if refusal.Some? {
        return Failure(refusal.value);
      }
      var entity := repository.Get(project, id);
      result := Success(entity);
    }

    method List(project: string) returns (result: Result<seq<Entity>, Error>)
      ensures GuardedApply(access, mutation, repository.Contents(), ListAll(repository.kind, project)).1
              == if result.Success? then Listed(result.value) else Failed(result.error)
    {
      var refusal := Refusal(access, project, MayRead);
      if refusal.Some? {
        return Failure(refusal.value);
      }
      var entities := repository.List(project);
      result := Success(entities);
    }

    method VersionOf(project: string, id: string) returns (result: Result<Option<nat>, Error>)
      ensures GuardedApply(access, mutation, repository.Contents(),
                           Request.VersionOf(Key(repository.kind, project, id))).1
              == if result.Success? then Versioned(result.value) else Failed(result.error)
    {
      var refusal := Refusal(access, project, MayRead);
      if refusal.Some? {
        return Failure(refusal.value);
      }
      var version := repository.VersionOf(project, id);
      result := Success(version);
    }

    method Create(e: Entity) returns (result: Result<Entity, Error>)
      requires KindOf(e) == repository.kind
      modifies repository
      ensures (repository.Contents(), if result.Success? then Stored(result.value) else Failed(result.error))
              == GuardedApply(access, mutation, old(repository.Contents()), Request.Create(e))
    {
      var refusal := Refusal(access, ProjectOf(e), mutation);
      if refusal.Some? {
        return Failure(refusal.value);
      }
      result := repository.Create(e);
    }

    method Save(e: Entity, expected: Option<int>) returns (result: Result<Entity, Error>)
      requires KindOf(e) == repository.kind
      modifies repository
      ensures (repository.Contents(), if result.Success? then Stored(result.value) else Failed(result.error))
              == GuardedApply(access, mutation, old(repository.Contents()), Request.Save(e, expected))
    {
      var refusal := Refusal(access, ProjectOf(e), mutation);
      if refusal.Some? {
        return Failure(refusal.value);
      }
      result := repository.Save(e, expected);
    }

    method Delete(project: string, id: string, expected: Option<int>) returns (failure: Option<Error>)
      modifies repository
      ensures (repository.Contents(), if failure.None? then Removed else Failed(failure.value))
              == GuardedApply(access, mutation, old(repository.Contents()),
                              Request.Delete(Key(repository.kind, project, id), expected))
    {
      var refusal := Refusal(access, project, mutation);
      if refusal.Some? {
        return refusal;
      }
      failure := repository.Delete(project, id, expected);
    }

    /** One request of a wrapped transaction, checked and then forwarded. */
    method Perform(req: Request) returns (reply: Reply)
      requires RequestKind(req) == repository.kind
      modifies repository
      ensures (repository.Contents(), reply) == GuardedApply(access, mutation, old(repository.Contents()), req)
    {
      hide Apply, Flat, RequestKind, RequestProject, Grants;
      var refusal := RequestRefusal(access, mutation, req);
      if refusal.Some? {
        return Failed(refusal.value);
      }
      reply := repository.Perform(req);
    }

    /** `run_transaction`: every client of the collection gets the guarded transaction; when it raises the
        repository is as it was, and the records of every other project are as they were in any case. */
    method RunTransaction<V>(client: Client<V>, fuel: nat) returns (result: Result<V, Error>)
      requires OwnCollection(client, repository.kind)
      modifies repository
      ensures (repository.Contents(), result) ==
              GuardedTransaction(access, mutation, old(repository.Contents()), client, fuel)
      ensures result.Failure? ==> repository.records == old(repository.records)
      ensures AgreeOff(repository.Contents(), old(repository.Contents()), access.projectId)
    {
      hide Flat, AgreeOff, AgreeOn, GuardedRun, GuardedAdvance;
      ghost var before := repository.Contents();
      var transaction := new MemoryTransaction(repository);
      transaction.Enter();
      result := RunOperation(client, fuel);
      transaction.Exit(result.Failure?);
      Itself(before, access.projectId);
      ProjectIsolation(access, mutation, before, before, client, fuel);
    }

    method RunOperation<V>(client: Client<V>, fuel: nat) returns (result: Result<V, Error>)
      requires OwnCollection(client, repository.kind)
      modifies repository
      ensures var (s, r) := GuardedRun(access, mutation, Begin(old(repository.Contents())), client, fuel);
              result == r && repository.Contents() == s.db
    {
      hide GuardedApply, Flat;
      ghost var start := Begin(repository.Contents());
      var transcript: seq<Reply> := [];
      var left := fuel;
      while left > 0
        invariant GuardedRun(access, mutation, start, client, fuel)
                  == GuardedRun(access, mutation, Session(repository.Contents(), [], transcript), client, left)
      {
        var m := client(transcript);
        match m {
          case Return(value) => return Success(value);
          case Raise(error) => return Failure(error);
          case Call(req) =>
            var reply := Perform(req);
            transcript := transcript + [reply];
        }
        left := left - 1;
      }
      result := Failure(Interrupted);
    }
  }

  /** A client of one repository: it asks for nothing of another collection and opens nothing nested. */
  ghost predicate OwnCollection<V>(client: Client<V>, kind: Kind) {
    forall transcript :: match client(transcript)
      case Call(req) => RequestKind(req) == kind
      case Enter(_) => false
      case Leave(_) => false
      case _ => true
  }

  /** A client all of whose requests go through the wrapper. */
  ghost function GuardedAdvance<V>(access: AccessContext, mutation: Permission, s: Session, m: Move<V>): Session
    requires !Finishes(m)
  {
    if m.Call? then
      var (db, reply) := GuardedApply(access, mutation, s.db, m.request);
      Session(db, s.stack, s.transcript + [reply])
    else Advance(s, m)
  }

  ghost function GuardedRun<V>(access: AccessContext, mutation: Permission, s: Session, client: Client<V>, fuel: nat)
    : (Session, Result<V, Error>)
    decreases fuel
  {
    var m := client(s.transcript);
    if fuel == 0 then (s, Failure(Interrupted))
    else if m.Return? then (s, Success(m.value))
    else if m.Raise? then (s, Failure(m.error))
    else GuardedRun(access, mutation, GuardedAdvance(access, mutation, s, m), client, fuel - 1)
  }

  ghost function GuardedTransaction<V>(access: AccessContext, mutation: Permission, db: Db,
                                       client: Client<V>, fuel: nat)
    : (Db, Result<V, Error>)
  {
    var (s, result) := GuardedRun(access, mutation, Begin(db), client, fuel);
    (if result.Success? then s.db else db, result)
  }

  /** The two stores hold the same records for the project. */
  ghost predicate AgreeOn(a: Db, b: Db, project: string) {
    forall k: Key | k.project == project :: (k in a <==> k in b) && (k in a ==> a[k] == b[k])
  }

  /** The two stores hold the same records for every other project. */
  ghost predicate AgreeOff(a: Db, b: Db, project: string) {
    forall k: Key | k.project != project :: (k in a <==> k in b) && (k in a ==> a[k] == b[k])
  }

  lemma PartitionRequest(a: Db, b: Db, req: Request)
    requires AgreeOn(a, b, RequestProject(req))
    ensures Apply(a, req).1 == Apply(b, req).1
    ensures AgreeOn(Apply(a, req).0, Apply(b, req).0, RequestProject(req))
  {
    hide Valid, WithVersion, VersionField, KindOf, ProjectOf, IdOf, EntitiesIn;
    match req
    case ListAll(kind, p) => ListIsLocal(a, b, kind, p);
    case _ =>
  }

  lemma RequestStaysInPartition(a: Db, req: Request)
    ensures AgreeOff(Apply(a, req).0, a, RequestProject(req))
  {
  }

  ghost predicate FramesAgree(a: seq<Frame>, b: seq<Frame>, project: string) {
    && |a| == |b|
    && forall i | 0 <= i < |a| :: a[i].kind == b[i].kind && AgreeOn(a[i].saved, b[i].saved, project)
  }

  /** The sessions cannot be told apart from inside the project. */
  ghost predicate LookAlike(a: Session, b: Session, project: string) {
    AgreeOn(a.db, b.db, project) && a.transcript == b.transcript && FramesAgree(a.stack, b.stack, project)
  }

  lemma {:induction false} StepLooksAlike<V>(access: AccessContext, mutation: Permission, a: Session,
                                             b: Session, m: Move<V>)
    requires !Finishes(m) && LookAlike(a, b, access.projectId)
    ensures LookAlike(GuardedAdvance(access, mutation, a, m), GuardedAdvance(access, mutation, b, m), access.projectId)
  {
    hide Apply, AgreeOn, FramesAgree, RequestRefusal, OfKind, Restore;
    match m {
      case Call(req) =>
        if RequestRefusal(access, mutation, req).None? {
          AllowedRequest(access, mutation, req);
          PartitionRequest(a.db, b.db, req);
        }
      case Enter(kind) =>
        EnterLooksAlike(a, b, kind, access.projectId);
      case Leave(raised) =>
        LeaveLooksAlike(a, b, raised, access.projectId);
      case _ =>
    }
  }

  lemma AllowedRequest(access: AccessContext, mutation: Permission, req: Request)
    requires RequestRefusal(access, mutation, req).None?
    ensures RequestProject(req) == access.projectId
  {
  }

  lemma EnterLooksAlike(a: Session, b: Session, kind: Kind, project: string)
    requires LookAlike(a, b, project)
    ensures FramesAgree(a.stack + [Frame(kind, OfKind(a.db, kind))],
                        b.stack + [Frame(kind, OfKind(b.db, kind))], project)
  {
  }

  lemma LeaveLooksAlike(a: Session, b: Session, raised: bool, project: string)
    requires LookAlike(a, b, project)
    ensures |a.stack| == |b.stack| && FramesAgree([], [], project)
    ensures a.stack != [] ==>
              var n := |a.stack| - 1;
              && FramesAgree(a.stack[..n], b.stack[..n], project) && a.stack[n].kind == b.stack[n].kind
              && AgreeOn(Restore(a.db, a.stack[n].kind, a.stack[n].saved),
                         Restore(b.db, b.stack[n].kind, b.stack[n].saved), project)
  {
  }

  lemma {:induction false} RunsLookAlike<V>(access: AccessContext, mutation: Permission, a: Session, b: Session,
                                            client: Client<V>, fuel: nat)
    requires LookAlike(a, b, access.projectId)
    ensures var (a', ra), (b', rb) := GuardedRun(access, mutation, a, client, fuel),
            GuardedRun(access, mutation, b, client, fuel);
            ra == rb && LookAlike(a', b', access.projectId)
    decreases fuel
  {
    var m := client(a.transcript);
    if fuel != 0 && !Finishes(m) {
      StepLooksAlike(access, mutation, a, b, m);
      RunsLookAlike(access, mutation, GuardedAdvance(access, mutation, a, m),
                    GuardedAdvance(access, mutation, b, m), client, fuel - 1);
    }
  }

  /** Nothing outside the project has changed since `base`, in the store or in any open snapshot. */
  ghost predicate Contained(s: Session, base: Db, project: string) {
    && AgreeOff(s.db, base, project)
    && forall i | 0 <= i < |s.stack| :: AgreeOff(s.stack[i].saved, OfKind(base, s.stack[i].kind), project)
  }

  lemma StepContained<V>(access: AccessContext, mutation: Permission, s: Session, m: Move<V>, base: Db)
    requires !Finishes(m) && Contained(s, base, access.projectId)
    ensures Contained(GuardedAdvance(access, mutation, s, m), base, access.projectId)
  {
    hide Apply, RequestRefusal, OfKind, Restore, AgreeOff;
    match m {
      case Call(req) =>
        if RequestRefusal(access, mutation, req).None? {
          AllowedRequest(access, mutation, req);
          RequestStaysInPartition(s.db, req);
          AgreeOffTwice(GuardedAdvance(access, mutation, s, m).db, s.db, base, access.projectId);
        }
      case Enter(kind) =>
        EnterContained(s.db, base, kind, access.projectId);
      case Leave(raised) =>
        if s.stack != [] {
          var top := s.stack[|s.stack| - 1];
          LeaveContained(s.db, base, top.kind, top.saved, access.projectId);
        }
      case _ =>
    }
  }

  lemma AgreeOffTwice(a: Db, b: Db, c: Db, project: string)
    requires AgreeOff(a, b, project) && AgreeOff(b, c, project)
    ensures AgreeOff(a, c, project)
  {
  }

  lemma EnterContained(db: Db, base: Db, kind: Kind, project: string)
    requires AgreeOff(db, base, project)
    ensures AgreeOff(OfKind(db, kind), OfKind(base, kind), project)
  {
  }

  lemma LeaveContained(db: Db, base: Db, kind: Kind, saved: Db, project: string)
    requires AgreeOff(db, base, project) && AgreeOff(saved, OfKind(base, kind), project)
    ensures AgreeOff(Restore(db, kind, saved), base, project)
  {
  }

  lemma {:induction false} RunContained<V>(access: AccessContext, mutation: Permission, s: Session, client: Client<V>,
                                           fuel: nat, base: Db)
    requires Contained(s, base, access.projectId)
    ensures Contained(GuardedRun(access, mutation, s, client, fuel).0, base, access.projectId)
    decreases fuel
  {
    var m := client(s.transcript);
    if fuel != 0 && !Finishes(m) {
      StepContained(access, mutation, s, m, base);
      RunContained(access, mutation, GuardedAdvance(access, mutation, s, m), client, fuel - 1, base);
    }
  }

  lemma Itself(db: Db, project: string)
    ensures AgreeOn(db, db, project)
  {
  }

  /** Project isolation, over two runs: whatever a wrapped client does, its answers and its effect
      depend on its own project only, and every other project is left as it was. */
  lemma ProjectIsolation<V>(access: AccessContext, mutation: Permission, a: Db, b: Db, client: Client<V>, fuel: nat)
    requires AgreeOn(a, b, access.projectId)
    ensures var (a', ra), (b', rb) := GuardedTransaction(access, mutation, a, client, fuel),
            GuardedTransaction(access, mutation, b, client, fuel);
            && ra == rb
            && AgreeOn(a', b', access.projectId)
            && AgreeOff(a', a, access.projectId)
            && AgreeOff(b', b, access.projectId)
  {
    RunsLookAlike(access, mutation, Begin(a), Begin(b), client, fuel);
    RunContained(access, mutation, Begin(a), client, fuel, a);
    RunContained(access, mutation, Begin(b), client, fuel, b);
  }

  lemma UnchangedStep<V>(access: AccessContext, mutation: Permission, s: Session, m: Move<V>, base: Db)
    requires !Finishes(m) && mutation !in Grants(access.role)
    requires s.db == base && forall i | 0 <= i < |s.stack| :: s.stack[i].saved == OfKind(base, s.stack[i].kind)
    ensures var next := GuardedAdvance(access, mutation, s, m);
            next.db == base
              && forall i | 0 <= i < |next.stack| :: next.stack[i].saved == OfKind(base, next.stack[i].kind)
  {
    if m.Leave? && s.stack != [] {
      var top := s.stack[|s.stack| - 1];
      RestoreIsReplacement(base, base, top.kind);
    }
  }

  /** The roles that a mutation permission shuts out: operating needs a foreman, approving a manager, managing an
      admin. */
  predicate ShutOut(role: Role, mutation: Permission) {
    match mutation
    case MayRead => false
    case MayOperate => role == Viewer
    case MayApprove => role in {Viewer, Foreman}
    case MayManage => role in {Viewer, Foreman, Manager}
  }

  /** A request of another project is forbidden; of the own one, a read is always served, and a write exactly for the
      roles that the permission does not shut out.  A refused request changes nothing. */
  lemma RoleDecides(access: AccessContext, mutation: Permission, db: Db, req: Request)
    ensures var writes := req.Create? || req.Save? || req.Delete?;
            GuardedApply(access, mutation, db, req) ==
            if RequestProject(req) != access.projectId then (db, Failed(ProjectForbidden))
            else if writes && ShutOut(access.role, mutation) then (db, Failed(RoleRequired))
            else Apply(db, req)
  {
    hide Apply, RequestProject;
  }

  lemma {:induction false} ShutOutRun<V>(access: AccessContext, mutation: Permission, s: Session,
                                         client: Client<V>, fuel: nat, base: Db)
    requires ShutOut(access.role, mutation)
    requires s.db == base && forall i | 0 <= i < |s.stack| :: s.stack[i].saved == OfKind(base, s.stack[i].kind)
    ensures GuardedRun(access, mutation, s, client, fuel).0.db == base
    decreases fuel
  {
    var m := client(s.transcript);
    if fuel != 0 && !Finishes(m) {
      UnchangedStep(access, mutation, s, m, base);
      ShutOutRun(access, mutation, GuardedAdvance(access, mutation, s, m), client, fuel - 1, base);
    }
  }

  /** Whatever a client does in whatever transaction, nested ones included, a role that is shut out leaves the store
      exactly as it was. */
  lemma RoleCannotWrite<V>(access: AccessContext, mutation: Permission, db: Db, client: Client<V>, fuel: nat)
    requires ShutOut(access.role, mutation)
    ensures GuardedTransaction(access, mutation, db, client, fuel).0 == db
  {
    ShutOutRun(access, mutation, Begin(db), client, fuel, db);
  }
}
