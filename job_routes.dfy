/**
 * The decisions the job routes make around the job table: `create_job`,
 * `read_job`, `update_job` and `delete_job`. The caller is the user record the
 * token resolver produced; how that record was obtained is not modelled here.
 */
module JobRoutes {
  import opened Wrappers
  import opened Jobs
  import Users

  const HTTP_401_UNAUTHORIZED: int := 401
  const HTTP_404_NOT_FOUND: int := 404

  /** The owner `update_job` writes into every row it updates, whoever calls it. */
  const UPDATE_OWNER_ID: int := 1

  /** The `detail` of an HTTP exception; the ones that name a job carry its id. */
  datatype Detail =
    | JobWithThisIdDoesNotExist(id: int)  // read_job
    | JobWithIdNotFound(id: int)          // update_job
    | JobWithIdDoesNotExist(id: int)      // delete_job
    | NotPermitted                        // delete_job, caller neither owner nor superuser

  datatype HttpException = HttpException(statusCode: int, detail: Detail)

  /** The bodies of the successful update and delete responses. */
  datatype Message = SuccessfullyUpdated | SuccessfullyDeleted

  /**
   * What a handler hands back: a body, an exception it raises, or an exception
   * object it returns as if it were a body (as `delete_job` does for a missing job).
   */
  datatype Response<T> = Success(body: T) | Raised(exception: HttpException) | Returned(exception: HttpException)

  /** The ownership check of `delete_job`: the caller owns the job or is a superuser. */
  predicate MayMutate(job: Job, caller: Users.User) {
    job.ownerId == caller.id || caller.isSuperuser
  }

  /** `read_job`: the stored job, or a raised 404 when no job has this id. */
  function ReadJob(jobs: map<int, Job>, id: int): (r: Response<Job>)
    requires KeyedById(jobs)
    ensures r.Success? <==> id in jobs
    ensures r.Success? ==> Stored(jobs, r.body) && r.body.id == id
    ensures !r.Success? ==> r == Raised(HttpException(HTTP_404_NOT_FOUND, JobWithThisIdDoesNotExist(id)))
  {
    match RetrieveJob(jobs, id)
    case None => Raised(HttpException(HTTP_404_NOT_FOUND, JobWithThisIdDoesNotExist(id)))
    case Some(job) => Success(job)
  }

  /**
   * The answer of `delete_job`: a missing job is reported before the caller is
   * looked at at all, and an existing job is deleted exactly when the caller
   * owns it or is a superuser; otherwise a 401 is raised.
   */
  function DeleteJobOutcome(jobs: map<int, Job>, id: int, caller: Users.User): (r: Response<Message>)
    requires KeyedById(jobs)
    ensures id !in jobs ==> r == Returned(HttpException(HTTP_404_NOT_FOUND, JobWithIdDoesNotExist(id)))
    ensures id in jobs ==>
      (r == Success(SuccessfullyDeleted) <==> jobs[id].ownerId == caller.id || caller.isSuperuser)
    ensures id in jobs && !(jobs[id].ownerId == caller.id || caller.isSuperuser) ==>
      r == Raised(HttpException(HTTP_401_UNAUTHORIZED, NotPermitted))
  {
    match RetrieveJob(jobs, id)
    case None => Returned(HttpException(HTTP_404_NOT_FOUND, JobWithIdDoesNotExist(id)))
    case Some(job) =>
      if MayMutate(job, caller) then Success(SuccessfullyDeleted)
      else Raised(HttpException(HTTP_401_UNAUTHORIZED, NotPermitted))
  }

  /** For a missing job, who asks makes no difference: the existence check comes first. */
  lemma NotFoundIgnoresCaller(jobs: map<int, Job>, id: int, a: Users.User, b: Users.User)
    requires KeyedById(jobs)
    requires id !in jobs
    ensures DeleteJobOutcome(jobs, id, a) == DeleteJobOutcome(jobs, id, b)
    ensures DeleteJobOutcome(jobs, id, a).Returned?
  {
  }

  /** A superuser may delete every stored job; anyone else only the jobs they own. */
  lemma SuperuserDeletesAny(jobs: map<int, Job>, id: int, caller: Users.User)
    requires KeyedById(jobs)
    requires id in jobs
    ensures caller.isSuperuser ==> DeleteJobOutcome(jobs, id, caller).Success?
    ensures !caller.isSuperuser ==> (DeleteJobOutcome(jobs, id, caller).Success? <==> jobs[id].ownerId == caller.id)
  {
  }

  /** `create_job`: the job is stored with the caller as its owner. */
  method CreateJob(table: JobTable, job: JobCreate, caller: Users.User) returns (created: Job)
    requires table.Valid()
    modifies table
    ensures table.Valid()
    ensures created.ownerId == caller.id
    ensures created == NewJob(created.id, job, caller.id)
    ensures created.id !in old(table.jobs)
    ensures table.jobs == old(table.jobs)[created.id := created]
  {
    created := table.CreateNewJob(job, caller.id);
  }

  /**
   * `update_job`: no caller and no ownership check; a missing job raises a 404
   * and changes nothing, an existing one is overwritten with owner 1.
   */
  method UpdateJob(table: JobTable, id: int, job: JobCreate) returns (r: Response<Message>)
    requires table.Valid()
    modifies table
    ensures table.Valid()
    ensures id !in old(table.jobs) ==>
      r == Raised(HttpException(HTTP_404_NOT_FOUND, JobWithIdNotFound(id))) && table.jobs == old(table.jobs)
    ensures id in old(table.jobs) ==>
      && r == Success(SuccessfullyUpdated)
      && table.jobs == old(table.jobs)[id := Overwritten(old(table.jobs)[id], job, UPDATE_OWNER_ID)]
      && table.jobs[id].ownerId == UPDATE_OWNER_ID
  {
    var count := table.UpdateJobById(id, job, UPDATE_OWNER_ID);
    if count == 0 {
      return Raised(HttpException(HTTP_404_NOT_FOUND, JobWithIdNotFound(id)));
    }
    r := Success(SuccessfullyUpdated);
  }

  /**
   * `delete_job`: answers as `DeleteJobOutcome` says; the job is removed only
   * when the answer is a success, and a refusal or a missing job leaves the
   * table as it was.
   */
  method DeleteJob(table: JobTable, id: int, caller: Users.User) returns (r: Response<Message>)
    requires table.Valid()
    modifies table
    ensures table.Valid()
    ensures r == DeleteJobOutcome(old(table.jobs), id, caller)
    ensures r.Success? ==> table.jobs == old(table.jobs) - {id}
    ensures !r.Success? ==> table.jobs == old(table.jobs)
  {
    var found := RetrieveJob(table.jobs, id);
    if found.None? {
      return Returned(HttpException(HTTP_404_NOT_FOUND, JobWithIdDoesNotExist(id)));
    }
    if MayMutate(found.value, caller) {
      var count := table.DeleteJobById(id, caller.id);
      return Success(SuccessfullyDeleted);
    }
    r := Raised(HttpException(HTTP_401_UNAUTHORIZED, NotPermitted));
  }

  /**
   * A client of the handlers: an owner's job survives a stranger's delete,
   * goes with a superuser's, and a second delete finds nothing.
   */
  method OwnershipScenario(job: JobCreate) {
    var table := new JobTable();
    var alice := Users.User(1, "alice", "alice@example.com", "alice-hash", true, false);
    var bob := Users.User(2, "bob", "bob@example.com", "bob-hash", true, false);
    var admin := Users.User(3, "admin", "admin@example.com", "admin-hash", true, true);

    var created := CreateJob(table, job, alice);
    assert created.ownerId == alice.id;
    assert ReadJob(table.jobs, created.id) == Success(created);

    var r := DeleteJob(table, created.id, bob);
    assert r == Raised(HttpException(HTTP_401_UNAUTHORIZED, NotPermitted));
    assert ReadJob(table.jobs, created.id) == Success(created);

    r := DeleteJob(table, created.id, admin);
    assert r == Success(SuccessfullyDeleted);
    assert RetrieveJob(table.jobs, created.id) == None;

    r := DeleteJob(table, created.id, alice);
    assert r == Returned(HttpException(HTTP_404_NOT_FOUND, JobWithIdDoesNotExist(created.id)));

    var u := UpdateJob(table, created.id, job);
    assert u.Raised? && u.exception.statusCode == HTTP_404_NOT_FOUND;
  }
}
