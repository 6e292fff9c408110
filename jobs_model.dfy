/**
 * The `job` table: the `Job` record, its read-only queries (`retreive_job`,
 * `list_jobs`, `search_job`) and the operations that change it
 * (`create_new_job`, `update_job_by_id`, `delete_job_by_id`).
 */
module Jobs {
  import opened Wrappers

  /** A calendar date as held by the `date_posted` column. */
  datatype Date = Date(year: int, month: int, day: int)

  /** The payload of a create or update request (`JobCreate`); `company_url` and `date_posted` may be NULL. */
  datatype JobCreate = JobCreate(
    title: string,
    company: string,
    companyUrl: Option<string>,
    location: string,
    description: string,
    datePosted: Option<Date>)

  /** A row of the `job` table; `ownerId` refers to a row of the `user` table. */
  datatype Job = Job(
    id: int,
    title: string,
    company: string,
    companyUrl: Option<string>,
    location: string,
    description: string,
    datePosted: Option<Date>,
    isActive: bool,
    ownerId: int)

  /**
   * The row built from a payload and an owner once the database has given it
   * the key `id`: `is_active` takes its column default.
   */
  function NewJob(id: int, p: JobCreate, ownerId: int): Job {
    Job(id, p.title, p.company, p.companyUrl, p.location, p.description, p.datePosted, true, ownerId)
  }

  /**
   * A row after a bulk update with the payload's attributes plus the owner:
   * every payload column and the owner are overwritten, the key and
   * `is_active` are kept.
   */
  function Overwritten(j: Job, p: JobCreate, ownerId: int): (r: Job)
    ensures r.id == j.id && r.isActive == j.isActive && r.ownerId == ownerId
    ensures r == NewJob(j.id, p, ownerId).(isActive := j.isActive)
  {
    j.(title := p.title, company := p.company, companyUrl := p.companyUrl,
       location := p.location, description := p.description,
       datePosted := p.datePosted, ownerId := ownerId)
  }

  /** Every row is stored under its own primary key. */
  ghost predicate KeyedById(jobs: map<int, Job>) {
    forall id :: id in jobs ==> jobs[id].id == id
  }

  /** `j` is one of the rows of the table. */
  ghost predicate Stored(jobs: map<int, Job>, j: Job) {
    exists k :: k in jobs && jobs[k] == j
  }

  /** `retreive_job`: the row whose `id` column equals `id`, if there is one. */
  function RetrieveJob(jobs: map<int, Job>, id: int): (r: Option<Job>)
    requires KeyedById(jobs)
    ensures r.Some? <==> exists k :: k in jobs && jobs[k].id == id
    ensures r.Some? ==> Stored(jobs, r.value) && r.value.id == id
  {
    if id in jobs then Some(jobs[id]) else None
  }

  /** Python truthiness of the optional owner filter: both `None` and `0` are false. */
  predicate IsTruthy(ownerId: Option<int>) {
    ownerId.Some? && ownerId.value != 0
  }

  /**
   * `list_jobs`: with a truthy owner, exactly the rows of that owner; with
   * `None` or `0`, every row.
   */
  function ListJobs(jobs: map<int, Job>, ownerId: Option<int>): (r: set<Job>)
    ensures forall j :: j in r <==> Stored(jobs, j) && (IsTruthy(ownerId) ==> j.ownerId == ownerId.value)
  {
    if IsTruthy(ownerId) then set k | k in jobs && jobs[k].ownerId == ownerId.value :: jobs[k]
    else set k | k in jobs :: jobs[k]
  }

  /** Owner `0` is no filter at all: it lists the rows of every owner, including rows owned by `0`. */
  lemma ListJobsOwnerZeroIsUnfiltered(jobs: map<int, Job>)
    ensures ListJobs(jobs, Some(0)) == ListJobs(jobs, None)
    ensures forall k :: k in jobs ==> jobs[k] in ListJobs(jobs, Some(0))
  {
  }

  /** `q` occurs in `s` starting at position `i`. */
  predicate OccursAt(q: string, s: string, i: nat) {
    i + |q| <= |s| && s[i..i + |q|] == q
  }

  /** `q` is a contiguous part of `s`. */
  ghost predicate IsSubstring(q: string, s: string) {
    exists i: nat :: OccursAt(q, s, i)
  }

  /** Moving one character into `s` shifts every occurrence after the first position by one. */
  lemma OccursAtTail(q: string, s: string, i: nat)
    requires |s| > 0
    ensures OccursAt(q, s, i + 1) <==> OccursAt(q, s[1..], i)
  {
    if i + 1 + |q| <= |s| {
      assert s[i + 1..i + 1 + |q|] == s[1..][i..i + |q|];
    }
  }

  /** The column test `title.contains(q)`, decided by trying each starting position of `s` in turn. */
  function Contains(s: string, q: string): bool
    ensures q == [] ==> Contains(s, q)
    ensures |s| < |q| ==> !Contains(s, q)
    decreases |s|
  {
    if q <= s then true
    else if |s| == 0 then false
    else Contains(s[1..], q)
  }

  /** `Contains(s, q)` holds exactly when `q` occurs somewhere in `s`; the empty query occurs everywhere. */
  lemma {:induction false} ContainsIsSubstring(s: string, q: string)
    ensures Contains(s, q) <==> IsSubstring(q, s)
    decreases |s|
  {
    if q <= s {
      assert OccursAt(q, s, 0);
    } else if |s| == 0 {
    } else {
      ContainsIsSubstring(s[1..], q);
      if Contains(s[1..], q) {
        var i: nat :| OccursAt(q, s[1..], i);
        OccursAtTail(q, s, i);
      }
      if IsSubstring(q, s) {
        var i: nat :| OccursAt(q, s, i);
        assert i != 0;
        OccursAtTail(q, s, i - 1);
      }
    }
  }

  /** Building a `LIKE`-family filter with a Python `None` operand is refused before any SQL is sent. */
  datatype ArgumentError = NoneOperandForContains

  /**
   * `search_job`: the rows whose title contains the query. A missing query
   * (the callers pass `None` when the request has none) makes building the
   * filter fail.
   */
  function SearchJob(jobs: map<int, Job>, query: Option<string>): (r: Result<set<Job>, ArgumentError>)
    ensures r.Err? <==> query.None?
    ensures r.Ok? ==> forall j :: j in r.value <==> Stored(jobs, j) && IsSubstring(query.value, j.title)
  {
    if query.None? then Err(NoneOperandForContains)
    else
      assert forall t :: Contains(t, query.value) <==> IsSubstring(query.value, t) by {
        forall t ensures Contains(t, query.value) <==> IsSubstring(query.value, t) {
          ContainsIsSubstring(t, query.value);
        }
      }
      Ok(set k | k in jobs && Contains(jobs[k].title, query.value) :: jobs[k])
  }

  /** The job table together with the source of fresh primary keys. */
  class JobTable {
    var jobs: map<int, Job>
    /**
     * The key allocator: the model hands out `nextId` and moves past it, but
     * no contract relies on that, since databases differ in whether they
     * reuse the keys of deleted rows.
     */
    var nextId: int

    ghost predicate Valid()
      reads this
    {
      && KeyedById(jobs)
      && 1 <= nextId
      && (forall id :: id in jobs ==> 1 <= id < nextId)
    }

    constructor ()
      ensures Valid() && jobs == map[]
    {
      jobs := map[];
      nextId := 1;
    }

    /**
     * `create_new_job`: adds one row under a key not yet in the table, with
     * the payload's columns, the given owner and `is_active` set; every other
     * row is unchanged.
     */
    method CreateNewJob(job: JobCreate, ownerId: int) returns (created: Job)
      requires Valid()
      modifies this
      ensures Valid()
      ensures created.id !in old(jobs)
      ensures created == NewJob(created.id, job, ownerId)
      ensures created.ownerId == ownerId && created.isActive
      ensures jobs == old(jobs)[created.id := created]
    {
      created := NewJob(nextId, job, ownerId);
      jobs := jobs[nextId := created];
      nextId := nextId + 1;
    }

    /**
     * `update_job_by_id`: 0 and no change when no row has key `id`; otherwise
     * 1, with that row's payload columns and owner overwritten and every
     * other row unchanged.
     */
    method UpdateJobById(id: int, job: JobCreate, ownerId: int) returns (count: int)
      requires Valid()
      modifies this
      ensures Valid()
      ensures id !in old(jobs) ==> count == 0 && jobs == old(jobs)
      ensures id in old(jobs) ==>
        && count == 1
        && jobs == old(jobs)[id := Overwritten(old(jobs)[id], job, ownerId)]
        && jobs[id].ownerId == ownerId
    {
      if RetrieveJob(jobs, id).None? {
        return 0;
      }
      jobs := jobs[id := Overwritten(jobs[id], job, ownerId)];
      count := 1;
    }

    /**
     * `delete_job_by_id`: 0 and no change when no row has key `id`; otherwise
     * 1, with exactly that row removed. The `ownerId` argument plays no part.
     */
    method DeleteJobById(id: int, ownerId: int) returns (count: int)
      requires Valid()
      modifies this
      ensures Valid()
      ensures id !in old(jobs) ==> count == 0 && jobs == old(jobs)
      ensures id in old(jobs) ==> count == 1 && jobs == old(jobs) - {id}
    {
      if RetrieveJob(jobs, id).None? {
        return 0;
      }
      jobs := jobs - {id};
      count := 1;
    }
  }
}
