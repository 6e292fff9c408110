# Job board: job table, user table and the ownership decision

A model of the storage and authorization core of a job-listing web service.
Users register with a username, an e-mail address and a password. Signed-in
users post jobs. A job may be deleted by its owner or by a superuser. The
model covers:

- the `job` table and its queries and updates (module `Jobs`,
  `jobs_model.dfy`);
- the `user` table, registration and lookup by e-mail address (module
  `Users`, `users.dfy`);
- the route handlers that create, read, update and delete jobs (module
  `JobRoutes`, `job_routes.dfy`).

Each table is a class. It holds a `map` from primary key to row and a counter
that stands for the database's key allocator. The `Valid()` predicate states
what the database keeps true:
- every row sits under its own id;
- ids are positive and below the allocator;
- usernames and e-mail addresses are unique.

Queries are pure functions on the map. They are specified by the SQL filter
they stand for, which is written against the row's columns, not the map's keys.
The handlers' parameters and results:
- `CreateJob` takes the table, the payload and the resolved caller. It
  returns the stored `Job`.
- `ReadJob` is a pure function of the job map and the id. No caller is
  involved.
- `UpdateJob` takes the table, the id and the payload. It has no caller,
  because the route has none.
- `DeleteJob` takes the table, the id and the resolved caller.

`ReadJob`, `UpdateJob` and `DeleteJob` return a `Response` that tells three
things apart: a body, a raised HTTP exception, and an exception object that
the handler *returns*. `delete_job` does the last of these for a missing job.

Notable behaviour of the code that the model keeps:
- `list_jobs` tests its owner filter for Python truthiness, so owner `0`
  means "no filter".
- `get_user` compares its `username` argument with the `email` column.
- `update_job` checks no ownership and writes owner `1` into the job it
  updates.
- `delete_job_by_id` ignores its `owner_id` argument.
- `delete_job` checks that the job exists before it checks ownership. A
  refusal is a 401.

The search routes pass `None` to `search_job` when the request carries no
query. SQLAlchemy refuses to build a `contains` filter with a `None` operand,
so in that case the model returns an `ArgumentError` and no rows.

## Model

| member | source | states |
|---|---|---|
| `Jobs.KeyedById` | app/api/jobs/model.py:14 | the `id` primary key: every stored job sits under the value of its own `id` column |
| `Jobs.JobTable.Valid` | app/api/jobs/model.py:14 | the facts the database keeps for the job table: rows keyed by their primary key, keys positive and below the allocator; preserved by every table operation |
| `Jobs.RetrieveJob` | app/api/jobs/model.py:34-36 | returns a row exactly when some stored row has that value in its `id` column; the row returned is stored and has that id; nothing is changed |
| `Jobs.IsTruthy` | app/api/jobs/model.py:40 | the owner filter's `if owner_id:` test: true only for a present, non-zero owner |
| `Jobs.ListJobs` | app/api/jobs/model.py:39-43 | with a truthy owner filter, the result is exactly the stored rows with that `owner_id`; with `None` or `0`, it is every stored row |
| `Jobs.ListJobsOwnerZeroIsUnfiltered` | app/api/jobs/model.py:40 | owner `0` lists the same rows as no filter, which is every row of the table |
| `Jobs.Contains` | app/api/jobs/model.py:68 | the title test behind `title.contains(q)`; the empty query matches every title, and a query longer than the title matches none |
| `Jobs.ContainsIsSubstring` | app/api/jobs/model.py:68 | the `title.contains(q)` test holds exactly when `q` occurs as a contiguous part of the title, the empty query included |
| `Jobs.SearchJob` | app/api/jobs/model.py:67-69 | every row returned is stored and has the query in its title; every stored row with the query in its title is returned; a missing query gives an `ArgumentError` and no rows |
| `Jobs.NewJob` | app/api/jobs/model.py:21-27 | the row built from a payload and an owner: payload columns copied, the given key and owner, `is_active` true |
| `Jobs.Overwritten` | app/api/jobs/model.py:50-53 | the row after an update: key and `is_active` kept, owner replaced; the same as a new row with that key and payload apart from `is_active` |
| `Jobs.JobTable.CreateNewJob` | app/api/jobs/model.py:26-31 | adds one row under a key not in the table before; the row has the payload's columns, the given owner and `is_active` true; all earlier rows are unchanged |
| `Jobs.JobTable.UpdateJobById` | app/api/jobs/model.py:46-55 | an absent id gives 0 and no change; a present id gives 1; that row's payload columns and `owner_id` are overwritten, its id and `is_active` kept, and no other row changes |
| `Jobs.JobTable.DeleteJobById` | app/api/jobs/model.py:58-64 | an absent id gives 0 and no change; a present id gives 1 and removes exactly that row; the `owner_id` argument has no effect |
| `Users.KeyedById` | app/api/users/model.py:14 | the `id` primary key: every stored user sits under the value of its own `id` column |
| `Users.UniqueUsernames` | app/api/users/model.py:15 | the `unique=True` constraint on `username`: two stored users with the same username are the same row |
| `Users.UniqueEmails` | app/api/users/model.py:16 | the `unique=True` constraint on `email`: two stored users with the same e-mail address are the same row |
| `Users.UserTable.Valid` | app/api/users/model.py:14-16 | the facts the database keeps for the user table: rows keyed by their primary key, keys positive and below the allocator, usernames and e-mail addresses unique; preserved by `CreateNewUser` |
| `Users.Taken` | app/api/users/model.py:15-16 | some stored user already has this username or this e-mail address, which the unique columns forbid a second time |
| `Users.FoundEmailIsTaken` | app/api/users/model.py:16 | an e-mail address that the lookup finds cannot be registered again, whatever the username |
| `Users.GetUserByEmail` | app/api/users/model.py:42-44 | returns a user exactly when some stored user has that e-mail address; the user returned is the stored one with it; nothing is changed |
| `Users.GetUser` | app/api/users/model.py:23-25 | matches its `username` argument against the `email` column: it finds a user exactly when one has that e-mail address, the same answer as `GetUserByEmail` |
| `Users.GetUserMissesByUsername` | app/api/users/model.py:23-25 | a user's username that is nobody's e-mail address does not find that user |
| `Users.UserTable.CreateNewUser` | app/api/users/model.py:28-39 | succeeds exactly when the username and the e-mail address are both unused; stores them unchanged with the hasher's output for the password, `is_active` true and `is_superuser` false, under a fresh id; a duplicate fails and changes nothing; uniqueness is kept |
| `JobRoutes.MayMutate` | app/api/jobs/jobs.py:98 | the owner-or-superuser test of `delete_job`: the caller owns the job or is a superuser |
| `JobRoutes.CreateJob` | app/api/jobs/jobs.py:34-41 | stores the payload as a new job whose owner is the caller; no earlier job changes |
| `JobRoutes.ReadJob` | app/api/jobs/jobs.py:47-54 | the stored job with that id when there is one; otherwise a raised 404 "does not exist" for that id |
| `JobRoutes.UpdateJob` | app/api/jobs/jobs.py:74-82 | involves no caller and no check; a missing id raises 404 "not found" and changes nothing; a present id gives the success message and overwrites the job with owner 1 |
| `JobRoutes.DeleteJobOutcome` | app/api/jobs/jobs.py:91-103 | a missing job gives a returned 404; an existing job gives success exactly when its owner is the caller or the caller is a superuser, and a raised 401 "not permitted" otherwise |
| `JobRoutes.NotFoundIgnoresCaller` | app/api/jobs/jobs.py:91-96 | for a missing job, the delete answer is the same for every caller: the existence check comes before authorization |
| `JobRoutes.SuperuserDeletesAny` | app/api/jobs/jobs.py:98-100 | a superuser's delete of a stored job always succeeds; anyone else's succeeds exactly when they own the job |
| `JobRoutes.DeleteJob` | app/api/jobs/jobs.py:85-103 | answers as `DeleteJobOutcome` does; removes exactly that job on success and leaves the table untouched on a 404 or a 401 |

## Left out

- Password hashing, token issuance and validation, and the cookie scheme parsing live in `app/api/utils.py` and `app/api/users/users.py`, which are not part of this model. `CreateNewUser` takes the hasher as a function parameter. The handlers take the resolved caller as a parameter.
- `Users.UserTable.CreateNewUser`: models the hasher as a deterministic function, so it does not capture the fresh salt that makes two hashes of one password differ.
- The ORM session (`add`, `commit`, `refresh`, `synchronize_session`) and the `owner`/`jobs` relationship attributes are not modelled. Each table is an in-memory map whose updates always commit. The model does not place the commit's unique-constraint failure at a particular point in the session.
- The foreign key from `owner_id` to `user.id` is not enforced, and the job and user tables are not linked. The source relies on the database for this check, and `update_job` may write owner `1` whether or not that user exists.
- Key allocation: the tables keep a counter, but no contract says how it moves. The contracts promise only that a new key is not in the table at that moment. A key freed by a delete may come back, as it does on SQLite, and a failed insert may use up a key, as it does with a PostgreSQL sequence.
- Query results are sets, because the SQL queries carry no `ORDER BY`. The order of `list_jobs` and `search_job` results, and `.first()` among several matches, are not modelled. With the unique columns there is at most one match.
- `Jobs.Contains`: plain substring test. It does not model that SQL `LIKE` treats `%` and `_` in the query as wildcards, nor that PostgreSQL's `LIKE` takes `\` as its default escape character, so a query containing `\` can differ from a plain substring test, nor that some databases compare ASCII letters case-insensitively.
- `JobRoutes.DeleteJob`: assumes each handler runs alone against the table. The source checks, then acts: it looks the job up (app/api/jobs/jobs.py:91), tests ownership (:98), deletes (:99) and ignores the count that delete returns. Concurrent requests share the database, so another request can delete the row or rewrite its owner in between, and the source still answers "Successfully deleted.". The model's handler is atomic and does not capture that interleaving.
- Response shaping through `response_model=ShowJob` (app/api/jobs/jobs.py:34, 45) is not modelled. The `ShowJob` schema is not part of this model. `CreateJob` and `ReadJob` return the whole row, where the route sends only the columns `ShowJob` declares.
- Ids are unbounded integers, but the `id` columns are `Integer`. A path id outside the database's integer range makes the driver raise (above 2^63-1 on SQLite), where the model answers 404.
- The `JobCreate` schema is not part of this model. The payload is assumed to carry the title, company, company URL, location, description and posting date, and `is_active` takes its column default.
- `update_job_by_id` also writes the owner into the caller's payload object. That mutation is not modelled. The model keeps only the effect on the stored row.
- The `detail` texts are represented by a message kind carrying the job id, not by formatted strings.
- The application-wide exception handler in `main.py` renders raised HTTP exceptions as the home page. It is not modelled; handlers report the exception itself.
- The HTML routes (`read_jobs`, `read_user_jobs`, `home`, `job_detail`, `get_create_job`, the form-based `create_job`, `show_jobs_to_delete`, `search`) are rendering around the modelled queries. `autocomplete` computes titles and returns nothing. The `print` calls are diagnostics only.
- Configuration reads and router wiring (`app/api/config.py`, `app/api/base.py`, `main.py`) are not modelled.
