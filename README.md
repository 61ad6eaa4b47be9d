# Job board backend: the job handlers and first-login user provisioning

This project models the core of a job board's Express backend in Dafny:

- the eight job handlers of `server/controllers/jobController.js`: create, list, list by owner, search, apply, like/unlike, get by id and delete;
- the landing route of `server/server.js`, which makes sure an authenticated visitor has a local user record (`ensureUserInDB`).

MongoDB is replaced by an in-memory database with two collections. The jobs collection is a map from id to job plus the collection's natural (insertion) order. The users collection is a map from the identity provider's subject (`auth0Id`) to the user record.

The model has these modules:

- `Records`: the documents, the replies, the database value `Db`, its consistency predicate `Wf` and the three writes the handlers perform (`Saved`, `Removed`, `Created`).
- `Store`: the database as a `class` with `jobs`, `order` and `users` fields. Its methods are the driver calls the handlers make: `save`, `find`, `deleteOne`, `User.create`. Each method is proved to keep `Valid()` and to produce exactly the corresponding `Records` write.
- `JobController`:
  - Each state-changing handler (`createJob`, `applyJob`, `likeJob`, `deleteJob`) is two members. A pure function describes its outcome: the reply and the database afterwards. A method performs the handler on a `Database` and is proved to produce exactly that outcome.
  - The read-only handlers are functions of the database contents, with contracts saying what they list.
  - `searchJobs` is also a method: it builds the query object field by field, then runs `find`.
- `JobProperties`: lemmas relating several handler calls or stating what they promise: guard order, failures leave the database unchanged, applicants and likes stay duplicate-free, the round trips of like/unlike, refusal of a second application, and what a search finds.
- `Server`: `ensureUserInDB` and the landing route.
- `Seqs`, `Text`, `Sorting`: the sequence, string and ordering operations the handlers rely on.

A reply is a status code, an optional message and a body. The body is one job, a list of jobs, or nothing.

Some source behaviours are written as parameters or modelled explicitly:

- **Id validity.** Whether a string is a well-formed ObjectId is a parameter `validId`.
  - `getJobById` checks it first and answers 400.
  - In the other handlers, `findById` on a malformed id throws a cast error, which the handlers' `catch` turns into 500. In `deleteJob` this happens before the user lookup.
- **Generated values.** The id a new document receives (`newId`) and the creation time (`now`) are parameters.
  - An id that is already taken is a duplicate-key failure.
  - In `createJob` that failure answers 500.
  - In `ensureUserInDB` the failure is swallowed, like every error there.
- **Field check before the owner.** `createJob` checks the required fields before it dereferences `user._id`. Missing fields therefore answer 400 even when no user has the session's subject. With the fields present, a missing user makes the dereference throw, which answers 500.
- **JavaScript truthiness.** A required string field counts as missing when it is absent or `""`. The salary counts as missing when it is absent or `0`.
- **No ownership check in delete.** `deleteJob` does not compare the job's owner with the session's user. `JobProperties.DeleteIgnoresOwner` states this.

## Model

| member | source | states |
|---|---|---|
| JobController.CreateJob | server/controllers/jobController.js:7-47 | performs createJob on the database: the reply and the new contents are exactly `CreateJobOutcome` (400 for missing fields, 500 without a user or on a taken id, otherwise 201 with the saved job); the database stays consistent |
| JobController.RequiredFieldsFilled | server/controllers/jobController.js:13 | the required fields are truthy: title, location, salaryType, jobType and description present and non-empty, salary present and non-zero |
| JobController.NewJob | server/controllers/jobController.js:19-32 | the job document built from the body's fields, the owner's id and the creation time, with no applicants and no likes (tags and skills empty when absent) |
| JobProperties.CreateRejectsFalsyField | server/controllers/jobController.js:13-17 | any absent or empty required string field, or an absent or zero salary, is refused with 400 "Please fill all the required fields", the database unchanged, whether or not the user exists |
| JobProperties.CreateWithoutUserFails | server/controllers/jobController.js:9-30 | with the fields present but no user for the subject, the `user._id` dereference fails and the reply is 500 "Internal server error" with nothing stored |
| JobProperties.CreateBuildsJob | server/controllers/jobController.js:19-38 | a successful create answers 201 "Job created successfully" with a job carrying exactly the given fields, owned by the session's user id, stamped with the creation time, with empty applicants and likes |
| JobProperties.CreateAddsOneJob | server/controllers/jobController.js:19-33 | a successful create adds that one job (one more job, appended at the end of the natural order), leaves every other job and all users unchanged, and keeps the database consistent and every job's engagements duplicate-free |
| JobController.GetJobs | server/controllers/jobController.js:50-56 | answers 200 with every stored job exactly once (same multiset as the collection), newest first |
| JobController.GetJobsByUser | server/controllers/jobController.js:66-86 | a malformed id answers 500; an id no user has answers 404 "User not found"; otherwise 200 with exactly the jobs created by that id, each as often as stored, newest first |
| JobController.Search | server/controllers/jobController.js:90-110 | answers 200 with exactly the stored jobs that every supplied filter matches |
| JobController.SearchJobs | server/controllers/jobController.js:92-110 | building the query field by field and running `find` yields exactly `Search`: the matching jobs in natural order |
| JobController.QueryAgrees | server/controllers/jobController.js:94-106 | the query object built from the truthy parameters selects the same jobs as the filters' meaning |
| Store.Database.Find | server/controllers/jobController.js:108 | `Job.find(filter)` returns the stored jobs the filter selects, in the collection's natural order |
| JobProperties.SearchUnfiltered | server/controllers/jobController.js:94-108 | with every parameter absent or empty the search returns the whole collection in natural order |
| JobProperties.SearchOneTag | server/controllers/jobController.js:96-98 | a single tag (no comma) finds exactly the jobs carrying that tag |
| JobProperties.SearchAnyTag | server/controllers/jobController.js:96-98 | a comma-joined list of tags finds exactly the jobs carrying at least one of them (`$in` over `split(",")`) |
| JobProperties.TagsMatchJoined | server/controllers/jobController.js:96-98 | the tag filter on a comma-joined list holds iff the job carries one of the listed tags |
| JobProperties.SearchByLocation | server/controllers/jobController.js:100-102 | a location parameter without regular-expression metacharacters finds exactly the jobs whose location contains it, ignoring case |
| JobProperties.SearchIgnoresPatternCase | server/controllers/jobController.js:100-106 | for metacharacter-free location and title parameters, the filters give the same jobs whatever the case of the parameters (the "i" option), and the lower-cased parameters stay metacharacter-free |
| Text.LowerKeepsNoMeta | server/controllers/jobController.js:101-105 | lower-casing a metacharacter-free pattern leaves it metacharacter-free |
| JobController.TagsMatch | server/controllers/jobController.js:96-98 | the tag filter: an absent or empty parameter imposes nothing; otherwise some piece of the comma split is one of the job's tags |
| JobController.PatternMatches | server/controllers/jobController.js:100-106 | a location or title filter: an absent or empty parameter imposes nothing; otherwise the pattern occurs in the field, ignoring case |
| Text.ContainsIgnoresCase | server/controllers/jobController.js:101 | the case-insensitive match holds iff it holds between the lower-cased text and the lower-cased pattern |
| Text.LiteralOccurrenceMatches | server/controllers/jobController.js:101 | a text containing the pattern literally is matched |
| Text.Split | server/controllers/jobController.js:97 | splitting by a separator gives at least one piece, no piece contains the separator, and joining the pieces gives back the string |
| Text.SplitJoin | server/controllers/jobController.js:97 | splitting the join of separator-free pieces gives back those pieces |
| Text.SplitNoSeparator | server/controllers/jobController.js:97 | a string without the separator splits into itself alone |
| JobController.GetJobById | server/controllers/jobController.js:196-210 | 400 "Invalid job ID format" iff the id is malformed; 404 "Job not found" iff well-formed but absent; 200 with exactly the stored job iff present |
| JobController.ApplyJob | server/controllers/jobController.js:119-154 | performs applyJob on the database: the reply and the new contents are exactly `ApplyJobOutcome`; the database stays consistent |
| JobProperties.ApplyGuards | server/controllers/jobController.js:121-141 | the guards in order: malformed id 500, no job 404 "Job not found", no user 404 "User not found", already an applicant 400 "Already applied for this job"; every failure leaves the database unchanged |
| JobProperties.ApplyAppendsOnce | server/controllers/jobController.js:137-147 | a successful application appends the user's id once at the end of that job's applicants, changes nothing else, and answers 200 with the saved job |
| JobProperties.ApplyKeepsDistinct | server/controllers/jobController.js:137-145 | applying keeps every job's applicants and likes duplicate-free |
| JobProperties.ApplyTwiceRefused | server/controllers/jobController.js:137-141 | after a successful application the same application is refused with 400 and changes nothing |
| JobController.LikeJob | server/controllers/jobController.js:156-193 | performs likeJob on the database: the reply and the new contents are exactly `LikeJobOutcome`; the database stays consistent |
| JobProperties.LikeGuards | server/controllers/jobController.js:158-169 | malformed id 500, no job 404 "Job not found", no user 404 "User not found", otherwise 200; every failure leaves the database unchanged |
| JobProperties.LikeToggles | server/controllers/jobController.js:171-185 | a successful like flips the user's membership in the likes (all occurrences removed with "Job unliked", or appended once with "Job liked"), leaves other likers and everything outside that job's likes unchanged |
| JobProperties.LikeKeepsDistinct | server/controllers/jobController.js:171-181 | liking keeps every job's applicants and likes duplicate-free |
| JobProperties.LikeTwiceFromUnliked | server/controllers/jobController.js:171-183 | like then unlike from the not-liked state restores the database exactly, with messages "Job liked" then "Job unliked" |
| JobProperties.LikeTwiceFromLiked | server/controllers/jobController.js:171-183 | unlike then like from the liked state leaves the user liking the job once, as the most recent like |
| Seqs.Toggle | server/controllers/jobController.js:171-179 | the toggled value's membership flips; every other value keeps its membership |
| Seqs.ToggleTwiceAbsent | server/controllers/jobController.js:171-179 | toggling an absent value twice gives back the original likes |
| Seqs.ToggleTwicePresent | server/controllers/jobController.js:171-179 | toggling a present value twice leaves it once, at the end |
| Seqs.ToggleNoDup | server/controllers/jobController.js:171-179 | toggling keeps the likes duplicate-free |
| Seqs.Without | server/controllers/jobController.js:175 | the filter removes the value everywhere and keeps every other value |
| JobController.DeleteJob | server/controllers/jobController.js:217-246 | performs deleteJob on the database: the reply and the new contents are exactly `DeleteJobOutcome`; the database stays consistent |
| JobProperties.DeleteGuards | server/controllers/jobController.js:219-231 | malformed id 500; a missing user 404 "User not found" is reported before a missing job 404 "Job not found"; every failure leaves the database unchanged |
| JobProperties.DeleteRemovesOnlyThatJob | server/controllers/jobController.js:233-239 | a successful delete answers 200 "Job deleted successfully", removes exactly that job, keeps every other job and its order and all users, and keeps the database consistent |
| JobProperties.DeleteIgnoresOwner | server/controllers/jobController.js:219-239 | any two existing users get the same outcome: there is no ownership check |
| Sorting.SortNewestFirst | server/controllers/jobController.js:52-54 | the jobs sorted by `createdAt` descending, as a permutation of the input |
| Sorting.InsertSorted | server/controllers/jobController.js:54 | inserting into a newest-first list keeps it newest first |
| Sorting.SortedSameMembers | server/controllers/jobController.js:54 | sorting neither adds nor drops a job |
| Store.Database.Save | server/controllers/jobController.js:33 | `save()` inserts a new job at the end of the natural order or replaces a stored one in place, keeping the database consistent |
| Store.Database.DeleteOne | server/controllers/jobController.js:233-235 | `deleteOne()` removes the job from the map and from the order, keeping the database consistent |
| Records.Saved | server/controllers/jobController.js:33 | `save()` on the database value: the job stored under its id, a new id appended to the natural order, users unchanged |
| Records.Removed | server/controllers/jobController.js:233-235 | `deleteOne()` on the database value: the id removed from the map and from the order, users unchanged |
| Records.Created | server/server.js:47-54 | `User.create()` on the database value: the user filed under its subject, jobs unchanged |
| Store.Database.CreateUser | server/server.js:47-54 | `User.create()` for a subject and an id not yet stored: the new state is exactly `Created(old, user)` and the database stays consistent |
| Records.SavedNewTable | server/controllers/jobController.js:33 | saving a new job appends it to the collection's natural order |
| Records.SavedNewCount | server/controllers/jobController.js:33 | saving a new job adds exactly one job |
| Records.TableFacts | server/controllers/jobController.js:52 | the natural order lists every stored job exactly once |
| Server.NewUser | server/server.js:47-54 | the record created on first login: the claims' name, email, picture and profession, the subject as `auth0Id`, role "jobSeeker" |
| Server.EnsureUserInDB | server/server.js:42-61 | performs ensureUserInDB on the database: the new contents are exactly `EnsureUserOutcome`, and the database stays consistent |
| Server.EnsureUserCreates | server/server.js:44-54 | for a subject not yet stored: exactly one user is added under that subject, with role "jobSeeker" and the claims' name, email and picture; jobs are unchanged |
| Server.EnsureUserExisting | server/server.js:44-57 | a subject already stored changes nothing |
| Server.EnsureUserFramesOthers | server/server.js:42-61 | no user is removed or modified, only the subject's record can appear, jobs are untouched, and consistency is kept, including when the insert fails |
| Server.EnsureUserIdempotent | server/server.js:44-57 | provided the first call's id is not taken, a second call, with any new id, changes nothing |
| Server.Home | server/server.js:64-73 | an authenticated visit provisions the user and redirects to the client; an anonymous visit answers "Logged out" and changes nothing |

## Left out

- The Mongoose driver is not modelled; the in-memory database stands for it. Its other failures (connection loss, schema validation) are missing, and so are the 500 replies they would cause in each handler.
- `populate` projections are not modelled: the owner's `name` and `profilePicture` in the listings, and the applicants' `name` and `profilePicture` in getJobById. The model returns the stored documents.
- Search patterns are matched as literal, ASCII case-insensitive substrings. Regular-expression metacharacters are not interpreted. The 500 reply for an invalid pattern is not modelled. Unicode case folding is not modelled.
- Query parameters are modelled as strings. A repeated `tags` parameter arriving as an array is not modelled.
- The salary is an integer. Strings and `NaN` that Mongoose would cast or reject are not modelled.
- `tags` and `skills` take the schema's default of an empty array when absent. The job and user models are not part of this model, so that default and the `createdAt` timestamp are assumed.
- Authentication is not modelled: the OIDC middleware, `protect.js` and the routes. A handler receives the authenticated subject as a parameter. A request without a session (where `req.oidc.user.sub` would throw) is not modelled.
- `connect.js`, the logging calls and concurrent requests are not modelled. Each handler runs on its own, with no interleaving between its reads and its save.
- Ids are compared as strings. A request id is assumed to be in the stored lower-case hex form. The ObjectId cast's equivalences are not modelled: upper-case hex finding the same document, and a 12-character string read as bytes. So, for example, GetJobsByUser answers 404 for an upper-case spelling of a stored user id where the source finds the user; applyJob, likeJob, getJobById and deleteJob differ the same way.
- The ObjectId generator, the clock and the ObjectId validity rule are parameters (`newId`, `now`, `validId`).
- GetJobs, GetJobsByUser: Mongo does not specify the order among jobs created at the same instant. The contracts state only newest-first and the multiset, and the model's insertion sort picks one order for ties.
- Server.EnsureUserInDB: a `User.create` rejected by schema validation is not modelled. Only a taken id stands for a failed insert, which is swallowed.
