# Social-Good-Juba in Dafny

Social-Good-Juba is a job marketplace. Clients post jobs, freelancers apply,
the client selects or approves a freelancer, pays through a payment service
and marks the job complete. Around this job engine sit ratings, user records
and freelancer profiles, chat, reports and notifications. The React client
holds small pieces of state and pure helpers over the server's rows.

This project is a Dafny model of that core. It proves properties of the
model. The Express route handlers become methods of classes that hold the
database tables as sequences of rows. Every early return becomes a typed
error, and each method states the whole new state. The client's state
containers become classes whose methods are the event handlers. The pure
helpers become functions, with lemmas about them.

Modules, one per source file:

- `Common`: string and sequence helpers shared by the routes and pages, written as JavaScript defines them (`trim`, `toLowerCase`, `includes`, `split`/`join`, `|| null`).
- `JobTables`: the `jobs`, `job_applications` and `transactions` rows and the lookups and bulk updates the job routes share.
- `Jobs`: the current job routes (`server/routes/jobs.js`). These are create, apply, approve, reject, select-freelancer, payment, complete, update and delete, plus the client and freelancer statistics.
- `LegacyJobs`: the older job routes (`Social-Good-Juba-main/server/routes/jobs.js`). These are the one-active-job rule, the apply checks, select-freelancer, payment, complete, and the paginated listing.
- `Ratings`: the rating aggregation and the submit, update and delete rules.
- `Users` and `LegacyUsers`: Google sign-in with the username-uniquing loop, becoming a freelancer, and creating an admin.
- `Profiles`: the profile update with its freelancer-field normalisation, and the `documents` map of uploaded files.
- `Chat`: conversation de-duplication, message fetch with read-marking, mark-read and the unread count.
- `Reports`: filing a report, the admin status update, and the job-delete cascade.
- `NotificationService`: the notifications table, mark-read, delete, the user's feed, and the fan-out for new jobs, applications, status changes and completions.
- `NotificationContext`, `NotificationsPage`, `NotificationDropdown`: the client's notification list and unread counter, the relative-time labels, the page's filter and statistics, and the dropdown.
- `JobSearch`, `Learn`, `RatingDisplay`, `ProfileForm`, `ChatContext`, `ChatWindow`, `UserDashboard`, `JobDetails`, `RatingModal`: the client helpers and state of those pages and components.

Time is passed in as an integer, in milliseconds or seconds as each source
file uses it. The results of the database, the payment service and HTTP
requests are parameters. A `.single()` query fails unless exactly one row
matches.

The design of the job engine calls for two invariants: at most one open job
per client, and at most one application per freelancer and job. The current
routes check neither, and `Jobs` follows the code: it does not enforce them.
The older routes check both. `LegacyJobs` keeps the application rule as a
class invariant. It proves that create, payment, complete and a select on a
posted job preserve the one-open-job rule. The older select-freelancer as
written can break that rule (see Findings). Two more places follow the code:
the current select-freelancer accepts a job in any status, and the current
complete route does not require the job to be in progress.

## Model

| member | source | states |
|---|---|---|
| Common.NullIfEmpty | Social-Good-Juba-main/server/routes/ratings.js:115 | `value \|\| null` stores a value exactly when it is present and non-empty, and then stores it unchanged |
| Common.TrimStart | Social-Good-Juba-main/client/src/components/ChatWindow.js:69 | the suffix left after dropping leading white space, which starts with a non-space |
| Common.TrimEnd | Social-Good-Juba-main/client/src/components/ChatWindow.js:69 | the prefix left after dropping trailing white space, which ends with a non-space |
| Common.Trim | Social-Good-Juba-main/client/src/components/ChatWindow.js:69 | `trim()` returns a piece of the input with no white space at either end and only white space before and after it in the input, empty exactly when the input is all white space |
| Common.TrimInfix | Social-Good-Juba-main/client/src/components/ChatWindow.js:72 | the trimmed text occurs in the input where the leading white space ends, with only white space before and after it |
| Common.TrimEmpty | Social-Good-Juba-main/client/src/components/ChatWindow.js:257 | the trimmed text is empty exactly when every character is white space, the send button's disabled test |
| Common.LowerChar | Social-Good-Juba-main/client/src/pages/JobSearch.js:32 | lower-casing leaves no upper-case ASCII letter and changes only upper-case letters |
| Common.Lower | Social-Good-Juba-main/client/src/pages/JobSearch.js:32-37 | `toLowerCase` keeps the length and lower-cases each character |
| Common.UpperChar | Social-Good-Juba-main/client/src/pages/Profile.js:137 | upper-casing leaves no lower-case ASCII letter and changes only lower-case letters |
| Common.Upper | Social-Good-Juba-main/client/src/pages/Profile.js:137 | `toUpperCase` keeps the length and upper-cases each character |
| Common.Includes | Social-Good-Juba-main/client/src/pages/JobSearch.js:32-37 | `includes` holds exactly when the needle occurs at some index of the text |
| Common.Ellipsize | Social-Good-Juba-main/client/src/components/ChatWindow.js:112 | text longer than the limit becomes its first limit characters followed by "...", shorter text is kept |
| Common.FirstIndexOf | Social-Good-Juba-main/server/routes/users.js:512 | the first position holding the separator, or the length when there is none |
| Common.Split | Social-Good-Juba-main/client/src/pages/Profile.js:179 | `split` on one character gives at least one part and no part contains the separator |
| Common.SplitJoin | Social-Good-Juba-main/client/src/pages/Profile.js:179 | joining the parts of a split with the separator gives the text back |
| Common.JoinSplit | Social-Good-Juba-main/client/src/pages/Profile.js:179 | splitting a join of separator-free parts gives the parts back |
| Common.CountIf | Social-Good-Juba-main/client/src/pages/Notifications.js:66 | `filter(p).length` never exceeds the length |
| Common.Filter | Social-Good-Juba-main/client/src/pages/Notifications.js:57-62 | `filter(p)` keeps exactly the elements satisfying p, as many as CountIf counts |
| Common.NatToString | Social-Good-Juba-main/server/routes/users.js:51 | the decimal text of a number is non-empty, all digits, one digit exactly below ten |
| Common.NatToStringInjective | Social-Good-Juba-main/server/routes/users.js:51 | different numbers give different texts, so numbered usernames differ |
| JobTables.StatusName | Social-Good-Juba-main/server/routes/jobs.js:224-225 | each job status has its own stored name, one of the four names of the status check constraint |
| JobTables.HttpStatus | Social-Good-Juba-main/server/routes/jobs.js:406-425 | a missing job or application answers 404, an ownership or profile refusal 403, every other early return 400 |
| JobTables.JobIndex | Social-Good-Juba-main/server/routes/jobs.js:400-403 | the position found holds the id and no earlier row does; no position means no row with the id |
| JobTables.FindJob | Social-Good-Juba-main/server/routes/jobs.js:548-551 | the single-row lookup by id succeeds exactly when some row has that id, and returns that row |
| JobTables.ApplicationIndex | Social-Good-Juba-main/server/routes/jobs.js:416-422 | the position found holds the application id and no earlier row does |
| JobTables.FindPendingApplication | Social-Good-Juba-main/server/routes/jobs.js:416-426 | a found application has the id, belongs to the job and is pending; with unique ids, no result means no such pending row |
| JobTables.ApplicationsBy | Social-Good-Juba-main/server/routes/jobs.js:748-753 | exactly the applications of the job sent by the freelancer |
| JobTables.AcceptedOf | Social-Good-Juba-main/server/routes/jobs.js:910-915 | exactly the accepted applications of the job |
| JobTables.CompletedAt | Social-Good-Juba-main/server/routes/jobs.js:894-903 | a completed job dated now, archived one day (86400000 ms) later, every other column unchanged |
| JobTables.ResolveSelection | Social-Good-Juba-main/server/routes/jobs.js:773-786 | on the job, the freelancer's applications become accepted and every other one rejected; other jobs' rows and every other column unchanged |
| JobTables.ApproveWithin | Social-Good-Juba-main/server/routes/jobs.js:428-444 | the approved row becomes accepted, the job's other pending rows rejected, all other rows unchanged, only statuses written |
| JobTables.RejectOne | Social-Good-Juba-main/server/routes/jobs.js:519-523 | the row with the id becomes rejected and nothing else changes |
| JobTables.SettleTransactions | Social-Good-Juba-main/server/routes/jobs.js:855-863 | every transaction of the job becomes completed with the reference and date; the others are unchanged |
| JobTables.DeleteJob | Social-Good-Juba-main/server/routes/jobs.js:1019-1023 | exactly the rows without the id remain, strictly fewer when the id was present |
| JobTables.ApproveLeavesNonePending | Social-Good-Juba-main/server/routes/jobs.js:428-444 | after approve's two writes no application of the job is pending |
| JobTables.SelectionAcceptsOne | Social-Good-Juba-main/server/routes/jobs.js:773-786 | when the freelancer has one application on the job, exactly one application of the job is accepted afterwards |
| JobTables.SelectionAccepted | Social-Good-Juba-main/server/routes/jobs.js:773-786 | the accepted applications of the job afterwards are exactly the freelancer's, now accepted |
| JobTables.ReplaceKeepsJobIds | Social-Good-Juba-main/server/routes/jobs.js:447-452 | rewriting one job row under its own id keeps job ids unique and below the id counter |
| JobTables.StatusOnlyKeepsIds | Social-Good-Juba-main/server/routes/jobs.js:438-444 | a write that changes only statuses keeps application ids unique and bounded |
| JobTables.AppendKeepsTransactionIds | Social-Good-Juba-main/server/routes/jobs.js:458-469 | inserting a transaction under a fresh id keeps transaction ids unique |
| JobTables.AcceptAll | Social-Good-Juba-main/server/routes/jobs.js:774-778 | every given application becomes accepted, nothing else about it changes |
| Jobs.CheckJobFields | Social-Good-Juba-main/server/routes/jobs.js:575-592 | creation passes exactly when title, description and location are present with lengths 5-100, 10-1000 and at least 5; a missing field is reported first |
| Jobs.AcceptedFreelancer | Social-Good-Juba-main/server/routes/jobs.js:909-915 | the single-row lookup finds a freelancer exactly when one application of the job is accepted, and it is that application's freelancer |
| Jobs.Edited | Social-Good-Juba-main/server/routes/jobs.js:953-964 | absent text fields keep their value, present ones replace it; a falsy budget is stored as null; every other column is untouched |
| Jobs.JobBoard.constructor | Social-Good-Juba-main/server/routes/jobs.js:566-643 | the store starts empty and consistent |
| Jobs.JobBoard.Create | Social-Good-Juba-main/server/routes/jobs.js:566-643 | a field error writes nothing; otherwise one posted job owned by the caller is appended under a fresh id |
| Jobs.JobBoard.Apply | Social-Good-Juba-main/server/routes/jobs.js:646-728 | a job that is missing or not posted writes nothing; otherwise one pending application by the caller with the proposed rate is appended |
| Jobs.JobBoard.Approve | Social-Good-Juba-main/server/routes/jobs.js:394-487 | not owned, not posted or no such pending application: no write; otherwise the application is accepted, the job's other pending ones rejected, the job in progress and one pending transaction for the proposed rate appended |
| Jobs.JobBoard.Reject | Social-Good-Juba-main/server/routes/jobs.js:490-541 | not owned or no such pending application: no write; otherwise only that application becomes rejected |
| Jobs.JobBoard.SelectFreelancer | Social-Good-Juba-main/server/routes/jobs.js:731-811 | not owned or not exactly one application by the freelancer: no write; otherwise the job goes in progress whatever its status, the selection is resolved and a pending transaction appended |
| Jobs.JobBoard.Payment | Social-Good-Juba-main/server/routes/jobs.js:814-874 | not owned, not in progress, no accepted application or a declined payment: no write; a paid outcome settles exactly the job's transactions |
| Jobs.JobBoard.Complete | Social-Good-Juba-main/server/routes/jobs.js:877-929 | an unowned job is refused with no write; an owned job becomes completed whatever its status, and the freelancer to notify is the single accepted one |
| Jobs.JobBoard.Update | Social-Good-Juba-main/server/routes/jobs.js:933-977 | a missing job answers not found, another owner's job forbidden, both with no write; the owner's job is replaced by its edit |
| Jobs.JobBoard.Delete | Social-Good-Juba-main/server/routes/jobs.js:980-1036 | missing, foreign or completed jobs are refused with no write; otherwise exactly that job row is removed |
| Jobs.DeleteKeepsUnique | Social-Good-Juba-main/server/routes/jobs.js:1019-1023 | deleting a job keeps job ids unique |
| Jobs.ClientJobs | Social-Good-Juba-main/server/routes/jobs.js:212-215 | exactly the caller's jobs |
| Jobs.ApplicationsTo | Social-Good-Juba-main/server/routes/jobs.js:231-236 | exactly the applications whose job is one of the caller's |
| Jobs.ClientStatsOf | Social-Good-Juba-main/server/routes/jobs.js:208-243 | GET /client-stats: at most as many jobs as the table holds; active plus completed within the total; applications bounded by the table and 0 for a client without jobs |
| Jobs.ClientStatsPartition | Social-Good-Juba-main/server/routes/jobs.js:222-227 | active, completed and cancelled counts add up to the total, so active plus completed never exceeds it |
| Jobs.StatusPartition | Social-Good-Juba-main/server/routes/jobs.js:224-225 | every job is counted in exactly one of active, completed and cancelled |
| Jobs.ClientApplicationsBound | Social-Good-Juba-main/server/routes/jobs.js:230-240 | the client's application total never exceeds the applications table |
| Jobs.ApplicationsToBound | Social-Good-Juba-main/server/routes/jobs.js:232-236 | the `in` filter never yields more rows than the table |
| Jobs.ApplicationsFrom | Social-Good-Juba-main/server/routes/jobs.js:314-317 | exactly the freelancer's applications |
| Jobs.AcceptedOnly | Social-Good-Juba-main/server/routes/jobs.js:335 | exactly the accepted applications |
| Jobs.FreelancerStatsOf | Social-Good-Juba-main/server/routes/jobs.js:309-359 | GET /freelancer-stats: jobs completed never exceed applications sent, which never exceed the table; the rating is 0 without reviews and between 1.0 and 5.0 with valid ones |
| Jobs.ApproveCreditsFreelancer | Social-Good-Juba-main/server/routes/jobs.js:331-351 | approving a pending application gives its freelancer one more completed job and exactly its proposed rate more earnings, with applications sent unchanged |
| Jobs.ApproveCredits | Social-Good-Juba-main/server/routes/jobs.js:333-341 | the same credit stated on the freelancer's accepted applications and their rate sum |
| Jobs.ApproveOthersKeepsAccepted | Social-Good-Juba-main/server/routes/jobs.js:438-444 | rows other than the approved one keep their acceptance, so the freelancer's accepted rows do not change |
| Jobs.CompletedWithinSent | Social-Good-Juba-main/server/routes/jobs.js:346-351 | completed jobs never exceed applications sent, and the average rating is at most 5.0 |
| LegacyJobs.InsertByAge | Social-Good-Juba-main/Social-Good-Juba-main/server/routes/jobs.js:19 | placing a job keeps the sequence newest first and adds exactly that job |
| LegacyJobs.SortNewestFirst | Social-Good-Juba-main/Social-Good-Juba-main/server/routes/jobs.js:16-19 | the query's rows are a newest-first permutation of the table |
| LegacyJobs.Matching | Social-Good-Juba-main/Social-Good-Juba-main/server/routes/jobs.js:21-27 | exactly the jobs passing the status and title filters, in their original order |
| LegacyJobs.Window | Social-Good-Juba-main/Social-Good-Juba-main/server/routes/jobs.js:29 | `range(from, to)` returns the existing rows from position from to to inclusive, at most to - from + 1 of them, in order |
| LegacyJobs.Digits | Social-Good-Juba-main/Social-Good-Juba-main/server/routes/jobs.js:29 | the number of decimal digits is the least power of ten above the number |
| LegacyJobs.DecimalConcat | Social-Good-Juba-main/Social-Good-Juba-main/server/routes/jobs.js:29 | adding a query-string limit to a number writes its digits after the number's, so the result is at least ten times the offset plus the limit |
| LegacyJobs.ListedRows | Social-Good-Juba-main/Social-Good-Juba-main/server/routes/jobs.js:15-27 | the rows the listing pages through are exactly the matching jobs, newest first |
| LegacyJobs.Page | Social-Good-Juba-main/Social-Good-Juba-main/server/routes/jobs.js:13-29 | a page holds at most limit rows (10 by default), in order, all drawn from the listed rows |
| LegacyJobs.PageAsWritten | Social-Good-Juba-main/Social-Good-Juba-main/server/routes/jobs.js:13-29 | as written, the page starts at the right offset and is a run of the listed rows from there, in order, but its length comes from the concatenated `offset + limit`; past the end it is empty |
| LegacyJobs.List | Social-Good-Juba-main/Social-Good-Juba-main/server/routes/jobs.js:11-49 | the intended listing: at most limit matching jobs, newest first |
| LegacyJobs.ListAsWritten | Social-Good-Juba-main/Social-Good-Juba-main/server/routes/jobs.js:11-49 | GET / as written: matching jobs only, newest first (its length is the defect of ListAsWrittenOverfetches) |
| LegacyJobs.ListIsPageBlock | Social-Good-Juba-main/Social-Good-Juba-main/server/routes/jobs.js:13-29 | page p is exactly the p-th block of limit rows, so pages neither overlap nor skip rows |
| LegacyJobs.ListAsWrittenAgrees | Social-Good-Juba-main/Social-Good-Juba-main/server/routes/jobs.js:13-29 | on page 1 or with the default limit the code as written returns the intended page |
| LegacyJobs.ListAsWrittenOverfetches | Social-Good-Juba-main/Social-Good-Juba-main/server/routes/jobs.js:14-29 | with limit=5 from the query, page 2 as written returns 50 rows where the intended page has 5 |
| LegacyJobs.AtMostOneApplicationBy | Social-Good-Juba-main/Social-Good-Juba-main/server/routes/jobs.js:163-173 | with the duplicate check in force, a freelancer has at most one application per job |
| LegacyJobs.NoApplicationBy | Social-Good-Juba-main/Social-Good-Juba-main/server/routes/jobs.js:163-173 | a freelancer without an application to the job is found to have none |
| LegacyJobs.ApprovedProfiles | Social-Good-Juba-main/Social-Good-Juba-main/server/routes/jobs.js:139-149 | exactly the caller's profiles whose approval status is approved |
| LegacyJobs.SelectReopensCompletedJob | Social-Good-Juba-main/Social-Good-Juba-main/server/routes/jobs.js:221-301 | a concrete store where select-freelancer restarts a completed job and leaves its client with two active jobs |
| LegacyJobs.ReplaceKeepsOneActive | Social-Good-Juba-main/Social-Good-Juba-main/server/routes/jobs.js:78-91 | rewriting a job of the same client that does not become newly active keeps one active job per client |
| LegacyJobs.StatusOnlyKeepsKeys | Social-Good-Juba-main/Social-Good-Juba-main/server/routes/jobs.js:263-275 | rewriting only statuses keeps application ids unique and one application per job and freelancer |
| LegacyJobs.SelectKeepsConsistent | Social-Good-Juba-main/Social-Good-Juba-main/server/routes/jobs.js:249-290 | select-freelancer's three writes keep every table's ids unique and bounded and applications non-duplicated |
| LegacyJobs.LegacyJobBoard.constructor | Social-Good-Juba-main/Social-Good-Juba-main/server/routes/jobs.js:74-126 | the store starts empty and consistent over the given profiles |
| LegacyJobs.LegacyJobBoard.Create | Social-Good-Juba-main/Social-Good-Juba-main/server/routes/jobs.js:74-126 | a client with an active job is refused with no write; otherwise one posted job is appended; one active job per client is preserved |
| LegacyJobs.LegacyJobBoard.Apply | Social-Good-Juba-main/Social-Good-Juba-main/server/routes/jobs.js:129-218 | refused in order for a non-freelancer, no single approved profile, a job not posted, an existing application; otherwise one pending application is appended |
| LegacyJobs.LegacyJobBoard.SelectFreelancer | Social-Good-Juba-main/Social-Good-Juba-main/server/routes/jobs.js:221-301 | as written: not owned or not exactly one application: no write; otherwise the job starts whatever its status and the selection is resolved |
| LegacyJobs.LegacyJobBoard.SelectFreelancerWhenPosted | Social-Good-Juba-main/Social-Good-Juba-main/server/routes/jobs.js:221-301 | with a posted check added, a job that is not posted is refused, and one active job per client is preserved |
| LegacyJobs.LegacyJobBoard.Select | Social-Good-Juba-main/Social-Good-Juba-main/server/routes/jobs.js:237-297 | once ownership is known: not exactly one application means no write; otherwise the job is in progress, the selection resolved and a pending transaction appended |
| LegacyJobs.LegacyJobBoard.Payment | Social-Good-Juba-main/Social-Good-Juba-main/server/routes/jobs.js:304-364 | not owned, not in progress, no accepted application or declined: no write; paid settles the job's transactions; the one-active rule is kept |
| LegacyJobs.LegacyJobBoard.Complete | Social-Good-Juba-main/Social-Good-Juba-main/server/routes/jobs.js:367-404 | an unowned job is refused; an owned job becomes completed, which keeps the one-active rule |
| Ratings.AverageTenths | Social-Good-Juba-main/server/routes/ratings.js:31-41 | no reviews gives 0; otherwise the average in tenths of a star, rounded half up |
| Ratings.SumBounds | Social-Good-Juba-main/server/routes/ratings.js:31 | the total of whole-star ratings lies between one and five times their number |
| Ratings.AverageTenthsRange | Social-Good-Juba-main/server/routes/ratings.js:27-41 | the average of whole-star ratings lies between 1.0 and 5.0 stars, and is 0 with no reviews |
| Ratings.AverageOfEqualRatings | Social-Good-Juba-main/server/routes/ratings.js:31-41 | when every review gives the same number of stars, that number is the average exactly |
| Ratings.NearestMultiple | Social-Good-Juba-main/server/routes/ratings.js:41 | rounding to the nearest tenth picks the only whole number within half a step |
| Ratings.SumOfEqual | Social-Good-Juba-main/server/routes/ratings.js:31 | equal ratings total their number times the rating |
| Ratings.CountStars | Social-Good-Juba-main/server/routes/ratings.js:35-39 | the distribution has exactly the keys 1 to 5 and each holds the number of reviews giving that many stars |
| Ratings.StarCountsTotal | Social-Good-Juba-main/server/routes/ratings.js:35-39 | the five counts add up to the number of reviews |
| Ratings.StarCountsStep | Social-Good-Juba-main/server/routes/ratings.js:36-38 | one more review adds one to exactly one of the five counts |
| Ratings.Summarize | Social-Good-Juba-main/server/routes/ratings.js:13-49 | no reviews gives the zero summary; otherwise the review count, the rounded average (between 1.0 and 5.0) and, for each of the five stars, the number of reviews giving it, which add up to the review count |
| Ratings.ReviewsWithKey | Social-Good-Juba-main/server/routes/ratings.js:95-101 | exactly the reviews with the (job, reviewer, reviewed) key |
| Ratings.KeyedAtMostOne | Social-Good-Juba-main/server/routes/ratings.js:95-105 | without duplicates a key matches at most one review |
| Ratings.SubmitCheck | Social-Good-Juba-main/server/routes/ratings.js:57-105 | a submission passes only with a rating 1-5, a completed job, one accepted application, a caller who is client or freelancer, and no review under the key; the rating error comes exactly for a bad rating, before all others |
| Ratings.NoneKeyed | Social-Good-Juba-main/server/routes/ratings.js:95-101 | a key no review has matches nothing |
| Ratings.NotKeyed | Social-Good-Juba-main/server/routes/ratings.js:95-105 | without duplicates, a key that does not match exactly one review matches none, so a passing submission adds no duplicate |
| Ratings.ReviewIndex | Social-Good-Juba-main/server/routes/ratings.js:227-231 | the position found holds the review id and no earlier one does |
| Ratings.RemoveReview | Social-Good-Juba-main/server/routes/ratings.js:291-294 | exactly the reviews without the id remain |
| Ratings.ReviewBook.constructor | Social-Good-Juba-main/server/routes/ratings.js:52-134 | the table starts empty and valid |
| Ratings.ReviewBook.Submit | Social-Good-Juba-main/server/routes/ratings.js:52-134 | a failed check writes nothing; a passing one appends one review under a fresh id, keeping one review per key |
| Ratings.ReviewBook.Update | Social-Good-Juba-main/server/routes/ratings.js:215-267 | refused for a bad rating, a missing review or another reviewer, with no write; otherwise only rating, comment and update time change |
| Ratings.ReviewBook.Delete | Social-Good-Juba-main/server/routes/ratings.js:270-307 | refused for a missing review or another reviewer; otherwise exactly that review is removed |
| Ratings.RemoveKeepsValid | Social-Good-Juba-main/server/routes/ratings.js:291-294 | deleting a review keeps ids unique and one review per key |
| Ratings.RemoveKeepsApart | Social-Good-Juba-main/server/routes/ratings.js:291-294 | deleting a review keeps every pair of remaining reviews distinct in id and key |
| Users.UserHttpStatus | Social-Good-Juba-main/server/routes/users.js:16-17 | a failed token check answers 401 and every other early return 400 |
| Users.Candidate | Social-Good-Juba-main/server/routes/users.js:33-52 | the first name tried is the base, later ones extend it with a counter |
| Users.CandidatesDistinct | Social-Good-Juba-main/server/routes/users.js:49-52 | two tries give the same name exactly when they are the same try |
| Users.Holders | Social-Good-Juba-main/server/routes/users.js:38-42 | the number of users holding a name, positive only when some user holds it |
| Users.FirstFreeUnique | Social-Good-Juba-main/server/routes/users.js:37-56 | the first free candidate is determined by the table |
| Users.TriedSize | Social-Good-Juba-main/server/routes/users.js:37-56 | the loop's n tries are n different names |
| Users.NotYetTried | Social-Good-Juba-main/server/routes/users.js:49-52 | a later candidate was not tried before |
| Users.PickUsername | Social-Good-Juba-main/server/routes/users.js:33-57 | the loop ends, having tried base, base 1, ... in order, on the first name that is not held by exactly one user |
| Users.FirstFreeAt | Social-Good-Juba-main/server/routes/users.js:44-48 | the loop stops at the first candidate the single-row lookup does not find |
| Users.TakenStep | Social-Good-Juba-main/server/routes/users.js:49-53 | every taken name tried is a held name, so the counter stays below the number of held names and the loop terminates |
| Users.Others | Social-Good-Juba-main/server/routes/users.js:113 | exactly the users other than the caller |
| Users.RenameAsWritten | Social-Good-Juba-main/server/routes/users.js:102-131 | as written, the rename loop keeps the first name tried, even when another user holds it |
| Users.Rename | Social-Good-Juba-main/server/routes/users.js:102-131 | as intended, the new username is the first candidate that no other user holds |
| Users.LocalPart | Social-Good-Juba-main/server/routes/users.js:102 | the email's text before the first '@', the first part of its split |
| Users.SignInUpdates | Social-Good-Juba-main/server/routes/users.js:98-139 | the update carries the new username if any, and the phone and address exactly when they were given non-empty |
| Users.Updated | Social-Good-Juba-main/server/routes/users.js:142-152 | the keys present overwrite, the rest of the row is untouched; nothing to update leaves the row as it was |
| Users.GoogleIndex | Social-Good-Juba-main/server/routes/users.js:22-27 | the position found holds the Google id and no earlier row does |
| Users.ReplaceKeepsConsistent | Social-Good-Juba-main/server/routes/users.js:142-148 | rewriting a user without touching id, Google id or email keeps the unique columns unique |
| Users.AppendKeepsConsistent | Social-Good-Juba-main/server/routes/users.js:59-74 | inserting a user with fresh id, Google id and email keeps the unique columns unique |
| Users.UserDirectory.constructor | Social-Good-Juba-main/server/routes/users.js:10-175 | the table starts empty and consistent |
| Users.UserDirectory.GoogleSignIn | Social-Good-Juba-main/server/routes/users.js:10-175 | a new Google id with a used email is refused; a new one becomes a client named by the loop, admin by the domain test; a known one is updated by SignInExisting, so an email-based username becomes the token's name as it stands |
| Users.UserDirectory.SignInExisting | Social-Good-Juba-main/server/routes/users.js:96-155 | as written, a returning user's email-based username is replaced by the token's name, whether or not another user holds it, and the given phone and address are written; nothing else changes |
| Users.UserDirectory.SignInExistingIntended | Social-Good-Juba-main/server/routes/users.js:96-155 | as intended, the email-based username is replaced by the first candidate no other user holds; contact details and the other columns as in SignInExisting |
| Users.UserDirectory.WriteSignInUpdates | Social-Good-Juba-main/server/routes/users.js:128-153 | the row becomes the user with the keys that were set overwritten; an empty update writes nothing |
| Users.SignInAsWrittenSharesName | Social-Good-Juba-main/server/routes/users.js:108-128 | with "Ann" held by one user, an email-named user signing in as "Ann" leaves two holders of "Ann" |
| Users.UserDirectory.CreateAdmin | Social-Good-Juba-main/server/routes/users.js:492-590 | missing fields or a used email are refused with no write; otherwise one admin named Admin local, Admin local 1, ... is appended |
| Users.PickedNameIsFresh | Social-Good-Juba-main/server/routes/users.js:33-57 | with unique usernames, the name picked is held by nobody |
| Users.HoldersUnique | Social-Good-Juba-main/server/routes/users.js:38-46 | with unique usernames, a held name has exactly one holder, so the lookup finds it |
| Users.NotHeld | Social-Good-Juba-main/server/routes/users.js:44-48 | a name no user holds has no holder |
| Profiles.ProfileHttpStatus | Social-Good-Juba-main/server/routes/profile.js:195-200 | a missing document answers 404, a file multer rejects 500, every other early return 400 |
| Profiles.LastIndexOf | Social-Good-Juba-main/server/routes/profile.js:204 | the last position holding the character, or -1 |
| Profiles.ExtName | Social-Good-Juba-main/server/routes/profile.js:204 | `extname`: empty, or a dot-led suffix of the name with no other dot, shorter than the name; no dot gives none |
| Profiles.DocumentPath | Social-Good-Juba-main/server/routes/profile.js:204-206 | the storage key is the user id, a slash, the document type and the original extension |
| Profiles.Submitted | Social-Good-Juba-main/server/routes/profile.js:101-116 | exactly the given keys that the body defines, with the body's values |
| Profiles.ParseNumber | Social-Good-Juba-main/server/routes/profile.js:137-139 | a number is kept, anything else becomes a number or null |
| Profiles.OrNull | Social-Good-Juba-main/server/routes/profile.js:136 | `v \|\| null`: truthy values are kept, falsy ones become null |
| Profiles.NumberOrNull | Social-Good-Juba-main/server/routes/profile.js:137-139 | falsy values become null, truthy ones are parsed |
| Profiles.ListOrEmpty | Social-Good-Juba-main/server/routes/profile.js:140-141 | arrays are kept, anything else becomes [] |
| Profiles.OrFalse | Social-Good-Juba-main/server/routes/profile.js:142-143 | `v \|\| false`: truthy values are kept, falsy ones become false |
| Profiles.Normalise | Social-Good-Juba-main/server/routes/profile.js:136-143 | numbers are parsed or null, lists kept or [], flags kept or false, the bio kept or null |
| Profiles.FreelancerData | Social-Good-Juba-main/server/routes/profile.js:134-145 | the object has exactly the eight profile columns, each normalised from the body |
| Profiles.FreelancerDataShapes | Social-Good-Juba-main/server/routes/profile.js:134-145 | every written column has its column's shape whatever the body holds |
| Profiles.EmptyBodyDefaults | Social-Good-Juba-main/server/routes/profile.js:134-145 | an empty body writes nulls, empty lists and false flags |
| Profiles.UserIndex | Social-Good-Juba-main/server/routes/profile.js:100-116 | the position found holds the user id and no earlier row does |
| Profiles.UpdatedPersonal | Social-Good-Juba-main/server/routes/profile.js:100-116 | the submitted user columns overwrite, undefined ones stay, nothing else changes |
| Profiles.ProfileBook.constructor | Social-Good-Juba-main/server/routes/profile.js:189-279 | no profiles and an empty bucket to start |
| Profiles.ProfileBook.BecomeFreelancer | Social-Good-Juba-main/server/routes/users.js:224-275 | a caller with a profile is refused; otherwise an approved profile with the submitted fields |
| Profiles.ProfileBook.UpdateProfile | Social-Good-Juba-main/server/routes/profile.js:73-186 | an unknown user is refused; otherwise the user's columns are written and a freelancer's profile gets the normalised fields |
| Profiles.ProfileBook.WriteFreelancerFields | Social-Good-Juba-main/server/routes/profile.js:126-173 | an existing profile takes the normalised fields and keeps documents and approval; without one a pending profile is opened |
| Profiles.ProfileBook.CurrentDocuments | Social-Good-Juba-main/server/routes/profile.js:236-246 | the profile's documents map, or the empty map |
| Profiles.ProfileBook.UploadDocument | Social-Good-Juba-main/server/routes/profile.js:189-279 | refused for a rejected file, no file or a bad type; otherwise stored at user/type+ext and recorded under its type, other entries kept |
| Profiles.ProfileBook.DeleteDocument | Social-Good-Juba-main/server/routes/profile.js:282-333 | a bad type is refused, a missing document is 404; otherwise the four possible files are removed and exactly that key leaves the map |
| Profiles.UploadThenDelete | Social-Good-Juba-main/server/routes/profile.js:282-333 | uploading then deleting a new document type gives back the map as it was |
| LegacyUsers.ProfileCount | Social-Good-Juba-main/Social-Good-Juba-main/server/routes/users.js:170-173 | the number of the user's profiles, at most the table's size |
| LegacyUsers.AtMostOneCount | Social-Good-Juba-main/Social-Good-Juba-main/server/routes/users.js:170-176 | with one profile per user, the single-row lookup finds one exactly when the user has a profile |
| LegacyUsers.NoProfiles | Social-Good-Juba-main/Social-Good-Juba-main/server/routes/users.js:170-176 | a user with no profile row has count 0 |
| LegacyUsers.LegacyAccounts.constructor | Social-Good-Juba-main/Social-Good-Juba-main/server/routes/users.js:10-107 | the tables start empty |
| LegacyUsers.LegacyAccounts.GoogleSignIn | Social-Good-Juba-main/Social-Good-Juba-main/server/routes/users.js:10-107 | a new Google id with a used email is refused; a new one becomes a client with no username; a known one gets the given phone and address |
| LegacyUsers.LegacyAccounts.BecomeFreelancer | Social-Good-Juba-main/Social-Good-Juba-main/server/routes/users.js:156-228 | refused when the lookup finds a profile; otherwise a pending profile with the submitted fields, keeping one profile per user |
| Chat.TripleIndex | Social-Good-Juba-main/server/routes/chat.js:132-139 | the position found holds a conversation for the (client, freelancer, job) triple; none exists exactly when the position is the end |
| Chat.ConversationMessages | Social-Good-Juba-main/server/routes/chat.js:90-94 | exactly the conversation's messages, oldest first when the table is |
| Chat.UnreadIds | Social-Good-Juba-main/server/routes/chat.js:102-107 | exactly the ids of the conversation's unread messages sent by someone else |
| Chat.MarkIds | Social-Good-Juba-main/server/routes/chat.js:108-111 | the messages with the listed ids become read, nothing else changes |
| Chat.MarkConversation | Social-Good-Juba-main/server/routes/chat.js:245-249 | every message of the conversation not sent by the reader becomes read, nothing else changes |
| Chat.FetchMarksLikeMarkRead | Social-Good-Juba-main/server/routes/chat.js:102-111 | with unique ids, listing a conversation marks read exactly what the mark-read route marks |
| Chat.ConversationsOf | Social-Good-Juba-main/server/routes/chat.js:268-278 | exactly the ids of the conversations the user takes part in |
| Chat.CountUnread | Social-Good-Juba-main/server/routes/chat.js:280-286 | the unread count over given conversations never exceeds the messages |
| Chat.UnreadCount | Social-Good-Juba-main/server/routes/chat.js:264-298 | no conversations gives 0; the count never exceeds the messages |
| Chat.MarkingNeverRaises | Social-Good-Juba-main/server/routes/chat.js:245-249 | marking read never raises anybody's unread count |
| Chat.MarkReadClears | Social-Good-Juba-main/server/routes/chat.js:245-249 | after mark-read the reader has nothing unread in that conversation |
| Chat.ChatStore.constructor | Social-Good-Juba-main/server/routes/chat.js:122-166 | no conversations and no messages to start |
| Chat.ChatStore.Open | Social-Good-Juba-main/server/routes/chat.js:122-166 | a caller who is neither party is refused; an existing conversation for the triple is returned without a write; otherwise one is appended |
| Chat.ChatStore.Fetch | Social-Good-Juba-main/server/routes/chat.js:72-119 | non-participants are refused; participants get the conversation's messages oldest first as they were, and the other side's unread ones become read |
| Chat.ChatStore.MarkRead | Social-Good-Juba-main/server/routes/chat.js:227-261 | non-participants are refused; otherwise the conversation's messages from others become read |
| Chat.ChatStore.Send | Social-Good-Juba-main/server/routes/chat.js:169-224 | non-participants are refused; otherwise one unread message from the caller is appended |
| Reports.ParseStatus | Social-Good-Juba-main/server/routes/reports.js:90-92 | exactly pending, resolved and dismissed are accepted, each as its own status |
| Reports.Moderated | Social-Good-Juba-main/server/routes/reports.js:94-101 | the report records the status and the admin, a resolution time exactly when resolved, notes exactly when given non-empty; nothing else changes |
| Reports.ReportIndex | Social-Good-Juba-main/server/routes/reports.js:94-104 | the position found holds the report id; the end means no report has it |
| Reports.CascadeKeepsReferences | Social-Good-Juba-main/server/routes/reports.js:164-188 | deleting a job's applications and reviews before the job leaves no row pointing to a missing job |
| Reports.ReportDesk.constructor | Social-Good-Juba-main/server/routes/reports.js:8-42 | no reports to start, over the given tables |
| Reports.ReportDesk.File | Social-Good-Juba-main/server/routes/reports.js:8-42 | a missing reported user, type or description is refused; otherwise one pending report with absent job and chat ids as null |
| Reports.ReportDesk.SetStatus | Social-Good-Juba-main/server/routes/reports.js:85-116 | an unknown status or report is refused with no write; otherwise only that report is moderated |
| Reports.ReportDesk.DeleteJobCascade | Social-Good-Juba-main/server/routes/reports.js:164-188 | the job's applications, its reviews and the job are deleted, other rows kept, and no dangling rows appear |
| NotificationService.Stamped | Social-Good-Juba-main/server/services/notificationService.js:14-26 | each draft becomes an unread row with a fresh id, in order, created now |
| NotificationService.RowsOf | Social-Good-Juba-main/server/services/notificationService.js:54-56 | exactly the user's rows, in order |
| NotificationService.Reverse | Social-Good-Juba-main/server/services/notificationService.js:57 | the same rows in the opposite order |
| NotificationService.Feed | Social-Good-Juba-main/server/services/notificationService.js:53-57 | exactly the user's notifications, newest first |
| NotificationService.Window | Social-Good-Juba-main/server/services/notificationService.js:58 | the slice from offset to offset + limit, both cut at the end: at most limit rows, none past the end |
| NotificationService.UnreadOf | Social-Good-Juba-main/server/services/notificationService.js:74-86 | the unread count never exceeds the rows |
| NotificationService.MarkSelected | Social-Good-Juba-main/server/services/notificationService.js:94-107 | the user's unread rows, among the ids when a non-empty list is given, become read at now; every other row is unchanged |
| NotificationService.MarkAllClears | Social-Good-Juba-main/server/services/notificationService.js:94-107 | marking all leaves the user nothing unread |
| NotificationService.MarkKeepsOthers | Social-Good-Juba-main/server/services/notificationService.js:94-107 | marking read never changes another user's unread count |
| NotificationService.DeleteOwned | Social-Good-Juba-main/server/services/notificationService.js:124-130 | a row is removed exactly when both its id and its owner match |
| NotificationService.DeleteOthersNoop | Social-Good-Juba-main/server/services/notificationService.js:124-130 | deleting someone else's notification id changes nothing |
| NotificationService.DataOrEmpty | Social-Good-Juba-main/server/services/notificationService.js:23 | missing data becomes {} |
| NotificationService.ApprovedFreelancers | Social-Good-Juba-main/server/services/notificationService.js:147-151 | exactly the users with an approved profile |
| NotificationService.JobPostedDrafts | Social-Good-Juba-main/server/services/notificationService.js:159-170 | one job-posted notification per approved freelancer, addressed to them |
| NotificationService.NoApprovedNoDrafts | Social-Good-Juba-main/server/services/notificationService.js:172-176 | with no approved freelancer nothing is inserted |
| NotificationService.ApplicationDraft | Social-Good-Juba-main/server/services/notificationService.js:192-208 | the application notification goes to the job's client |
| NotificationService.StatusDraft | Social-Good-Juba-main/server/services/notificationService.js:226-254 | accepted and rejected each give their own notification to the freelancer; any other status gives none |
| NotificationService.CompletionDrafts | Social-Good-Juba-main/server/services/notificationService.js:272-302 | the freelancer's notice first when an id is given, then always the client's, all completion notifications |
| NotificationService.FreelancerCompletionDraft | Social-Good-Juba-main/server/services/notificationService.js:277-287 | a completion notification addressed to the freelancer |
| NotificationService.ClientCompletionDraft | Social-Good-Juba-main/server/services/notificationService.js:291-301 | a completion notification addressed to the client, whose freelancer_id is the given id or null |
| NotificationService.NotificationStore.constructor | Social-Good-Juba-main/server/services/notificationService.js:14-49 | no rows to start |
| NotificationService.NotificationStore.Insert | Social-Good-Juba-main/server/services/notificationService.js:304-308 | the drafts are appended as stamped rows under fresh ids |
| NotificationService.NotificationStore.Create | Social-Good-Juba-main/server/services/notificationService.js:14-49 | one unread row with the given fields and {} for missing data is appended |
| NotificationService.NotificationStore.UserNotifications | Social-Good-Juba-main/server/services/notificationService.js:51-71 | the window from offset of the user's feed, newest first: at most limit of the user's own notifications |
| NotificationService.NotificationStore.UnreadCount | Social-Good-Juba-main/server/services/notificationService.js:73-92 | the number of the user's unread rows |
| NotificationService.NotificationStore.MarkAsRead | Social-Good-Juba-main/server/services/notificationService.js:94-122 | the selected rows become read; with no ids the user has nothing unread; other users' counts are unchanged |
| NotificationService.NotificationStore.Delete | Social-Good-Juba-main/server/services/notificationService.js:124-143 | removes the row only when both id and owner match |
| NotificationService.NotificationStore.NotifyNewJob | Social-Good-Juba-main/server/services/notificationService.js:145-190 | one row per approved freelancer is appended |
| NotificationService.NotificationStore.NotifyJobApplication | Social-Good-Juba-main/server/services/notificationService.js:192-224 | one row for the job's client is appended |
| NotificationService.NotificationStore.NotifyApplicationStatus | Social-Good-Juba-main/server/services/notificationService.js:226-270 | a row for accepted or rejected, nothing for any other status |
| NotificationService.NotificationStore.NotifyJobCompletion | Social-Good-Juba-main/server/services/notificationService.js:272-323 | exactly the completion drafts (freelancer's first when given, then the client's) appended with fresh ids and the time, earlier rows kept |
| NotificationService.DeleteKeepsValid | Social-Good-Juba-main/server/services/notificationService.js:124-130 | deleting keeps ids unique, bounded and in creation order |
| NotificationService.DeleteKeepsUnique | Social-Good-Juba-main/server/services/notificationService.js:124-130 | deleting keeps ids unique |
| NotificationService.DeleteKeepsOrder | Social-Good-Juba-main/server/services/notificationService.js:124-130 | deleting keeps the rows oldest first |
| NotificationContext.UnreadIn | Social-Good-Juba-main/client/src/context/NotificationContext.js:19 | the unread notifications in the list never exceed the list |
| NotificationContext.MarkListed | Social-Good-Juba-main/client/src/context/NotificationContext.js:105-111 | the listed notifications become read at now, the others are unchanged |
| NotificationContext.MarkEvery | Social-Good-Juba-main/client/src/context/NotificationContext.js:115-121 | every notification becomes read at now |
| NotificationContext.Without | Social-Good-Juba-main/client/src/context/NotificationContext.js:148 | exactly the notifications without the id remain |
| NotificationContext.FindById | Social-Good-Juba-main/client/src/context/NotificationContext.js:151 | a found notification has the id; none is found exactly when no notification has it |
| NotificationContext.UnreadListed | Social-Good-Juba-main/client/src/context/NotificationContext.js:105-112 | the listed notifications still unread are among the unread ones |
| NotificationContext.CountAfterMarkingAsWritten | Social-Good-Juba-main/client/src/context/NotificationContext.js:112 | as written, the counter drops by the number of ids, not below 0 |
| NotificationContext.CountAfterMarking | Social-Good-Juba-main/client/src/context/NotificationContext.js:112 | as intended, the counter drops by the notifications that turned read, and never rises |
| NotificationContext.MarkListedUnread | Social-Good-Juba-main/client/src/context/NotificationContext.js:105-111 | marking listed ids lowers the list's unread count by exactly the listed unread notifications |
| NotificationContext.MarkEveryUnread | Social-Good-Juba-main/client/src/context/NotificationContext.js:115-122 | marking every notification leaves none unread |
| NotificationContext.MarkingKeepsSynced | Social-Good-Juba-main/client/src/context/NotificationContext.js:99-127 | with the corrected count, a counter in step with the list stays in step after marking |
| NotificationContext.MarkingAsWrittenDrifts | Social-Good-Juba-main/client/src/context/NotificationContext.js:105-112 | a list with one unread and one read notification: marking the read one as written leaves an unread notification with the counter at 0 |
| NotificationContext.WithoutUnread | Social-Good-Juba-main/client/src/context/NotificationContext.js:145-155 | deleting a notification lowers the unread count by one exactly when it was unread |
| NotificationContext.WithoutAbsent | Social-Good-Juba-main/client/src/context/NotificationContext.js:148 | deleting an id not in the list changes nothing |
| NotificationContext.NotificationState.constructor | Social-Good-Juba-main/client/src/context/NotificationContext.js:18-19 | an empty list and a zero counter, in step |
| NotificationContext.NotificationState.Receive | Social-Good-Juba-main/client/src/context/NotificationContext.js:35-37 | the socket's notification is prepended and the counter goes up by one, staying in step for an unread one |
| NotificationContext.NotificationState.Add | Social-Good-Juba-main/client/src/context/NotificationContext.js:170-175 | prepended; the counter goes up exactly for an unread one, staying in step |
| NotificationContext.NotificationState.MarkAsRead | Social-Good-Juba-main/client/src/context/NotificationContext.js:99-127 | with ids, they become read and the counter drops by the number of ids; without, everything is read and the counter is 0 |
| NotificationContext.NotificationState.MarkListedAsRead | Social-Good-Juba-main/client/src/context/NotificationContext.js:99-127 | the corrected mark: the counter drops by what turned read and stays in step |
| NotificationContext.NotificationState.MarkAllAsRead | Social-Good-Juba-main/client/src/context/NotificationContext.js:129-143 | everything read and the counter 0, in step |
| NotificationContext.NotificationState.Delete | Social-Good-Juba-main/client/src/context/NotificationContext.js:145-158 | only that id leaves the list and the counter drops exactly when it was unread, staying in step |
| NotificationContext.NotificationState.ClearAll | Social-Good-Juba-main/client/src/context/NotificationContext.js:160-168 | an empty list and a zero counter |
| NotificationDropdown.Visible | Social-Good-Juba-main/client/src/components/NotificationDropdown.js:81 | the first ten notifications, or all when fewer |
| NotificationDropdown.ShowsFooter | Social-Good-Juba-main/client/src/components/NotificationDropdown.js:91 | the footer shows exactly when some notifications are not listed |
| NotificationDropdown.MarkAllShownExactlyWhenUnread | Social-Good-Juba-main/client/src/components/NotificationDropdown.js:61 | with the counter in step with the list, "Mark all read" (ShowsMarkAll, `unreadCount > 0`) appears exactly when some listed notification is unread |
| NotificationDropdown.BodyOf | Social-Good-Juba-main/client/src/components/NotificationDropdown.js:72-88 | loading text while loading, the empty state exactly for an empty list, otherwise one to ten items |
| NotificationsPage.Ago | Social-Good-Juba-main/client/src/pages/Notifications.js:31-38 | the count followed by the unit, plural exactly above one, never "Just now" |
| NotificationsPage.TimeAgo | Social-Good-Juba-main/client/src/pages/Notifications.js:24-40 | "Just now" exactly under a minute, then whole minutes, hours or days |
| NotificationsPage.SingularAtOne | Social-Good-Juba-main/client/src/pages/Notifications.js:30-38 | exactly one minute, hour or day is written in the singular |
| NotificationsPage.PluralFromTwo | Social-Good-Juba-main/client/src/pages/Notifications.js:30-32 | 119 seconds are one minute, 120 seconds two minutes in the plural |
| NotificationsPage.SingularWords | Social-Good-Juba-main/client/src/pages/Notifications.js:32 | a count of one takes no plural s |
| NotificationsPage.Filtered | Social-Good-Juba-main/client/src/pages/Notifications.js:57-62 | the unread tab keeps exactly the unread notifications, any other keeps all |
| NotificationsPage.StatsOf | Social-Good-Juba-main/client/src/pages/Notifications.js:64-70 | total is the list length, unread plus read is the total, unread is the unread tab's size |
| NotificationsPage.StatsMatchCounter | Social-Good-Juba-main/client/src/pages/Notifications.js:64-70 | the page's unread figure equals the context's counter whenever the counter is in step |
| NotificationsPage.UnreadCountsAgree | Social-Good-Juba-main/client/src/pages/Notifications.js:66 | the page's unread filter counts exactly the context's unread notifications |
| NotificationsPage.PageState.constructor | Social-Good-Juba-main/client/src/pages/Notifications.js:16-17 | the all tab on page 1 |
| NotificationsPage.PageState.LoadMore | Social-Good-Juba-main/client/src/pages/Notifications.js:53-55 | the page number goes up by one, the tab stays |
| JobSearch.FilteredJobs | Social-Good-Juba-main/client/src/pages/JobSearch.js:30-40 | exactly the jobs that the search, status and location filters all let through, never more than the jobs |
| JobSearch.FilterKeepsAll | Social-Good-Juba-main/client/src/pages/JobSearch.js:30-40 | a filter that holds for every job keeps the list as it is |
| JobSearch.NoFiltersShowAll | Social-Good-Juba-main/client/src/pages/JobSearch.js:30-40 | with no search term and both filters on all, every job is shown in order |
| JobSearch.RemoveAll | Social-Good-Juba-main/client/src/pages/JobSearch.js:42 | every copy of a value removed, the rest kept |
| JobSearch.RemoveAllKeepsDistinct | Social-Good-Juba-main/client/src/pages/JobSearch.js:42 | removing a value keeps a duplicate-free list duplicate-free |
| JobSearch.Distinct | Social-Good-Juba-main/client/src/pages/JobSearch.js:42 | `new Set`: the same values, each once |
| JobSearch.Locations | Social-Good-Juba-main/client/src/pages/JobSearch.js:42 | each job's location, in order |
| JobSearch.UniqueLocations | Social-Good-Juba-main/client/src/pages/JobSearch.js:42 | every non-empty job location once, and nothing else |
| JobSearch.LocationOptionsMatch | Social-Good-Juba-main/client/src/pages/JobSearch.js:36-42 | every location offered by the location filter, including a location literally named "all", shows at least one job |
| JobSearch.CardDescription | Social-Good-Juba-main/client/src/pages/JobSearch.js:135-137 | a description over 150 characters shows its first 150 and "...", a shorter one is shown whole |
| JobSearch.TimelineText | Social-Good-Juba-main/client/src/pages/JobSearch.js:148 | the timeline when present, otherwise "Not specified" |
| Learn.FindSection | Social-Good-Juba-main/client/src/pages/Learn.js:298-304 | a found section has the id; none is found exactly when no section has it |
| Learn.CompletedIn | Social-Good-Juba-main/client/src/pages/Learn.js:306-308 | the completed lessons of a section never exceed its lessons |
| Learn.RoundPercent | Social-Good-Juba-main/client/src/pages/Learn.js:310 | `Math.round(100 c / n)` with halves rounded up, at most 100 |
| Learn.ProgressPercentage | Social-Good-Juba-main/client/src/pages/Learn.js:302-311 | 0 for an unknown section, NaN for one without lessons, otherwise the rounded share completed |
| Learn.FullExactlyWhenAllDone | Social-Good-Juba-main/client/src/pages/Learn.js:310 | with fewer than 200 lessons, 100 exactly when all are completed and 0 exactly when none is |
| Learn.RoundMonotone | Social-Good-Juba-main/client/src/pages/Learn.js:310 | completing more lessons never lowers the rounded percentage |
| Learn.CountMonotone | Social-Good-Juba-main/client/src/pages/Learn.js:306-308 | a larger completed set counts at least as many lessons |
| Learn.MarkingNeverLowersProgress | Social-Good-Juba-main/client/src/pages/Learn.js:9-11 | marking a lesson complete never lowers any section's progress |
| Learn.TotalLessons | Social-Good-Juba-main/client/src/pages/Learn.js:327 | no sections hold no lessons |
| Learn.CatalogueTotals | Social-Good-Juba-main/client/src/pages/Learn.js:13-296 | the catalogue has six sections of three lessons each, 18 lessons in all |
| Learn.LessonProgress.constructor | Social-Good-Juba-main/client/src/pages/Learn.js:7 | no lesson completed to start |
| Learn.LessonProgress.MarkLessonComplete | Social-Good-Juba-main/client/src/pages/Learn.js:9-11 | the lesson joins the completed set; marking it again changes nothing |
| RatingDisplay.Repeat | Social-Good-Juba-main/client/src/components/RatingDisplay.js:57-59 | n copies of one star, none for a negative count |
| RatingDisplay.FiveStars | Social-Good-Juba-main/client/src/components/RatingDisplay.js:51-74 | for an average of 0 to 5 stars: five stars in all, the whole part filled, one half star exactly when there is a fraction, the rest empty |
| RatingDisplay.RenderStars | Social-Good-Juba-main/client/src/components/RatingDisplay.js:51-74 | the three push loops draw exactly the star row that FiveStars describes |
| RatingDisplay.PushStars | Social-Good-Juba-main/client/src/components/RatingDisplay.js:57-59 | a push loop appends exactly n copies of the star to what was there |
| RatingDisplay.RepeatSnoc | Social-Good-Juba-main/client/src/components/RatingDisplay.js:57-59 | one more push adds one more star at the end |
| RatingDisplay.ShownAverage | Social-Good-Juba-main/client/src/components/RatingDisplay.js:47-49 | a numeric average is shown as it is; anything else is shown as 0 |
| RatingDisplay.BarFor | Social-Good-Juba-main/client/src/components/RatingDisplay.js:87-99 | a bar's width is its count over the number of reviews, in percent |
| RatingDisplay.Breakdown | Social-Good-Juba-main/client/src/components/RatingDisplay.js:87 | one bar per star level the summary has, from five stars down to one |
| RatingDisplay.BarsFrom | Social-Good-Juba-main/client/src/components/RatingDisplay.js:87 | bars only for levels 1 to s that the summary has, highest first, each with its own count |
| RatingDisplay.BarsSum | Social-Good-Juba-main/client/src/components/RatingDisplay.js:87-99 | the bars' widths add up to 100 times the counts they show |
| RatingDisplay.BarsFillWhole | Social-Good-Juba-main/client/src/components/RatingDisplay.js:87-99 | when the five counts add up to the number of reviews, the bars fill exactly 100% |
| RatingDisplay.ViewOf | Social-Good-Juba-main/client/src/components/RatingDisplay.js:30-44 | loading first, then the error, then "No reviews yet" exactly for no data or zero reviews, otherwise the stars of the shown average |
| ProfileForm.ValidateFile | Social-Good-Juba-main/client/src/pages/Profile.js:97-111 | no file gives no message; a file over 5 MB is refused for its size first; then a type outside the four is refused; no message exactly otherwise |
| ProfileForm.ClientCheckMatchesServer | Social-Good-Juba-main/server/routes/profile.js:9-21 | the page lets a file through exactly when the server's upload filter and size limit would accept it |
| ProfileForm.TrimKeepsOut | Social-Good-Juba-main/client/src/pages/Profile.js:179 | trimming brings in no character that was not there |
| ProfileForm.TrimmedPieceClean | Social-Good-Juba-main/client/src/pages/Profile.js:179 | a trimmed piece of the split is empty or a clean item |
| ProfileForm.TrimmedItems | Social-Good-Juba-main/client/src/pages/Profile.js:179 | every item kept is clean (not empty, no surrounding space, no comma) and there are no more items than pieces |
| ProfileForm.TrimmedItemsMembers | Social-Good-Juba-main/client/src/pages/Profile.js:179 | an item is kept exactly when it is the non-empty trim of some piece |
| ProfileForm.ArrayField | Social-Good-Juba-main/client/src/pages/Profile.js:178-184 | the parsed list holds only clean items |
| ProfileForm.ArrayFieldMembers | Social-Good-Juba-main/client/src/pages/Profile.js:178-184 | a value is in the list exactly when it is the non-empty trim of a comma-separated piece |
| ProfileForm.TrimClean | Social-Good-Juba-main/client/src/pages/Profile.js:179 | a clean item is its own trim |
| ProfileForm.TrimmedItemsKeepsClean | Social-Good-Juba-main/client/src/pages/Profile.js:179 | a list of clean items passes the trim-and-filter step unchanged |
| ProfileForm.ArrayFieldRoundTrip | Social-Good-Juba-main/client/src/pages/Profile.js:178-184 | clean items joined with commas parse back to the same items |
| ProfileForm.ArrayFieldIdempotent | Social-Good-Juba-main/client/src/pages/Profile.js:178-184 | parsing the stored list written out again gives the same list |
| ProfileForm.InputValue | Social-Good-Juba-main/client/src/pages/Profile.js:170-176 | a checkbox stores its checked flag, every other input its text |
| ProfileForm.ProfileFormState.constructor | Social-Good-Juba-main/client/src/pages/Profile.js:18-39 | the form starts with its empty fields and no upload messages |
| ProfileForm.ProfileFormState.HandleInputChange | Social-Good-Juba-main/client/src/pages/Profile.js:170-176 | only the named field changes, to the input's value |
| ProfileForm.ProfileFormState.HandleArrayChange | Social-Good-Juba-main/client/src/pages/Profile.js:178-184 | only the named field changes, to the parsed list |
| ProfileForm.ProfileFormState.CheckUpload | Social-Good-Juba-main/client/src/pages/Profile.js:136-145 | the upload goes ahead exactly when the file passes the check; the message (or none) is stored under the document type |
| ChatContext.LastCall | Social-Good-Juba-main/client/src/context/ChatContext.js:177 | the time of the conversation's last receipt, or 0 when it has none |
| ChatContext.DisplayName | Social-Good-Juba-main/client/src/context/ChatContext.js:233 | the username when there is one, otherwise the email |
| ChatContext.GetConversation | Social-Good-Juba-main/client/src/context/ChatContext.js:263-269 | none exactly when no conversation matches all three ids; otherwise the first one that does |
| ChatContext.OtherParticipant | Social-Good-Juba-main/client/src/context/ChatContext.js:272-280 | nothing without a conversation or a user; the freelancer when the user is the client, the client otherwise |
| ChatContext.OtherIsTheOtherSide | Social-Good-Juba-main/client/src/context/ChatContext.js:272-280 | for a participant of a conversation between two users, the other participant is never that user |
| ChatContext.MarkLocal | Social-Good-Juba-main/client/src/context/ChatContext.js:192-198 | every message of that conversation becomes read; the others, and the order, stay as they were |
| ChatContext.LocalMarkMatchesServer | Social-Good-Juba-main/client/src/context/ChatContext.js:192-198 | the page's copy agrees with the server's receipt on every message the reader did not send, and shows every message of the conversation read |
| ChatContext.WithLastMessage | Social-Good-Juba-main/client/src/context/ChatContext.js:134-140 | only the conversation with that id gets the sent message as its last message |
| ChatContext.StartSignal | Social-Good-Juba-main/client/src/context/ChatContext.js:228-237 | the start signal carries the user's id and display name |
| ChatContext.StopSignal | Social-Good-Juba-main/client/src/context/ChatContext.js:239-247 | the stop signal carries the user's id and no name |
| ChatContext.RelayStart | Social-Good-Juba-main/server/index.js:86-91 | the server passes the id and the name on unchanged |
| ChatContext.RelayStop | Social-Good-Juba-main/server/index.js:93-97 | the server passes the id on and no name |
| ChatContext.AfterTyping | Social-Good-Juba-main/client/src/context/ChatContext.js:39-41 | a named typist joins the set |
| ChatContext.AfterStopTyping | Social-Good-Juba-main/client/src/context/ChatContext.js:43-49 | the payload's name leaves the set; without a name the set is unchanged |
| ChatContext.StopNeverClearsTyping | Social-Good-Juba-main/client/src/context/ChatContext.js:39-49 | a user who starts and then stops typing is still shown as typing on the other side |
| ChatContext.AfterTypingById | Social-Good-Juba-main/client/src/context/ChatContext.js:39-41 | keyed by user id: the start records the user's name under their id |
| ChatContext.AfterStopTypingById | Social-Good-Juba-main/client/src/context/ChatContext.js:43-49 | keyed by user id: the stop removes exactly that id and keeps every other entry |
| ChatContext.StopClearsTypingById | Social-Good-Juba-main/client/src/context/ChatContext.js:39-49 | keyed by id, a start then a stop clears the user's name and restores everyone else's state |
| ChatContext.ChatClient.constructor | Social-Good-Juba-main/client/src/context/ChatContext.js:19-27 | empty lists, no typists, zero counts and timestamps |
| ChatContext.ChatClient.FetchConversations | Social-Good-Juba-main/client/src/context/ChatContext.js:60-80 | the request goes out exactly when 10 s have passed since the last one; then its time is recorded and a successful response replaces the list; nothing else changes |
| ChatContext.ChatClient.FetchUnreadCount | Social-Good-Juba-main/client/src/context/ChatContext.js:208-225 | the same rule with a 5 s window for the unread count |
| ChatContext.ChatClient.MarkAsRead | Social-Good-Juba-main/client/src/context/ChatContext.js:175-205 | debounced at 2 s per conversation; the call time is recorded for that conversation; an accepted receipt marks only that conversation's messages read and asks for the unread count under its own debounce |
| ChatContext.ChatClient.SendMessage | Social-Good-Juba-main/client/src/context/ChatContext.js:101-147 | a failed send changes nothing; a sent message is appended and becomes the last message of its conversation only |
| ChatContext.ChatClient.OnUserTyping | Social-Good-Juba-main/client/src/context/ChatContext.js:39-41 | the typing set becomes AfterTyping of the old one; nothing else changes |
| ChatContext.ChatClient.OnUserStopTyping | Social-Good-Juba-main/client/src/context/ChatContext.js:43-49 | the typing set becomes AfterStopTyping of the old one; nothing else changes |
| ChatContext.ChatClient.ClearTypingIndicators | Social-Good-Juba-main/client/src/context/ChatContext.js:293-295 | nobody is shown as typing; nothing else changes |
| ChatContext.ChatClient.Refresh | Social-Good-Juba-main/client/src/context/ChatContext.js:298-303 | as written, both fetches still see the old timestamps and stay debounced; a skipped fetch leaves its timestamp at 0 |
| ChatContext.ChatClient.RefreshBypassing | Social-Good-Juba-main/client/src/context/ChatContext.js:298-303 | with the timestamps reset first, both requests go out on any clock past the windows |
| ChatContext.RefreshSoonAfterFetch | Social-Good-Juba-main/client/src/context/ChatContext.js:298-303 | a refresh five seconds after a fetch, as written, sends no conversations request |
| ChatContext.RefreshBypassingSoonAfterFetch | Social-Good-Juba-main/client/src/context/ChatContext.js:298-303 | the same sequence with the intended refresh sends both requests |
| ChatWindow.LastMessagePreview | Social-Good-Juba-main/client/src/components/ChatWindow.js:108-113 | "No messages yet" without a last message; a message of at most 50 characters as it is; a longer one as its first 50 characters and "..." |
| ChatWindow.PreviewBounded | Social-Good-Juba-main/client/src/components/ChatWindow.js:108-113 | a preview is at most 53 characters and begins with the message's own first characters |
| ChatWindow.JobLabel | Social-Good-Juba-main/client/src/components/ChatWindow.js:102 | the job's title when it has one, otherwise "Job Discussion" |
| ChatWindow.ConversationName | Social-Good-Juba-main/client/src/components/ChatWindow.js:97-105 | "Unknown User" without the other participant, otherwise their display name, " - " and the job label |
| ChatWindow.UnknownExactlyWithoutParticipant | Social-Good-Juba-main/client/src/components/ChatWindow.js:97-105 | the name is "Unknown User" exactly when the other participant is missing |
| ChatWindow.MessageSide | Social-Good-Juba-main/client/src/components/ChatWindow.js:197 | a message is drawn as sent exactly when the current user sent it, as received otherwise |
| ChatWindow.IndicatorOutlivesTyping | Social-Good-Juba-main/client/src/components/ChatWindow.js:229-230 | once the other participant has started typing, the indicator stays on after they stop |
| ChatWindow.ChatWindowState.constructor | Social-Good-Juba-main/client/src/components/ChatWindow.js:24-25 | an empty input and no typing signal |
| ChatWindow.ChatWindowState.HandleSendMessage | Social-Good-Juba-main/client/src/components/ChatWindow.js:67-79 | text is sent exactly for non-blank input with an open conversation, and it is the trimmed input; a stored message clears the input and the typing flag and updates the chat as SendMessage does; a refused or failed send changes nothing |
| RatingModal.RatingLabel | Social-Good-Juba-main/client/src/components/RatingModal.js:80-87 | 0 reads "Select a rating", 1 to 5 one of the five words, anything else nothing |
| RatingModal.LabelsDistinct | Social-Good-Juba-main/client/src/components/RatingModal.js:80-87 | two ratings from 0 to 5 have the same label exactly when they are equal |
| RatingModal.CommentPayload | Social-Good-Juba-main/client/src/components/RatingModal.js:25 | no comment exactly when the box holds only white space; otherwise the trimmed text, not empty and without surrounding space |
| RatingModal.RequestPassesRangeCheck | Social-Good-Juba-main/server/routes/ratings.js:58-60 | a request the dialog sends never fails the route's range check, and the route stores its comment unchanged |
| RatingModal.RatingDialog.constructor | Social-Good-Juba-main/client/src/components/RatingModal.js:5-8 | no star, no comment, nothing hovered |
| RatingModal.RatingDialog.ChooseStar | Social-Good-Juba-main/client/src/components/RatingModal.js:72 | the clicked star becomes the rating; nothing else changes |
| RatingModal.RatingDialog.Hover | Social-Good-Juba-main/client/src/components/RatingModal.js:73-74 | the hovered star is recorded, 0 on leaving; nothing else changes |
| RatingModal.RatingDialog.EditComment | Social-Good-Juba-main/client/src/components/RatingModal.js:92-98 | the comment becomes the typed text cut to 500 characters |
| RatingModal.RatingDialog.Submit | Social-Good-Juba-main/client/src/components/RatingModal.js:10-38 | nothing is sent exactly when no star is chosen; a request carries the star (1 to 5) and the normalised comment; only an accepted request clears the star and the comment |
| RatingModal.RatingDialog.Cancel | Social-Good-Juba-main/client/src/components/RatingModal.js:40-45 | the star and the comment are cleared |
| UserDashboard.StatusBadge | Social-Good-Juba-main/client/src/pages/UserDashboard.js:127-139 | an unknown status is shown as itself in the pending style; a known one gets its own label, and "rejected" the cancelled style |
| UserDashboard.JobBadgesDistinct | Social-Good-Juba-main/client/src/pages/UserDashboard.js:127-139 | every job status is in the table with a label of its own; an accepted application falls back to the raw word in the pending style |
| UserDashboard.Recent | Social-Good-Juba-main/client/src/pages/UserDashboard.js:471 | the first three items, or all of them when there are fewer |
| UserDashboard.AvailableJobs | Social-Good-Juba-main/client/src/pages/UserDashboard.js:851-858 | a job is listed exactly when it matches the search term and the status filter; never more jobs than there are |
| UserDashboard.AvailableIsSearchWithoutLocation | Social-Good-Juba-main/client/src/pages/UserDashboard.js:851-858 | the dashboard's list equals the search page's list with the location filter on all |
| UserDashboard.RoundedAverage | Social-Good-Juba-main/client/src/pages/UserDashboard.js:776 | the nearest whole number to the quotient, halves rounded up |
| UserDashboard.ExactAverage | Social-Good-Juba-main/client/src/pages/UserDashboard.js:776 | an exact quotient is shown as it is |
| UserDashboard.AveragePerJob | Social-Good-Juba-main/client/src/pages/UserDashboard.js:772-776 | shown exactly when more than zero jobs are completed, as the rounded quotient of the earnings, missing earnings counting as 0 |
| UserDashboard.RateTarget | Social-Good-Juba-main/client/src/pages/UserDashboard.js:533-548 | only completed jobs get a target; the target is the freelancer of an accepted application of that same job; none exactly when there is no such application |
| UserDashboard.RatesTheSelectedFreelancer | Social-Good-Juba-main/client/src/pages/UserDashboard.js:533-548 | after the only applicant of a job is selected, rating the completed job rates that applicant |
| JobDetails.StatusConfigOf | Social-Good-Juba-main/client/src/pages/JobDetails.js:65-74 | an unknown status gets the default banner with its own name; a known one its own style and label |
| JobDetails.JobStatusesConfigured | Social-Good-Juba-main/client/src/pages/JobDetails.js:65-74 | every job status has a banner style, and no two job statuses share one |
| JobDetails.ApplyCardsExclusive | Social-Good-Juba-main/client/src/pages/JobDetails.js:188-263 | the apply form never shows beside the submitted card or the complete button, and a visitor sees neither card nor ownership |
| JobDetails.ApplyingHidesForm | Social-Good-Juba-main/client/src/pages/JobDetails.js:188 | once the user's application is stored, the page shows the submitted card instead of the form |
| JobDetails.CompleteButtonMeansOwner | Social-Good-Juba-main/client/src/pages/JobDetails.js:263 | the complete button appears only where the complete route accepts the user as the job's owner |
| JobDetails.SelectionRemovesSelectButtons | Social-Good-Juba-main/client/src/pages/JobDetails.js:336-378 | after a freelancer is selected, no application of the job offers "Select Freelancer" |

## Left out

- The database layer (the Supabase query builders) is not modelled. Each table is a sequence of rows and each query a filter over it. The constraint failures that are modelled are the unique `google_id` and `email` columns of `users` (UserCreationFailed and EmailInUse) and, in the earlier schema, the NOT NULL `phone` and `address` columns (LegacyUsers.LegacyAccounts.GoogleSignIn). Every other write succeeds: the remaining insert, update and foreign-key error branches are not modelled.
- The payment service's delay and random reference are not modelled. The outcome is a parameter, paid with a reference or declined with a message.
- Authentication (JWT and Google ID-token checks) is not modelled. The caller's id, role and admin flag are trusted inputs.
- Email sending is not modelled, including the admin notification emails of reports and sign-ups.
- Socket.IO transport is not modelled: the joins, emits, `sendRealtimeNotification` and the client's socket setup. Only the state changes it triggers are, through the client event handlers and the typing relay.
- Concurrency is not modelled. Every route is one sequential step; there is no race between two select-freelancer calls.
- Floating point is not modelled. Rates and earnings are whole numbers. Rating averages are integer tenths, with `Math.round` written out. Bar widths are fractions.
- Wall-clock time and locale formatting (`Date.now`, `toLocaleDateString`, ChatWindow's `formatTime`) are not modelled; time is an integer parameter.
- Strings are sequences of characters. `toLowerCase`, `toUpperCase` and `trim` are modelled on ASCII letters and ASCII white space only.
- Common.Lower: ASCII letters only, because Unicode case mapping is out of scope.
- The `%` and `_` wildcards inside an `ilike` search term are taken literally.
- Profiles.ParseNumber: reads a digit string or a number; `parseInt` and `parseFloat` of other text (signs, decimals, leading digits followed by letters) gives null in the model.
- Profiles.ExtName: models `path.extname` on a bare file name without '/'.
- Users.UserDirectory.GoogleSignIn takes the admin e-mail domain as a string parameter. With the environment variable unset, JavaScript tests for the suffix "undefined"; that case is not modelled separately.
- Chat.ChatStore.Open takes a job id. The route's behaviour with `jobId` missing from the body is not modelled.
- NotificationService.NotificationStore.Insert: requires that no stored notification is newer than the given time, which keeps the rows oldest first. The service sets no time itself; `created_at` is the database's `NOW()` default, and a clock that never runs backwards is assumed rather than modelled.
- NotificationService.NotificationStore.Create: the same time requirement as Insert.
- NotificationService.NotificationStore.NotifyNewJob: the same time requirement as Insert.
- NotificationService.NotificationStore.NotifyJobApplication: the same time requirement as Insert.
- NotificationService.NotificationStore.NotifyApplicationStatus: the same time requirement as Insert.
- NotificationService.NotificationStore.NotifyJobCompletion: the same time requirement as Insert.
- Jobs.JobBoard.Delete leaves the applications and transactions of the deleted job in place. The earlier schema declares them `ON DELETE CASCADE` (gen.py:142, 152, 164, 186), so the database would remove them. The current server's schema is not part of this model, and the cascade is not modelled.
- Chat.ChatStore.Send requires the clock not to run backwards against the stored messages, which keeps the messages oldest first.
- LegacyJobs.List, LegacyJobs.Page, LegacyJobs.ListAsWritten and LegacyJobs.PageAsWritten require page 1 or later. A page of 0 or less from the query string is not modelled.
- The listing lemmas of LegacyJobs are stated over the filtered rows; the row count the route also returns is not modelled.
- Learn.FullExactlyWhenAllDone: proved for fewer than 200 lessons, because from 200 lessons up `Math.round` reaches 100 before every lesson is done.
- ChatContext.AfterTyping: a typing payload without a name adds nothing, where JavaScript would add `undefined` to the set.
- ProfileForm.ProfileFormState.HandleInputChange and ProfileForm.ProfileFormState.HandleArrayChange state the new form as a map update; the React re-render is not modelled.
- The upload request and the profile refresh after it in Profile.js are not modelled on the client. The server side of the upload is `Profiles.ProfileBook.UploadDocument`.
- RatingModal.RatingDialog.EditComment models the textarea's `maxLength` as a cut to 500 characters.
- The `onSubmit`, `onClose` and `onCancel` callbacks of the rating dialog are not modelled; they belong to the parent page.
- The client `markAsRead([])` marks nothing locally, while the server marks all of the user's notifications for an empty list. The model keeps the two as written.
- The reports schema lists statuses `open`, `in_review`, `resolved` and `dismissed`, but the route creates reports as `pending`. The model follows the route.
- JobDetails shows the apply form to the job's owner too, and the current apply route does not refuse an owner either. Both are modelled as written.
- The current apply route asks for the freelancer profile but fails only on database errors, so it has no effective profile check. The model has none.
- The admin job routes (`/admin/jobs` list, edit and delete) of the current jobs file, and those of the earlier one (Social-Good-Juba-main/Social-Good-Juba-main/server/routes/jobs.js:407, 444, 468), `GET /batch-status`, `PATCH /:id`, the debug route and the read-only listing routes of the current jobs file are not modelled. They are plain reads or admin edits without rules of their own.
- Pages and components outside the helpers listed above are presentation only.

## Findings

| source | as written | input that shows it | evidently intended | confidence | as-written member | corrected member |
|---|---|---|---|---|---|---|
| Social-Good-Juba-main/Social-Good-Juba-main/server/routes/jobs.js:13-29 | `limit` from the query is a string, so `offset + limit - 1` concatenates before subtracting | `page=2&limit=5`: the range is 5 to 54, fifty rows instead of five | rows `offset` to `offset + limit - 1` | not executed; high | LegacyJobs.ListAsWrittenOverfetches | LegacyJobs.ListIsPageBlock |
| Social-Good-Juba-main/Social-Good-Juba-main/server/routes/jobs.js:221-301 | select-freelancer does not check that the job is posted | a completed job of a client who has since posted another job: the select sets the old job back to in progress, and the client has two active jobs | select only from a posted job, which keeps one active job per client | not executed; high | LegacyJobs.SelectReopensCompletedJob | LegacyJobs.LegacyJobBoard.SelectFreelancerWhenPosted |
| Social-Good-Juba-main/server/routes/users.js:108-128 | `.eq('id', '!=', user.id)` filters on id equal to the text '!=', so no row matches and the loop stops at once | a Google user renamed to "Ann" while another user already holds "Ann": the rename keeps "Ann" | exclude the user's own row and count up until a name is free | not executed; medium | Users.RenameAsWritten, Users.UserDirectory.SignInExisting, Users.SignInAsWrittenSharesName | Users.Rename, Users.UserDirectory.SignInExistingIntended |
| Social-Good-Juba-main/client/src/context/NotificationContext.js:104-112 | the counter drops by the number of ids passed, whether or not they were unread | one unread and one read notification, with the counter at 1; marking the read one sets the counter to 0 while one notification is still unread | drop by the number of listed notifications that were unread | not executed; high | NotificationContext.MarkingAsWrittenDrifts | NotificationContext.MarkingKeepsSynced |
| Social-Good-Juba-main/client/src/context/ChatContext.js:39-49 | the stop signal carries only the user's id (server/index.js:93-97), and the handler deletes `data.username` | a user starts and then stops typing: the other side keeps showing them as typing | remove the user who stopped, by id | not executed; high | ChatContext.StopNeverClearsTyping | ChatContext.StopClearsTypingById |
| Social-Good-Juba-main/client/src/context/ChatContext.js:298-303 | the timestamps are reset through state setters, but both fetches run in the same render and still read the old timestamps | a refresh five seconds after a fetch sends no conversations request | the refresh goes past the debounce | not executed; medium | ChatContext.RefreshSoonAfterFetch | ChatContext.RefreshBypassingSoonAfterFetch |
