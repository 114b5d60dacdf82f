# gcp-config: the storage-transfer reconciler and its small tools, in Dafny

This project models the decision logic of m-lab/gcp-config.

At its centre is `stctl`'s reconciler (`internal/stctl`). Given a desired storage-transfer job, it does three things:

- It looks for a managed job carrying the canonical description `STCTL: transfer <src> -> <dest> at HH:MM:SS`.
- It keeps that job when it already has the desired start time, repeat interval, include prefixes, age bounds and delete flag.
- Otherwise it disables the job, if there is one, and creates a new job.

Beside it the project models:

- the `flaga` flag values;
- `cbctl`'s trigger lookup and trigger builders;
- `cbif`'s rules for whether to run, what to run and when to stop.

## Modules

| file | module | contents |
|---|---|---|
| `wrappers.dfy` | `Wrappers` | `Option` and `Result` |
| `errors.dfy` | `Errors` | the errors the model distinguishes |
| `text.dfy` | `Text` | decimal and `HH:MM:SS` formatting; `strings.Split` and its inverse; the `%q` and `%#v` text of strings and string slices |
| `sorting.dfy` | `Sorting` | string order and `sort.Strings` on a slice, in place |
| `paging.dfy` | `Paging` | the generated clients' `Pages` loop with the first-match visitor that both paged searches use |
| `transfer_types.dfy` | `TransferTypes` | the Storage Transfer records and the reconciler's configuration |
| `transfer_client.dfy` | `TransferClient` | the transfer-job client as an in-memory service with injectable errors and a call log |
| `stctl_spec.dfy` | `StctlSpec` | pure rules of the reconciler, and what they mean |
| `stctl.dfy` | `Stctl` | the `Command` class: `includesEqual`, `specMatches`, `find`, `Create`, `Disable`, `Sync` |
| `flaga.dfy` | `Flaga` | `Strings` and `String` flag values |
| `cloudbuild_types.dfy` | `CloudbuildTypes` | the Cloud Build trigger records |
| `cbctl_trigger.dfy` | `CbctlTrigger` | `Trigger.Get` |
| `cbctl_main.dfy` | `CbctlMain` | `formatDesc`, `newPushTrigger`, `newPRTrigger`, `eventDesc`, `ignore409` |
| `cbif.dfy` | `Cbif` | `shouldRun`, `continueOrExitZero`, `prepareCommands`, `checkExit` |

### Modelling notes

- **Nil pointers.** A Go pointer that may be nil is an `Option`.
- **Panics in `specMatches`.** It dereferences `job.Schedule` and `job.TransferSpec` unguarded.
  - `Judge` reports those panics as the verdict `Panics`.
  - `Sync` reports them as `Err(RuntimePanic(..))`.
- **Durations** are integers counting nanoseconds.
- **`time.ParseDuration`** accepts `"0"` and `<digits>s`, which are the forms the service writes, as long as the value fits a `time.Duration` (a signed 64-bit count of nanoseconds, at most 9223372036 seconds). Every other string fails to parse, a too-large number of seconds included, and `durationsMatch` counts a failed parse as zero (`StctlSpec.DurationOverflow`).
- **Times.** `flagx.Time.String` and `fmtTime` both print zero-padded `HH:MM:SS`.
- **`getSpec`** is not part of this model's sources. `StctlSpec.GetSpec` rebuilds it from the expectations in `internal/stctl/sync_test.go:45-47,69-71,113-116,142-145`:
  - Object conditions are present only when a prefix or a positive age is given.
  - Each positive age is written as whole seconds, as in `"432000s"`.
  - The delete option is present only when it is requested.
- **Paging.** `find` and `Trigger.Get` run the visitor through `Pages`. A page without a match makes the visitor return its not-found error, and that stops the listing. As a result:
  - A job on a later page is never seen after a page without one (`StctlSpec.SyncCreatesPastFirstPage`, `CbctlTrigger.GetMissesLaterPages`).
  - When every page has a match, the job from the last page wins (`StctlSpec.FindLastHitWins`).
  - A lookup can return a trigger together with a not-found error (`CbctlTrigger.GetFoundWithError`).

  The model follows the code here. The comment at `internal/stctl/sync.go:29` says the first matching job is returned. That holds exactly when the leading run of pages that have a match is one page long: a single page (`StctlSpec.FindOnePage`), or a first page with a match followed by one without, where the first page's job comes back together with `errNotFound` and `Sync` uses it (`Paging.ScanClosedForm`).
- **The transfer client** is a class whose state is:
  - the pages that listing enabled jobs returns;
  - a table of jobs by name;
  - the number of the next name it assigns;
  - three injectable errors;
  - a log of every Get, Update and Create call.

  The listing and the table are independent, as in the fake client of the package's tests.
- **Interval and idempotence.** `Create` never sets a repeat interval. So a configuration with an interval never matches the job it created, and every `Sync` replaces it (`StctlSpec.NewJobDiffersWithInterval`).
- **Ages.** `stctl`'s command line truncates ages to whole seconds (`cmd/stctl/main.go:114-115`), and an age is a `time.Duration`. Whole, non-negative seconds within that range are what `StctlSpec.NewJobMatches` and `Stctl.Command.Sync` assume when they promise a match.

## Model

| member | source | states |
|---|---|---|
| Text.ClockInjective | internal/stctl/sync.go:84-86 | for fields below 100 the `HH:MM:SS` text has 8 characters and two texts are equal exactly when hours, minutes and seconds are, so comparing printed times compares times |
| Text.GoSliceSyntax | flaga/flaga.go:28-31 | a `[]string` printed with `%#v`: `[]string(nil)` exactly for no values, otherwise a `[]string{...}` literal |
| Text.SplitShape | flaga/flaga.go:23 | `strings.Split` on a separator gives one more piece than there are separators, and no piece contains the separator |
| Text.JoinSplit | flaga/flaga.go:23-24 | joining the pieces of a split with the separator gives back the original string |
| Text.SplitJoin | flaga/flaga.go:23-24 | splitting the join of separator-free pieces gives back exactly those pieces |
| Sorting.SortSeqSorted | internal/stctl/sync.go:93-94 | the sorted form of a slice is in non-decreasing string order |
| Sorting.SortSeqCharacterized | internal/stctl/sync.go:89-101 | sorting is idempotent, and two slices sort to the same result exactly when they hold the same strings with the same multiplicities |
| Sorting.SortStrings | internal/stctl/sync.go:93-94 | `sort.Strings` leaves the slice sorted, as a permutation of its old contents, equal to the sorted form of the old contents |
| Paging.FirstIndex | internal/stctl/sync.go:32-47 | the index the visitor stops at is the least index whose item passes the test, and there is none exactly when no item of the page passes |
| Paging.Scan | internal/cbctl/trigger.go:67-78 | a remembered item is either the starting one or one that passes the test |
| Paging.ScanClosedForm | internal/stctl/sync.go:31-51 | the listing runs through the leading pages that have a match; the remembered item is the first match of the last of them; the error is none when all pages match, the fetch error when a fetch fails, and the not-found error at the first page without a match |
| Paging.Pages | internal/stctl/sync.go:31-50 | the paging loop with the first-match visitor returns exactly what `Scan` describes |
| TransferClient.JobNameInjective | transfer/job.go:60-62 | the service gives different jobs different names |
| TransferClient.Client.Get | transfer/job.go:65-67 | a Get is logged and answers with the injected error, the named job, or 404 |
| TransferClient.Client.Update | transfer/job.go:70-72 | an Update is logged; it applies the request's description, transfer spec and status to an existing job and keeps its name and schedule; otherwise it answers with the injected error or 404 and changes nothing |
| TransferClient.Client.Create | transfer/job.go:60-62 | a Create is logged; on success the job is stored under a name no existing job has, which the answer carries |
| StctlSpec.GetDesc | internal/stctl/create.go:49-51 | the canonical description starts with the `STCTL: transfer ` tag |
| StctlSpec.DescIdentity | internal/stctl/create.go:49-51 | for bucket names without spaces and valid start times, two canonical descriptions are equal exactly when source, target and start time are |
| StctlSpec.DescCollision | internal/stctl/create.go:49-51 | a bucket name containing " -> " makes two different configurations share a description |
| StctlSpec.FmtTime | internal/stctl/sync.go:84-86 | a time of day within a day prints as eight characters `HH:MM:SS` |
| StctlSpec.TimesEqual | internal/stctl/sync.go:84-86 | `timesEqual` compares the scheduled time's `HH:MM:SS` text with the flag's; `TimesEqualFields` states what that means |
| StctlSpec.TimesEqualFields | internal/stctl/sync.go:84-86 | `timesEqual` holds exactly when hours, minutes and seconds agree, for times within a day |
| StctlSpec.ParseDuration | internal/stctl/sync.go:141-145 | a duration that parses is a non-negative whole number of seconds, in nanoseconds, no larger than the largest `time.Duration`; the empty string does not parse |
| StctlSpec.ElapsedNanos | internal/stctl/sync.go:141-145 | the age an elapsed-time string stands for is non-negative whole seconds, zero when it does not parse |
| StctlSpec.DurationsMatch | internal/stctl/sync.go:141-145 | `durationsMatch` compares the age with the parsed elapsed time, a failed parse counting as zero; `DurationRoundTrip` states when a written age matches again |
| StctlSpec.DurationRoundTrip | internal/stctl/sync.go:141-145 | an age of whole non-negative seconds that a `time.Duration` can hold, written as `<n>s`, parses back to the same age |
| StctlSpec.DurationOverflow | internal/stctl/sync.go:141-145 | a number of seconds too large for a `time.Duration` does not parse, so `durationsMatch` counts it as a zero age |
| StctlSpec.GetSpec | internal/stctl/create.go:17 | the spec names the configured buckets; it has object conditions exactly when a prefix or a positive age is configured, and they carry the configured prefixes; its effective delete option is the configured one |
| StctlSpec.NewJob | internal/stctl/create.go:16-45 | the job Create sends is managed (a schedule without end date), enabled, under the canonical description and project, starts on the given date, and has the configured start time field by field |
| StctlSpec.FindResult | internal/stctl/sync.go:23-52 | what `find` returns for a listing: the paging loop over the canonical-job test; its properties are the `Find...` lemmas below |
| StctlSpec.FindOnlyCanonical | internal/stctl/sync.go:33-43 | `find` never returns a job without a schedule, with an end date, or under another description |
| StctlSpec.FindOnePage | internal/stctl/sync.go:27-51 | on one page, `find` returns the first managed job with the canonical description and no error, or no job and `errNotFound` |
| StctlSpec.FindStopsAtFirstMiss | internal/stctl/sync.go:44-51 | a first page without a canonical job gives no job and `errNotFound`, whatever later pages hold |
| StctlSpec.FindLastHitWins | internal/stctl/sync.go:38-50 | when every page has a canonical job, the job from the last page is returned, with no error |
| StctlSpec.Judge | internal/stctl/sync.go:103-138 | the verdict of `specMatches`; it panics only on a nil schedule or transfer spec, and a match implies the interval and delete option agree (`JudgeCharacterized` states it in full) |
| StctlSpec.JudgeCharacterized | internal/stctl/sync.go:103-138 | `specMatches` holds exactly when start time (printed form), interval, include-prefix multiset, both age bounds (failed parse = 0; no conditions = no positive age) and effective delete flag all agree; it panics exactly on a nil schedule, or on a nil transfer spec once time and interval agree |
| StctlSpec.JudgeAfterSorting | internal/stctl/sync.go:89-101 | the in-place sorting `specMatches` does to both prefix lists never changes its verdict |
| StctlSpec.NewJobMatches | internal/stctl/create.go:16-45 | with no interval and whole-second ages, the job Create sends passes `specMatches` for the same configuration |
| StctlSpec.NewJobDiffersWithInterval | internal/stctl/sync.go:110-113 | with an interval configured, the job Create sends never passes `specMatches` |
| StctlSpec.SyncPlan | internal/stctl/sync.go:59-81 | which of the five outcomes `Sync` takes (list error, panic, keep, replace, create) for a configuration and listing; `SyncPlanSound` states what each means |
| StctlSpec.SyncPlanSound | internal/stctl/sync.go:59-81 | Sync stops only on listing errors other than `errNotFound`; a kept job is managed, under the canonical description, and matches the configuration as Sync leaves it; a replaced job is the job found, managed, and does not match |
| StctlSpec.SyncKeepsCreatedJob | internal/stctl/sync.go:59-71 | idempotence: a one-page listing whose first canonical job is one Create made for the same configuration is kept, under its name |
| StctlSpec.SyncReplacesOnPrefixChange | internal/stctl/sync.go:64-80 | jobs are identified by description only: changing the prefixes finds the old job and replaces it |
| StctlSpec.SyncCreatesPastFirstPage | internal/stctl/sync.go:44-51 | a canonical job behind a first page without one is missed and Sync creates another job |
| Stctl.DisableRequest | internal/stctl/disable.go:21-30 | the update Disable sends is for the command's project; its job has no name, no project id, no schedule, the status "DISABLED", and the description and transfer spec of the current job |
| Stctl.SortBoth | internal/stctl/sync.go:93-94 | both slices end up sorted forms of their old contents, also when they are the same slice |
| Stctl.SameSorted | internal/stctl/sync.go:95-100 | the element loop answers true exactly when the two slices are equal |
| Stctl.IncludesEqual | internal/stctl/sync.go:89-101 | `includesEqual` holds exactly when the slices have one length and the same strings with the same multiplicities; at equal lengths both are left sorted permutations of their inputs, otherwise untouched |
| Stctl.Command.SpecMatches | internal/stctl/sync.go:103-138 | the verdict is `Judge` on the configuration before the call; the job and the command's prefixes are left sorted exactly when the prefixes were compared |
| Stctl.Command.ConditionsAgree | internal/stctl/sync.go:115-129 | present object conditions agree exactly when the prefixes agree as multisets and both ages match |
| Stctl.Command.Find | internal/stctl/sync.go:23-52 | `find` returns what `FindResult` describes for the current listing |
| Stctl.Command.Create | internal/stctl/create.go:16-45 | Create sends `NewJob` for the current configuration once and returns the client's answer unchanged |
| Stctl.Command.Disable | internal/stctl/disable.go:12-37 | Get runs first; if it fails its error is returned and nothing is updated; otherwise the restricted update is sent under the same name and its answer returned; a disabled job keeps name, schedule, description and transfer spec |
| Stctl.Command.ReplaceJob | internal/stctl/sync.go:72-80 | Get, then the disabling Update, then Create, each only if the one before succeeded; the call logs, the job table, the next name and the result after each way this can end; a created job is managed, canonical and, with no interval and whole-second ages, passes `specMatches` |
| Stctl.Command.Sync | internal/stctl/sync.go:59-81 | for each outcome of `SyncPlan`: the result, the Get, Update and Create logs, the job table, the next job name and the command's prefixes (sorted exactly when `specMatches` compared them); a failed Disable prevents Create; a returned job is managed and canonical, and with no interval and whole-second ages it passes `specMatches` |
| Flaga.Strings.Get | flaga/flaga.go:15-17 | returns the collected values |
| Flaga.Strings.Set | flaga/flaga.go:21-26 | never fails, marks the flag assigned, keeps the old values and appends the comma-separated pieces in order, one more than there are commas, which join back to the argument |
| Flaga.Strings.Contains | flaga/flaga.go:34-41 | true exactly when the value is among the values |
| Flaga.Strings.String | flaga/flaga.go:28-31 | the values in Go syntax: `[]string(nil)` exactly when none were set, otherwise a `[]string{...}` literal |
| Flaga.String.Get | flaga/flaga.go:50-52 | returns the value |
| Flaga.String.Set | flaga/flaga.go:55-59 | never fails, sets the value (even to "") and marks the flag assigned |
| Flaga.String.String | flaga/flaga.go:62-64 | reports the same string as `Get` |
| CbctlTrigger.Get | internal/cbctl/trigger.go:65-79 | the result is what the paging loop describes, and a returned trigger has the requested name |
| CbctlTrigger.GetOnePage | internal/cbctl/trigger.go:69-75 | on one page: the first trigger with that name and no error, or none and "Trigger not found with name: <name>" |
| CbctlTrigger.GetFetchFails | internal/cbctl/trigger.go:67-78 | a failed fetch of the first page is returned as the error, with no trigger |
| CbctlTrigger.GetMissesLaterPages | internal/cbctl/trigger.go:75-78 | a first page without the name ends the lookup with the not-found error whatever later pages hold |
| CbctlTrigger.GetFoundWithError | internal/cbctl/trigger.go:68-78 | a trigger found on the first page is returned together with the not-found error of a second page without it |
| CbctlMain.FormatDesc | cmd/cbctl/main.go:65-76 | a tag gives "Tag matching <tag>" whatever the branch; otherwise "Push to branch matching <branch>" |
| CbctlMain.FormatDescInjective | cmd/cbctl/main.go:65-76 | two descriptions are equal exactly when they name the same tag, or no tag and the same branch |
| CbctlMain.NewPushTrigger | cmd/cbctl/main.go:78-94 | a push trigger named "push-<org>-<repo>-trigger", on org/repo with the given tag and branch filter, filename and formatted description, enabled |
| CbctlMain.NewPRTrigger | cmd/cbctl/main.go:96-110 | a pull-request trigger named "pr-<org>-<repo>-trigger", carrying only the branch filter, with the branch's description and the filename, enabled |
| CbctlMain.PushTriggerNameShared | cmd/cbctl/main.go:80-81 | a push trigger's name does not depend on tag, branch or filename |
| CbctlMain.TriggerKindsDistinct | cmd/cbctl/main.go:78-110 | push and pull-request triggers never share a name |
| CbctlMain.EventDesc | cmd/cbctl/main.go:122-130 | a panic exactly when the trigger has no GitHub events or no push filter; otherwise "Push to branch" exactly when the branch is set, "Push new tag" exactly when only the tag is, "Unknown" exactly when neither is |
| CbctlMain.EventDescOfPushTrigger | cmd/cbctl/main.go:122-130 | a trigger this tool built is never listed as "Unknown", and with both tag and branch set, listing and description disagree on which one the trigger follows |
| CbctlMain.EventDescOfPRTrigger | cmd/cbctl/main.go:159-164 | listing a pull-request trigger this tool built panics, because `eventDesc` reads its absent push filter |
| CbctlMain.Ignore409 | cmd/cbctl/main.go:112-120 | an error vanishes exactly when it is an API error with code 409; any other error is returned unchanged |
| Cbif.Assigned | cmd/cbif/main.go:124-127 | a flag counts as assigned exactly when its name is in the found set |
| Cbif.Getenv | cmd/cbif/main.go:100 | an unset variable reads as "" |
| Cbif.ShouldRun | cmd/cbif/main.go:99-119 | runs exactly when each assigned condition (PROJECT_IN, BRANCH_IN) contains the current project or branch; a failing project condition is the reason given even when the branch one fails too; the reason starts with "RUN:true" when it runs, and is exactly that when no condition is assigned |
| Cbif.ShouldRunReasonClauses | cmd/cbif/main.go:111-118 | the reason gains clauses exactly when a condition is assigned; " AND PROJECT_IN=" follows "RUN:true" when the project condition is assigned, else " AND BRANCH_IN=" when the branch one is; the branch clause, when assigned, ends the reason, and otherwise the project clause does |
| Cbif.ContinueOrExitZero | cmd/cbif/main.go:91-97 | the process exits, with status 0, exactly when it should not run |
| Cbif.PrepareCommands | cmd/cbif/main.go:195-207 | in single-command mode: no command for no arguments, else one command equal to the arguments; otherwise one command per argument, in order, each its split words, unless a split fails |
| Cbif.CheckExit | cmd/cbif/main.go:80-89 | a missing process state panics, whether or not the command failed; otherwise the process exits exactly when the command failed and errors are not ignored, and then with the command's exit code |

## Left out

- Network, context deadlines and logging: `logx.Debug`, `pretty` and `log` output are not modelled, and the service is the in-memory client.
- `internal/stctl/command.go`: its `ListJobs`, `ListOperations`, `Create`, `Disable` and `Sync` are empty stubs whose signatures conflict with the real methods, and `parseJobMetadata` is JSON decoding. None of them is modelled.
- `transfer/job.go`: modelled only as the client interface. Listing is assumed to return enabled jobs, as its filter asks.
- `cmd/stctl/main.go`, `cmd/cbctl/main.go` `main` and `mustArg`, and `cmd/cbif/main.go` `main`: flag registration, environment overrides, subcommand dispatch and the command loop are not modelled.
- `cmd/cbif/main.go` `createCmd`, `createGit`, `mustLinkWorkspace`, `trySetupGit`, `trySetupWorkspaceLink`, `assignedFlags`: these are subprocess, filesystem and environment work. The set of assigned flags and the environment are parameters.
- `internal/cbctl/trigger.go` `Run`, `Create`, `List`, `NewGithub`: these are one-line API passthroughs.
- `Text.GoSliceSyntax`: `%#v` and `%q` quote each string without escaping, so the text is exact only for strings without quotes, backslashes or unprintable characters. A nil slice is the only empty one, because `Set` always appends at least one piece.
- `Cbif.ShouldRun`: the project and branch lists are `flagx.StringArray`, which is not part of this model. Its `Contains` is taken as list membership, and its `%v` output is assumed to be the `%#v` text of the slice, as `flaga.Strings.String` prints it (`flaga/flaga.go:29-31`). If `flagx.StringArray` prints itself differently, only the list inside the reason text changes. `%q` is approximated by surrounding quotes without escaping.
- `Cbif.CheckExit`: a panic is an outcome; the exit status 2 that Go gives an unrecovered panic is not modelled.
- `CbctlMain.EventDesc`: the panic is an error outcome; the listing it interrupts is not modelled.
- `StctlSpec.FindResult`: an empty sequence of fetches gives no job and no error. The Go client always fetches at least one page, so a listing here that stands for a real one holds at least one fetch.
- `Cbif.PrepareCommands`: shell-style word splitting (`shlex.Split`) is a parameter. A failed split, which ends the process, is `None`.
- `StctlSpec.ParseDuration`: accepts only `"0"` and `<digits>s` within the `time.Duration` range. Go's `time.ParseDuration` accepts other forms (fractions, units other than seconds, signs) that the service does not write.
- `StctlSpec.GetSpec`: `getSpec` itself is not part of this model. The definition follows the expectations in `internal/stctl/sync_test.go` and writes ages as whole seconds.
- `Stctl.Command.Create`: the start date (`time.Now().UTC()`) is the parameter `today`.
- `Stctl.Command.Sync`: the returned job is a value. In Go, `find` returns a pointer into the listing, so the sorting inside `specMatches` is also visible through the listing; the model returns the sorted job instead.
- The race between `find` and a concurrent `Disable` or `Create` from another process: the model is sequential.
- `cmd/cbctl/main.go` `create-projects`, whose loop skips every option when fewer than three projects are given: this is part of `main` and is not modelled.
