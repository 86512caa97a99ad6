# Gerrit multi-instance client: change poller and handler registry

This project is a Dafny model of the multi-instance Gerrit client in
`vendor/k8s.io/test-infra/prow/gerrit/client/client.go`, with proofs about it. It covers:

- **The change poller** of one instance handler (`QueryChangesForProject` on the handler).
  - It pages through a project's change listing. The service documents the listing as newest
    update first. The model does not assume that order: it states it as `NewestFirst`, and it
    proves the completeness of a poll both up to the first stale change and, under that
    order, for every fresh change.
  - It stops at the first change not updated after the watermark, at an empty page, or at a
    transport error.
  - It keeps merged changes that were submitted after the watermark.
  - It keeps open changes with a new current revision or a new message on it. The messages
    include the patchset-level comments it injects.
- **Patchset-comment injection** (`injectPatchsetMessages`): the comments are appended as
  messages and the messages are stable-sorted by date.
- **The query-filter builder** (`queryStringsFromQueryFilter`) and the poller's query string.
- **The fan-out over projects of one instance** (`queryAllChanges`). A project without a
  recorded watermark uses "now".
- **The registry** (`Client`):
  - `UpdateClients` reconciles the handler map.
  - `authenticateOnce` and `Authenticate` handle credential rotation.
  - `Account` is a lazy account cache.
  - `QueryChanges`, `QueryChangesForInstance` and `QueryChangesForProject` are the fan-out,
    the soft miss and the hard miss.
- **The small helpers**: the `ProjectsFlag` command-line value (`Set`, `String`),
  `ProjectsFlagToConfig` and `LastSyncState.DeepCopy`.

Modelling choices:

- Timestamps are integers. Go's `t.After(u)` is `t > u`.
- **The review service behind a gateway** is a value `Server`:
  - for each query string, the feed of pages its listing is served in (possibly ending in a
    transport error);
  - the comment threads of each change;
  - the answer to an account lookup.
  - A request at offset `start` gets the page that begins at that offset (`PageAt`).
- **The poller** is proved equal to a function of the feed (`ChangePoller.Poll`). The number
  and offsets of the page requests are proved too (`ChangePoller.Requested`,
  `GerritTypes.Offset`).
- **Go map iteration order** (`range` over a map) is an explicit `order` argument, an
  enumeration of the keys. The results are stated for every such order.
- **The inputs the code gets from outside** become parameters:
  - `time.Now()` is `now`;
  - the result of reading the credential file is `read`;
  - the result of creating a gateway client for each instance is `dial`.
- **Class state**:
  - `Client`, `InstanceHandler`, `AuthService` and `ProjectsFlag` are classes.
  - Their methods change fields in place.
  - The credential rotator goroutine is the ghost counter `rotators`.

Files:

- `wrappers.dfy`: `Option`/`Result`.
- `strings.dfy`: `strings.Join`, `Split` and `SplitN(·, ·, 2)`.
- `gerrit_types.dfy`: the data model and the gateway.
- `query_filter.dfy`: the filter strings and the query.
- `patchset_messages.dfy`: comment injection and the stable sort.
- `change_poller.dfy`: the poller as functions of the feed.
- `instance_handler.dfy`: the handler's loops as methods.
- `flags.dfy`: `ProjectsFlag`.
- `client.dfy`: the registry.

## Model

| member | source | states |
|---|---|---|
| Strings.Cut | vendor/k8s.io/test-infra/prow/gerrit/client/client.go:91-97 | `SplitN(value, "=", 2)`: no separator gives no split; otherwise the text before the first separator (which holds none) and the rest, which put back together give the input |
| Strings.SplitJoin | vendor/k8s.io/test-infra/prow/gerrit/client/client.go:81-88 | splitting a join at its one-character separator gives back the parts, when no part holds the separator |
| Strings.JoinSplit | vendor/k8s.io/test-infra/prow/gerrit/client/client.go:81-102 | joining the parts of a split at a one-character separator gives the string back, for every string |
| QueryFilters.Prefixed | vendor/k8s.io/test-infra/prow/gerrit/client/client.go:600-603 | one term per branch, in order, each the prefix followed by the branch name |
| QueryFilters.QueryStrings | vendor/k8s.io/test-infra/prow/gerrit/client/client.go:594-617 | a missing filter gives no strings; otherwise there is one string per non-empty branch list (the included one first), each in parentheses |
| QueryFilters.ProjectQuery | vendor/k8s.io/test-infra/prow/gerrit/client/client.go:623 | with filters, the query is the filters joined by `+`, then `+project:<name>`; without filters it is exactly `project:<name>` |
| QueryFilters.ParseGroupOf | vendor/k8s.io/test-infra/prow/gerrit/client/client.go:604-615 | a group built from a non-empty list of branch names reads back as those names, and as an AND-group of `-branch:` terms exactly when it was built as one |
| QueryFilters.ParseQueryStringsRoundTrip | vendor/k8s.io/test-infra/prow/gerrit/client/client.go:594-617 | reading the filter strings back recovers the included and the excluded branches; a missing filter reads back as an empty one |
| PatchsetMessages.AsMessages | vendor/k8s.io/test-infra/prow/gerrit/client/client.go:576-584 | one message per comment, in order, carrying the comment's author, update time, text and patchset |
| PatchsetMessages.SortByDate | vendor/k8s.io/test-infra/prow/gerrit/client/client.go:585-590 | the messages sorted by date: a permutation of the input, in non-decreasing date order |
| PatchsetMessages.SortByDateIsStable | vendor/k8s.io/test-infra/prow/gerrit/client/client.go:585-590 | messages with equal dates keep their relative order |
| PatchsetMessages.StableSortIsUnique | vendor/k8s.io/test-infra/prow/gerrit/client/client.go:585-590 | every date-sorted arrangement that keeps equal dates in order is the SortByDate result, so any stable sort gives the same messages |
| PatchsetMessages.Injected | vendor/k8s.io/test-infra/prow/gerrit/client/client.go:566-592 | only the messages change; a failed listing or a missing patchset-level thread leaves the change as it was; otherwise the messages grow by the number of patchset-level comments |
| PatchsetMessages.InjectedSpec | vendor/k8s.io/test-infra/prow/gerrit/client/client.go:566-592 | only the messages change. A failed comment listing or no `/PATCHSET_LEVEL` key leaves the change as it was. An empty patchset-level thread also leaves it as it was. Otherwise the messages grow by exactly the comments: a permutation of the old messages plus one message per comment, sorted by date and stable |
| PatchsetMessages.HasNewMessageAppended | vendor/k8s.io/test-infra/prow/gerrit/client/client.go:576-584 | the messages plus the injected comments hold a new message on a revision exactly when the messages do or a comment on it was updated after the watermark |
| PatchsetMessages.NewMessageAfterInjection | vendor/k8s.io/test-infra/prow/gerrit/client/client.go:690-708 | after injection a revision has a message dated after the watermark exactly when it had one before or a patchset-level comment on it is newer |
| ChangePoller.FirstStale | vendor/k8s.io/test-infra/prow/gerrit/client/client.go:664-667 | the position of the first change not updated after the watermark: every change before it is newer |
| ChangePoller.Classify | vendor/k8s.io/test-infra/prow/gerrit/client/client.go:669-722 | a merged change is kept, as it is, exactly when submitted after the watermark. An open change is kept exactly when its current revision is known and was created after the watermark or has a newer message, counting the injected comments. Every other status is dropped. A kept change differs from the listed one only in its messages, and a kept open change is the one carrying the injected comments |
| ChangePoller.Requested | vendor/k8s.io/test-infra/prow/gerrit/client/client.go:629-650 | the poller asks for at least one page and at most one past the end of the feed |
| ChangePoller.RequestedPages | vendor/k8s.io/test-infra/prow/gerrit/client/client.go:638-667 | every page before the last one asked for was served, non-empty and wholly newer than the watermark; the last one asked for is not |
| ChangePoller.OffsetStep | vendor/k8s.io/test-infra/prow/gerrit/client/client.go:650 | each request starts where the previous page ended: offset plus that page's length |
| ChangePoller.PageAtOffset | vendor/k8s.io/test-infra/prow/gerrit/client/client.go:629-636 | a request at the offset where page k begins is answered with page k, or an empty page past the end |
| ChangePoller.SelectFromSource | vendor/k8s.io/test-infra/prow/gerrit/client/client.go:669-722 | the changes kept from a run are exactly those Classify keeps, in run order: each comes from a distinct, increasing position and is what Classify keeps of the change there, and every position whose change Classify keeps is among them |
| ChangePoller.KeptSound | vendor/k8s.io/test-infra/prow/gerrit/client/client.go:669-722 | the positions Classify keeps, in increasing order, are exactly as many as the kept changes, and the change kept at each is what Classify keeps of the change listed there |
| ChangePoller.KeptComplete | vendor/k8s.io/test-infra/prow/gerrit/client/client.go:669-722 | a position whose change Classify keeps is never skipped |
| ChangePoller.Select | vendor/k8s.io/test-infra/prow/gerrit/client/client.go:652-722 | the changes kept from a run of listed changes, in order: at most one per listed change; SelectFromSource states that they are exactly the ones Classify keeps |
| ChangePoller.Poll | vendor/k8s.io/test-infra/prow/gerrit/client/client.go:629-667 | the poller's result for a feed of pages; PollMatchesReference, PollIsFreshSubsequence and PollErrorIsServed state what it is |
| ChangePoller.PollErrorIsServed | vendor/k8s.io/test-infra/prow/gerrit/client/client.go:637-641 | a failed poll fails with the error of one of the pages it asked for |
| ChangePoller.PollMatchesReference | vendor/k8s.io/test-infra/prow/gerrit/client/client.go:619-725 | the page-by-page poll equals reading the whole listing served before an error or empty page: the changes before the first stale one, classified. A transport error is the result only when no stale change was served before it |
| ChangePoller.PollIsFreshSubsequence | vendor/k8s.io/test-infra/prow/gerrit/client/client.go:652-722 | a successful poll returns, in server order, an order-preserving selection of the served changes, each updated after the watermark and merged or open; every change listed before the first stale one that Classify keeps is returned, at its place, as Classify keeps it |
| ChangePoller.PollReturnsFresh | vendor/k8s.io/test-infra/prow/gerrit/client/client.go:652-722 | every change a successful poll returns is merged or open and was updated strictly after the watermark |
| ChangePoller.FreshMergeIsReturned | vendor/k8s.io/test-infra/prow/gerrit/client/client.go:652-696 | a merged change listed before the first stale one and submitted after the watermark is in the result of a successful poll, unchanged |
| ChangePoller.PollReturnsEveryFresh | vendor/k8s.io/test-infra/prow/gerrit/client/client.go:635-722 | on a listing served newest update first (NewestFirst), a successful poll returns every change updated after the watermark that Classify keeps, as Classify keeps it |
| ChangePoller.OutOfOrderFreshIsMissed | vendor/k8s.io/test-infra/prow/gerrit/client/client.go:651-667 | without that order a change can be missed: a stale change listed first ends the walk, and a merged change submitted after the watermark listed behind it is not returned |
| ChangePoller.PollIgnoresLaterPages | vendor/k8s.io/test-infra/prow/gerrit/client/client.go:664-667 | pages after the last one asked for change neither the result nor the number of requests |
| ChangePoller.StaleFeedYieldsNothing | vendor/k8s.io/test-infra/prow/gerrit/client/client.go:664-667 | when nothing listed is newer than the watermark, the poller asks for one page and returns no change |
| InstanceHandlers.AuthService.SetCookieAuth | vendor/k8s.io/test-infra/prow/gerrit/client/client.go:281-282 | the cookie is set to the given name and value |
| InstanceHandlers.Watermark | vendor/k8s.io/test-infra/prow/gerrit/client/client.go:539-544 | the project's recorded time, or now when none is recorded |
| InstanceHandlers.PollFails | vendor/k8s.io/test-infra/prow/gerrit/client/client.go:637-641 | a transport error drops the changes gathered so far and ends the poll after that request |
| InstanceHandlers.PollStops | vendor/k8s.io/test-infra/prow/gerrit/client/client.go:643-667 | at an empty page or a stale change the poll ends with that request: the gathered changes plus the kept fresh prefix of the page; an empty page returns the gathered changes unchanged |
| InstanceHandlers.WalkEnd | vendor/k8s.io/test-infra/prow/gerrit/client/client.go:637-667 | ending the page loop at the current request leaves the result and request log that the poll specifies |
| InstanceHandlers.InstanceHandler.InjectPatchsetMessages | vendor/k8s.io/test-infra/prow/gerrit/client/client.go:566-592 | the change with the comments injected as InjectedSpec describes; the listing error, if any, is returned |
| InstanceHandlers.InstanceHandler.ScanMessages | vendor/k8s.io/test-infra/prow/gerrit/client/client.go:694-708 | true exactly when some message on the revision is dated after the watermark |
| InstanceHandlers.InstanceHandler.Consider | vendor/k8s.io/test-infra/prow/gerrit/client/client.go:669-722 | what the status switch keeps of one change is Classify's result |
| InstanceHandlers.InstanceHandler.ScanPage | vendor/k8s.io/test-infra/prow/gerrit/client/client.go:652-722 | the page is reported stale exactly when it holds a change not updated after the watermark; the changes kept are those Classify keeps from the prefix before it |
| InstanceHandlers.InstanceHandler.QueryChangesForProject | vendor/k8s.io/test-infra/prow/gerrit/client/client.go:619-725 | the result is the poll of the project query's feed. Exactly Requested pages are asked for, request k at the offset where page k begins, with the rate limit as page size |
| InstanceHandlers.InstanceHandler.QueryAllChanges | vendor/k8s.io/test-infra/prow/gerrit/client/client.go:535-560 | the concatenation, in visiting order, of the successful project polls with the default watermark; failing projects are skipped |
| InstanceHandlers.InstanceHandler.Gathered | vendor/k8s.io/test-infra/prow/gerrit/client/client.go:535-560 | a change is gathered exactly when it is in the successful poll of one of the visited projects, each polled with its watermark |
| InstanceHandlers.InstanceHandler.GatheredFresh | vendor/k8s.io/test-infra/prow/gerrit/client/client.go:535-560 | every gathered change is merged or open, came from the successful poll of a visited project, and is newer than that project's watermark |
| InstanceHandlers.InstanceHandler.FirstSyncGathersNothing | vendor/k8s.io/test-infra/prow/gerrit/client/client.go:539-544 | with no recorded watermarks and nothing updated after now, nothing is gathered |
| Flags.Entries | vendor/k8s.io/test-infra/prow/gerrit/client/client.go:82-85 | one `host=repo,repo` entry per host, in visiting order |
| Flags.SetResult | vendor/k8s.io/test-infra/prow/gerrit/client/client.go:90-102 | a value without `=` is a format error and nothing else is. A value with `=` is rejected exactly when the host before its first `=` is already in the flag, with a duplicate-host error naming that host |
| Flags.SetAddsOneHost | vendor/k8s.io/test-infra/prow/gerrit/client/client.go:90-102 | on success the value is `host=rest` with the host before the first `=`; that host was new and is added with `rest` split at commas |
| Flags.SetKeepsRepositoryText | vendor/k8s.io/test-infra/prow/gerrit/client/client.go:90-102 | nothing of an accepted value is lost: the host's repositories joined with commas give back the text after the first `=` |
| Flags.ProjectsFlag.Set | vendor/k8s.io/test-infra/prow/gerrit/client/client.go:90-102 | the hosts become SetResult's map on success; on error the error is returned and the hosts are unchanged |
| Flags.ProjectsFlag.String | vendor/k8s.io/test-infra/prow/gerrit/client/client.go:81-88 | an empty flag prints as ""; otherwise splitting the text at spaces gives one entry per host in visiting order |
| Flags.EntryRoundTrip | vendor/k8s.io/test-infra/prow/gerrit/client/client.go:83-101 | setting one printed entry adds exactly that host with its repositories |
| Flags.StringRoundTrip | vendor/k8s.io/test-infra/prow/gerrit/client/client.go:81-102 | setting each space-separated entry of the printed flag in turn, starting from an empty flag, rebuilds the flag |
| Flags.ProjectsFlagToConfig | vendor/k8s.io/test-infra/prow/gerrit/client/client.go:106-115 | the same hosts, each with its repositories as projects, all without a branch filter |
| Flags.FlagConfigQuery | vendor/k8s.io/test-infra/prow/gerrit/client/client.go:106-115 | a project configured from the flag is polled with the bare `project:<name>` query |
| Registry.DeepCopy | vendor/k8s.io/test-infra/prow/gerrit/client/client.go:173-182 | the copy equals the original |
| Registry.InstanceState | vendor/k8s.io/test-infra/prow/gerrit/client/client.go:378 | the instance's recorded times, or none for an unknown instance |
| Registry.PlanStep | vendor/k8s.io/test-infra/prow/gerrit/client/client.go:341-365 | visiting one instance keeps its handler, adds one over its gateway, or records the creation error |
| Registry.Failures | vendor/k8s.io/test-infra/prow/gerrit/client/client.go:338-368 | the creation errors UpdateClients collects, in visiting order; FailuresAreCreationErrors says which they are |
| Registry.FailuresAreCreationErrors | vendor/k8s.io/test-infra/prow/gerrit/client/client.go:349-354 | an error is collected exactly when it is the creation error of a visited instance that had no handler |
| Registry.Client.ReconcileAll | vendor/k8s.io/test-infra/prow/gerrit/client/client.go:341-366 | the new map holds exactly the desired instances that had a handler or whose gateway could be created. Kept handlers are the same objects with the desired projects. New handlers are fresh, over the instance's gateway, and have no cookie. The errors are the creation failures in visiting order. Handlers of instances no longer desired keep their projects |
| Registry.Client.UpdateClients | vendor/k8s.io/test-infra/prow/gerrit/client/client.go:335-369 | the handlers become ReconcileAll's map; instances no longer desired are gone; accounts and credentials are untouched; the registry stays well formed; the dropped handlers keep their projects |
| Registry.Client.AuthenticateOnce | vendor/k8s.io/test-infra/prow/gerrit/client/client.go:260-283 | the credential read (empty on a read error) is remembered. When it differs from the previous one it becomes the `o` cookie of every handler; otherwise no cookie changes |
| Registry.Client.Authenticate | vendor/k8s.io/test-infra/prow/gerrit/client/client.go:288-332 | a cookie file wins over a token file. With neither, nothing changes. Otherwise the source is set, one authentication round runs, and exactly one rotator runs afterwards however often this is called |
| Registry.Client.Account | vendor/k8s.io/test-infra/prow/gerrit/client/client.go:512-531 | a cached account is returned as is; an unknown instance is an error; a failed lookup is an error and caches nothing; a successful one is cached and returned |
| Registry.Client.QueryChanges | vendor/k8s.io/test-infra/prow/gerrit/client/client.go:373-387 | one entry per instance whose gathered changes are non-empty, holding exactly those changes; each instance is polled with its own clock reading |
| Registry.Client.QueryChangesForInstance | vendor/k8s.io/test-infra/prow/gerrit/client/client.go:389-401 | an unknown instance gives no changes and no error; otherwise the instance's gathered changes |
| Registry.Client.QueryChangesForProject | vendor/k8s.io/test-infra/prow/gerrit/client/client.go:408-428 | an unknown instance and an unregistered project are errors. Otherwise the result is the project's poll, with its filter strings followed by the extra filters, and a poll error is wrapped with the project and instance |

## Left out

- `NewClient`, `roundTripperWithHeader`, `GetChange`, `ChangeExist`, `SetReview`,
  `GetBranchRevision` and `responseBodyError` are not modelled. They build HTTP clients, or
  forward one call to the gateway and format its response body.
- The background loops are not modelled:
  - `ApplyGlobalConfig`/`applyGlobalConfigOnce`;
  - the rotation goroutine, which is modelled only by the `rotators` counter;
  - `time.Sleep`, the reader/writer lock, the Prometheus counters and all logging.
  Each modelled operation is one atomic step.
- Registry.Client.Authenticate: reading the cookie file (last whitespace-separated field) or
  the token file (trimmed) is not modelled. The outcome of the read is the `read` parameter,
  and the panic on an empty cookie file is not modelled.
- Registry.Client.UpdateClients: creating a gateway client (`gerrit.NewClient`) is the `dial`
  argument, one outcome per instance.
- Error messages are constructors of an `Error` datatype, not formatted strings. The
  aggregate of `UpdateClients` is the sequence of errors.
- InstanceHandlers.InstanceHandler.QueryChangesForProject:
  - the `AdditionalFields` of the query are not modelled;
  - the page size `rateLimit` only appears in the recorded requests. The gateway decides
    how long each page of the feed is.
  - The gateway serves a listing that stays put while it is paged through (`PageAt`); a
    listing that shifts between requests is not modelled.
- PatchsetMessages.SortByDate: Go's `sort.SliceStable` algorithm is modelled by a stable
  insertion sort. StableSortIsUnique shows that any stable sort gives the same result.
- Flags.ProjectsFlag.String: the round trip (Flags.StringRoundTrip) is stated only for
  flags that meet three conditions:
  - the flag is not empty: an empty flag prints `""`, and `Set("")` fails;
  - every host has at least one repository;
  - hosts hold no `=` or space, and repositories hold no comma or space.
  Other flags print text that does not parse back.
- QueryFilters.ParseQueryStringsRoundTrip: stated only for branch names without `+`, the
  query-term separator.
- A merged change must carry its submission time (`CarriesSubmitted`). The code
  dereferences it without a check.
- `queryAllChanges` reads the clock once, so all projects of one instance share that `now`.
  `QueryChanges` takes one reading per instance (`clock`). The readings are not required to
  increase.
- `Comment.updated` is a plain timestamp. The code dereferences `*c.Updated` without a check
  (client.go:580), so a comment without an update time would panic; that panic is not
  modelled.

## Behaviour a reader might not expect

The model follows the code in each of these places.

- **A failed credential read does not keep the previous credential.** A reader might expect
  the old credential to stay in place. `authenticateOnce` does not return on a read error:
  the closure yields `""`. When that differs from the previous token it is remembered and
  pushed to every handler (client.go:265-283). Registry.Client.AuthenticateOnce states this.
- **An existing handler is always reused.** A reader might expect a handler to be rebuilt
  when its credentials or services change. `UpdateClients` always keeps the existing handler
  of a desired instance and only replaces its projects.
- **New handlers start without a cookie.** A reader might expect every handler to be kept
  authenticated. Handlers created by `UpdateClients` get no cookie. The cookie is pushed only
  by the next `authenticateOnce` that reads a different credential.
