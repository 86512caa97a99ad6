/** gerritInstanceHandler: the per-instance state (watched projects, the bound gateway,
    its cookie authentication) and the change poller that runs against it. */
module InstanceHandlers {
  import opened Wrappers
  import opened Strings
  import opened GerritTypes
  import opened QueryFilters
  import opened PatchsetMessages
  import opened ChangePoller

  /** The gateway's authentication service: the cookie it sends with every request. */
  class AuthService {
    var cookie: Option<(string, string)>

    constructor ()
      ensures cookie.None?
    {
      cookie := None;
    }

    /** SetCookieAuth */
    method SetCookieAuth(name: string, value: string)
      modifies this
      ensures cookie == Some((name, value))
    {
      cookie := Some((name, value));
    }
  }

  /** The watermark of a project: its last sync time, or `now` for a project never synced. */
  function Watermark(lastState: map<string, Timestamp>, project: string, now: Timestamp): (t: Timestamp)
    ensures project !in lastState ==> t == now
    ensures project in lastState ==> t == lastState[project]
  {
    if project in lastState then lastState[project] else now
  }

  function Succeeded(r: Result<seq<Change>, Error>): seq<Change>
  {
    if r.Ok? then r.value else []
  }

  class InstanceHandler {
    const instance: string
    var projects: ProjectFilters
    const auth: AuthService
    const server: Server

    constructor (instance: string, projects: ProjectFilters, server: Server)
      ensures this.instance == instance && this.projects == projects && this.server == server
      ensures fresh(auth) && auth.cookie.None?
    {
      this.instance := instance;
      this.projects := projects;
      this.server := server;
      auth := new AuthService();
    }

    ghost predicate Valid()
    {
      server.Valid()
    }

    /** The result of polling one watched project with the given watermark. */
    function ProjectPoll(project: string, lastUpdate: Timestamp, extra: seq<string>): Result<seq<Change>, Error>
      requires Valid()
    {
      Poll(server.Feed(ProjectQuery(project, extra)), lastUpdate, server)
    }

    /** injectPatchsetMessages: lists the change's comments and appends one message per
        patchset-level comment, then stably sorts the messages by date. A failed listing
        leaves the change as it was and is reported. */
    method InjectPatchsetMessages(change: Change) returns (updated: Change, err: Option<Error>)
      ensures updated == Injected(change, server.ListChangeComments(change.id))
      ensures err == if server.ListChangeComments(change.id).Err? then Some(server.ListChangeComments(change.id).error) else None
    {
      var out := server.ListChangeComments(change.id);
      if out.Err? {
        return change, Some(out.error);
      }
      if PatchsetLevel !in out.value {
        return change, None;
      }
      var comments := out.value[PatchsetLevel];
      var messages := change.messages;
      var changed := false;
      for i := 0 to |comments|
        invariant messages == change.messages + AsMessages(comments[..i])
        invariant changed <==> i > 0
      {
        assert AsMessages(comments[..i + 1]) == AsMessages(comments[..i]) + [AsMessage(comments[i])];
        messages := messages + [AsMessage(comments[i])];
        changed := true;
      }
      assert comments[..|comments|] == comments;
      if changed {
        messages := SortByDate(messages);
      }
      return change.(messages := messages), None;
    }

    /** The scan for a message on the current revision dated after the watermark. */
    method ScanMessages(messages: seq<Message>, revision: int, lastUpdate: Timestamp) returns (found: bool)
      ensures found <==> HasNewMessage(messages, revision, lastUpdate)
    {
      found := false;
      for i := 0 to |messages|
        invariant !found ==> forall j :: 0 <= j < i ==> !(messages[j].revisionNumber == revision && messages[j].date > lastUpdate)
        invariant found ==> HasNewMessage(messages, revision, lastUpdate)
      {
        if messages[i].revisionNumber == revision && messages[i].date > lastUpdate {
          found := true;
          break;
        }
      }
    }

    /** The status switch of the poller for a change updated after the watermark: what
        it appends to the pending changes, if anything. */
    method Consider(change: Change, lastUpdate: Timestamp) returns (kept: Option<Change>)
      requires CarriesSubmitted(change)
      ensures kept == Classify(change, lastUpdate, server)
    {
      if change.status == Merged {
        var submitted := change.submitted.value;
        if !(submitted > lastUpdate) {
          return None;
        }
        return Some(change);
      } else if change.status == New {
        if change.currentRevision !in change.revisions {
          return None;
        }
        var rev := change.revisions[change.currentRevision];
        var created := rev.created;
        var injected, _ := InjectPatchsetMessages(change);
        var newMessages := ScanMessages(injected.messages, rev.number, lastUpdate);
        if !newMessages && !(created > lastUpdate) {
          return None;
        }
        return Some(injected);
      } else {
        return None;
      }
    }

    /** The walk over one page: the changes it keeps up to the first one not updated
        after the watermark, and whether it met such a change (which ends the poll). */
    method ScanPage(changes: seq<Change>, lastUpdate: Timestamp) returns (selected: seq<Change>, stale: bool)
      requires AllCarrySubmitted(changes)
      ensures stale <==> !AllFresh(changes, lastUpdate)
      ensures selected == Select(TakeFresh(changes, lastUpdate), lastUpdate, server)
    {
      selected := [];
      for i := 0 to |changes|
        invariant AllFresh(changes[..i], lastUpdate)
        invariant selected == Select(changes[..i], lastUpdate, server)
      {
        ScanStep(changes, i, lastUpdate, server);
        var change := changes[i];
        if !(change.updated > lastUpdate) {
          assert FirstStale(changes, lastUpdate) == i by { FirstStaleAt(changes, i, lastUpdate); }
          return selected, true;
        }
        var kept := Consider(change, lastUpdate);
        if kept.Some? {
          selected := selected + [kept.value];
        }
      }
      assert changes[..|changes|] == changes;
      TakeFreshAll(changes, lastUpdate);
      return selected, false;
    }

    /** QueryChangesForProject of the handler: pages through the changes of `project`
        (newest update first) from offset 0, each request starting where the previous
        page ended, and returns what Poll says of the feed the service serves for the
        query. `requests` are the page requests issued, in order. */
    method QueryChangesForProject(project: string, lastUpdate: Timestamp, rateLimit: int, additionalFilters: seq<string>)
      returns (r: Result<seq<Change>, Error>, ghost requests: seq<PageRequest>)
      requires Valid()
      ensures r == ProjectPoll(project, lastUpdate, additionalFilters)
      ensures Walked(server, ProjectQuery(project, additionalFilters), rateLimit, lastUpdate, r, requests)
    {
      var query := Join(additionalFilters + ["project:" + project], "+");
      var pending: seq<Change> := [];
      var start := 0;
      ghost var k: nat := 0;
      requests := [];
      WalkStart(server, query, rateLimit, lastUpdate);
      while true
        invariant Walking(server, query, rateLimit, lastUpdate, k, start, pending, requests)
        decreases |server.Feed(query)| - k
      {
        var request := PageRequest(query, start, rateLimit);
        var page := server.QueryChanges(request);
        WalkServe(server, query, rateLimit, lastUpdate, k, start, pending, requests);
        if page.Err? {
          WalkEnd(server, query, rateLimit, lastUpdate, k, start, pending, requests);
          return Err(page.error), requests + [request];
        }
        var changes := page.value;
        if |changes| == 0 {
          WalkEnd(server, query, rateLimit, lastUpdate, k, start, pending, requests);
          return Ok(pending), requests + [request];
        }
        ghost var at := start;
        start := start + |changes|;
        var selected, stale := ScanPage(changes, lastUpdate);
        if stale {
          WalkEnd(server, query, rateLimit, lastUpdate, k, at, pending, requests);
          return Ok(pending + selected), requests + [request];
        }
        TakeFreshAll(changes, lastUpdate);
        assert changes[..|changes|] == changes;
        WalkStep(server, query, rateLimit, lastUpdate, k, at, pending, requests);
        pending := pending + selected;
        requests := requests + [request];
        k := k + 1;
      }
    }

    /** queryAllChanges: polls every watched project in the enumeration `order` (Go's map
        order), with the project's last sync time as watermark or `now` for a project
        never synced, and concatenates the changes of the polls that succeed; a failed
        poll is skipped. */
    method QueryAllChanges(lastState: map<string, Timestamp>, rateLimit: int, now: Timestamp, order: seq<string>)
      returns (result: seq<Change>)
      requires Valid()
      requires IsEnumeration(order, projects.Keys)
      ensures result == Gathered(order, lastState, now)
    {
      result := [];
      for i := 0 to |order|
        invariant result == Gathered(order[..i], lastState, now)
      {
        var project := order[i];
        var lastUpdate := if project in lastState then lastState[project] else now;
        var changes, _ := QueryChangesForProject(project, lastUpdate, rateLimit, QueryStrings(projects[project]));
        GatheredStep(order, i, lastState, now);
        if changes.Err? {
          continue;
        }
        result := result + changes.value;
      }
      assert order[..|order|] == order;
    }

    lemma GatheredStep(order: seq<string>, i: nat, lastState: map<string, Timestamp>, now: Timestamp)
      requires Valid()
      requires i < |order| && forall j :: 0 <= j < |order| ==> order[j] in projects
      ensures var p := order[i];
        Gathered(order[..i + 1], lastState, now)
        == Gathered(order[..i], lastState, now) + Polled(p, lastState, now)
    {
      assert order[..i + 1][..i] == order[..i];
    }

    /** What one project contributes to queryAllChanges: its poll with its watermark
        and filters when that succeeds, nothing when it fails. */
    function Polled(project: string, lastState: map<string, Timestamp>, now: Timestamp): seq<Change>
      requires Valid() && project in projects
      reads this
    {
      Succeeded(ProjectPoll(project, Watermark(lastState, project, now), QueryStrings(projects[project])))
    }

    /** The changes queryAllChanges gathers from the projects in `order`: every change
        comes from the poll of one of them, and every change of those polls is gathered. */
    function Gathered(order: seq<string>, lastState: map<string, Timestamp>, now: Timestamp): (r: seq<Change>)
      requires Valid()
      requires forall i :: 0 <= i < |order| ==> order[i] in projects
      reads this
      ensures forall c :: c in r <==> exists p :: p in order && p in projects && c in Polled(p, lastState, now)
    {
      if order == [] then []
      else
        var project := order[|order| - 1];
        var prefix := order[..|order| - 1];
        assert order == prefix + [project];
        Gathered(prefix, lastState, now) + Polled(project, lastState, now)
    }

    /** Every change gathered from the projects is merged or open and was updated after
        the watermark of a project whose poll it came from. */
    lemma GatheredFresh(order: seq<string>, lastState: map<string, Timestamp>, now: Timestamp)
      requires Valid()
      requires forall i :: 0 <= i < |order| ==> order[i] in projects
      ensures forall c :: c in Gathered(order, lastState, now) ==>
        (c.status == Merged || c.status == New)
        && exists p :: p in order && p in projects && c in Polled(p, lastState, now) && c.updated > Watermark(lastState, p, now)
    {
      forall c | c in Gathered(order, lastState, now)
        ensures (c.status == Merged || c.status == New)
        ensures exists p :: p in order && p in projects && c in Polled(p, lastState, now) && c.updated > Watermark(lastState, p, now)
      {
        var p :| p in order && p in projects && c in Polled(p, lastState, now);
        var lastUpdate := Watermark(lastState, p, now);
        var feed := server.Feed(ProjectQuery(p, QueryStrings(projects[p])));
        var poll := Poll(feed, lastUpdate, server);
        assert poll == ProjectPoll(p, lastUpdate, QueryStrings(projects[p]));
        assert poll.Ok? && c in poll.value;
        PollReturnsFresh(feed, lastUpdate, server);
      }
    }

    /** On a first sync (no project synced before) in which the service lists nothing
        updated after `now`, nothing is gathered. */
    lemma {:induction false} FirstSyncGathersNothing(order: seq<string>, lastState: map<string, Timestamp>, now: Timestamp)
      requires Valid()
      requires forall i :: 0 <= i < |order| ==> order[i] in projects && order[i] !in lastState
      requires server.NothingAfter(now)
      ensures Gathered(order, lastState, now) == []
      decreases |order|
    {
      if order != [] {
        var n := |order| - 1;
        var project := order[n];
        var extra := QueryStrings(projects[project]);
        var feed := server.Feed(ProjectQuery(project, extra));
        FirstSyncGathersNothing(order[..n], lastState, now);
        StaleFeedYieldsNothing(feed, now, server);
      }
    }
  }

  /** Request j asked for the query at the offset where page j of the feed begins. */
  ghost predicate Logged(feed: seq<PageResult>, query: string, rateLimit: int, requests: seq<PageRequest>)
  {
    && |requests| <= |feed| + 1
    && forall j :: 0 <= j < |requests| ==> requests[j] == PageRequest(query, Offset(feed, j), rateLimit)
  }

  lemma LogNext(feed: seq<PageResult>, query: string, rateLimit: int, requests: seq<PageRequest>)
    requires Logged(feed, query, rateLimit, requests) && |requests| <= |feed|
    ensures Logged(feed, query, rateLimit, requests + [PageRequest(query, Offset(feed, |requests|), rateLimit)])
  {
  }

  /** The state of the poller before its k-th request: it asks at offset `start` where
      page k begins, every earlier page continued the walk, `pending` is what those pages
      contributed to the poll, and `requests` are the requests made so far. */
  ghost predicate Walking(server: Server, query: string, rateLimit: int, lastUpdate: Timestamp,
                          k: nat, start: int, pending: seq<Change>, requests: seq<PageRequest>)
  {
    var feed := server.Feed(query);
    && k <= |feed| && FeedCarriesSubmitted(feed) && FeedCarriesSubmitted(feed[k..])
    && start == Offset(feed, k)
    && (forall j :: 0 <= j < k ==> Continues(feed[j], lastUpdate))
    && Poll(feed, lastUpdate, server) == Then(pending, Poll(feed[k..], lastUpdate, server))
    && Requested(feed, lastUpdate) == k + Requested(feed[k..], lastUpdate)
    && |requests| == k
    && Logged(feed, query, rateLimit, requests)
  }

  /** The poller's outcome: its result is the poll of the feed, and its requests are the
      ones the poll asks for, page k requested at the offset where page k begins. */
  ghost predicate Walked(server: Server, query: string, rateLimit: int, lastUpdate: Timestamp,
                         r: Result<seq<Change>, Error>, requests: seq<PageRequest>)
  {
    var feed := server.Feed(query);
    && FeedCarriesSubmitted(feed)
    && r == Poll(feed, lastUpdate, server)
    && |requests| == Requested(feed, lastUpdate)
    && Logged(feed, query, rateLimit, requests)
  }

  lemma WalkStart(server: Server, query: string, rateLimit: int, lastUpdate: Timestamp)
    requires server.Valid()
    ensures Walking(server, query, rateLimit, lastUpdate, 0, 0, [], [])
  {
    var feed := server.Feed(query);
    assert feed[0..] == feed;
    match Poll(feed, lastUpdate, server)
    case Ok(c) => assert [] + c == c;
    case Err(_) =>
  }

  /** The request at `start` is answered with page k (an empty page past the feed's end). */
  lemma WalkServe(server: Server, query: string, rateLimit: int, lastUpdate: Timestamp,
                  k: nat, start: int, pending: seq<Change>, requests: seq<PageRequest>)
    requires Walking(server, query, rateLimit, lastUpdate, k, start, pending, requests)
    ensures var feed := server.Feed(query);
      server.QueryChanges(PageRequest(query, start, rateLimit)) == if k < |feed| then feed[k] else Ok([])
    ensures var page := server.QueryChanges(PageRequest(query, start, rateLimit));
      page.Ok? ==> AllCarrySubmitted(page.value)
  {
    PageAtOffset(server.Feed(query), k);
  }

  /** A page that continues the walk moves the poller to page k + 1. */
  lemma WalkStep(server: Server, query: string, rateLimit: int, lastUpdate: Timestamp,
                 k: nat, start: int, pending: seq<Change>, requests: seq<PageRequest>)
    requires Walking(server, query, rateLimit, lastUpdate, k, start, pending, requests)
    requires Continues(server.QueryChanges(PageRequest(query, start, rateLimit)), lastUpdate)
    ensures var changes := server.QueryChanges(PageRequest(query, start, rateLimit)).value;
      && AllCarrySubmitted(changes)
      && Walking(server, query, rateLimit, lastUpdate, k + 1, start + |changes|,
                 pending + Select(changes, lastUpdate, server), requests + [PageRequest(query, start, rateLimit)])
  {
    var feed := server.Feed(query);
    WalkServe(server, query, rateLimit, lastUpdate, k, start, pending, requests);
    OffsetStep(feed, k);
    PollStep(feed, k, pending, lastUpdate, server);
  }

  /** A page that does not continue the walk ends it: a failed page fails the poll, any
      other keeps the changes before the first stale one. */
  lemma WalkEnd(server: Server, query: string, rateLimit: int, lastUpdate: Timestamp,
                k: nat, start: int, pending: seq<Change>, requests: seq<PageRequest>)
    requires Walking(server, query, rateLimit, lastUpdate, k, start, pending, requests)
    requires !Continues(server.QueryChanges(PageRequest(query, start, rateLimit)), lastUpdate)
    ensures var page := server.QueryChanges(PageRequest(query, start, rateLimit));
      var asked := requests + [PageRequest(query, start, rateLimit)];
      && (page.Err? ==> Walked(server, query, rateLimit, lastUpdate, Err(page.error), asked))
      && (page.Ok? ==>
            && AllCarrySubmitted(page.value)
            && Walked(server, query, rateLimit, lastUpdate, Ok(pending + Select(TakeFresh(page.value, lastUpdate), lastUpdate, server)), asked)
            && (page.value == [] ==> Walked(server, query, rateLimit, lastUpdate, Ok(pending), asked)))
  {
    var feed := server.Feed(query);
    WalkServe(server, query, rateLimit, lastUpdate, k, start, pending, requests);
    LogNext(feed, query, rateLimit, requests);
    var page := server.QueryChanges(PageRequest(query, start, rateLimit));
    if page.Err? {
      PollFails(feed, k, pending, lastUpdate, server);
    } else {
      PollStops(feed, k, pending, page.value, lastUpdate, server);
    }
  }

  /** One full page of fresh changes moves the poll's accumulator on by that page's selection. */
  lemma PollStep(feed: seq<PageResult>, k: nat, pending: seq<Change>, lastUpdate: Timestamp, server: Server)
    requires k < |feed| && feed[k].Ok? && Continues(feed[k], lastUpdate)
    requires FeedCarriesSubmitted(feed) && FeedCarriesSubmitted(feed[k..])
    requires Poll(feed, lastUpdate, server) == Then(pending, Poll(feed[k..], lastUpdate, server))
    requires Requested(feed, lastUpdate) == k + Requested(feed[k..], lastUpdate)
    ensures FeedCarriesSubmitted(feed[k + 1..])
    ensures Poll(feed, lastUpdate, server)
      == Then(pending + Select(feed[k].value, lastUpdate, server), Poll(feed[k + 1..], lastUpdate, server))
    ensures Requested(feed, lastUpdate) == k + 1 + Requested(feed[k + 1..], lastUpdate)
  {
    assert feed[k..][0] == feed[k];
    assert feed[k..][1..] == feed[k + 1..];
    TailCarriesSubmitted(feed[k..]);
    var sel := Select(feed[k].value, lastUpdate, server);
    match Poll(feed[k + 1..], lastUpdate, server)
    case Ok(rest) => assert pending + (sel + rest) == pending + sel + rest;
    case Err(_) =>
  }

  /** A page that does not continue the walk ends the poll with the changes kept from it. */
  lemma PollStops(feed: seq<PageResult>, k: nat, pending: seq<Change>, page: seq<Change>, lastUpdate: Timestamp, server: Server)
    requires (k == |feed| && page == []) || (k < |feed| && feed[k] == Ok(page) && !Continues(feed[k], lastUpdate))
    requires FeedCarriesSubmitted(feed) && FeedCarriesSubmitted(feed[k..]) && AllCarrySubmitted(page)
    requires Poll(feed, lastUpdate, server) == Then(pending, Poll(feed[k..], lastUpdate, server))
    requires Requested(feed, lastUpdate) == k + Requested(feed[k..], lastUpdate)
    ensures Poll(feed, lastUpdate, server) == Ok(pending + Select(TakeFresh(page, lastUpdate), lastUpdate, server))
    ensures page == [] ==> Poll(feed, lastUpdate, server) == Ok(pending)
    ensures Requested(feed, lastUpdate) == k + 1
  {
    assert page == [] ==> Select(TakeFresh(page, lastUpdate), lastUpdate, server) == [];
    if k < |feed| {
      assert feed[k..][0] == feed[k];
      if AllFresh(page, lastUpdate) {
        assert page == [];
      }
    } else {
      assert Select(TakeFresh(page, lastUpdate), lastUpdate, server) == [];
    }
    assert pending + [] == pending;
  }

  /** A transport error on the k-th request fails the whole poll. */
  lemma PollFails(feed: seq<PageResult>, k: nat, pending: seq<Change>, lastUpdate: Timestamp, server: Server)
    requires k < |feed| && feed[k].Err?
    requires FeedCarriesSubmitted(feed) && FeedCarriesSubmitted(feed[k..])
    requires Poll(feed, lastUpdate, server) == Then(pending, Poll(feed[k..], lastUpdate, server))
    requires Requested(feed, lastUpdate) == k + Requested(feed[k..], lastUpdate)
    ensures Poll(feed, lastUpdate, server) == Err(feed[k].error)
    ensures Requested(feed, lastUpdate) == k + 1
  {
    assert feed[k..][0] == feed[k];
  }

  /** One step of the walk over a page: the prefix through change i keeps what the
      prefix before it keeps plus what Classify keeps of change i, and stays fresh when
      change i is. */
  lemma ScanStep(changes: seq<Change>, i: nat, lastUpdate: Timestamp, server: Server)
    requires AllCarrySubmitted(changes) && i < |changes|
    ensures AllCarrySubmitted(changes[..i]) && AllCarrySubmitted(changes[..i + 1]) && CarriesSubmitted(changes[i])
    ensures Select(changes[..i + 1], lastUpdate, server)
      == Select(changes[..i], lastUpdate, server) + Emit(Classify(changes[i], lastUpdate, server))
    ensures AllFresh(changes[..i], lastUpdate) && Fresh(changes[i], lastUpdate) ==> AllFresh(changes[..i + 1], lastUpdate)
  {
    PrefixCarriesSubmitted(changes, i);
    PrefixCarriesSubmitted(changes, i + 1);
    assert changes[..i + 1][..i] == changes[..i];
    assert changes[..i + 1][i] == changes[i];
  }

  lemma FirstStaleAt(changes: seq<Change>, i: nat, lastUpdate: Timestamp)
    requires i < |changes| && AllFresh(changes[..i], lastUpdate) && !Fresh(changes[i], lastUpdate)
    ensures FirstStale(changes, lastUpdate) == i
  {
  }
}
