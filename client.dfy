/** Client: the registry of instance handlers, the shared credential, the account cache,
    and the fan-out of change queries over instances. */
module Registry {
  import opened Wrappers
  import opened GerritTypes
  import opened QueryFilters
  import opened ChangePoller
  import opened InstanceHandlers

  /** Instance -> project -> last sync time. */
  type LastSyncState = map<string, map<string, Timestamp>>

  /** LastSyncState.DeepCopy: a copy that shares nothing with the original. Maps are
      values here, so the copy is equal to the original and independent of it. */
  function DeepCopy(l: LastSyncState): (r: LastSyncState)
    ensures r == l
  {
    var r := map host | host in l :: map project | project in l[host] :: l[host][project];
    assert forall host :: host in r ==> r[host] == l[host];
    r
  }

  /** The sync times of one instance; an instance never synced has none. */
  function InstanceState(lastState: LastSyncState, instance: string): (r: map<string, Timestamp>)
    ensures instance in lastState ==> r == lastState[instance]
    ensures instance !in lastState ==> r == map[]
  {
    if instance in lastState then lastState[instance] else map[]
  }

  /** The credential a read of the secret yields; a failed read yields the empty string. */
  function TokenOf(read: Result<string, Error>): string
  {
    if read.Ok? then read.value else ""
  }

  /** The creation errors UpdateClients collects, in the order the instances are visited:
      one per instance without a handler whose gateway cannot be created. */
  function Failures(order: seq<string>, known: set<string>, dial: map<string, Result<Server, Error>>): (r: seq<Error>)
    requires forall i :: 0 <= i < |order| ==> order[i] in dial
  {
    if order == [] then []
    else
      var last := order[|order| - 1];
      Failures(order[..|order| - 1], known, dial)
      + (if last !in known && dial[last].Err? then [dial[last].error] else [])
  }

  /** The map built from instance polls taken in order, skipping the polls that
      yield no changes. */
  function Collect(polled: seq<(string, seq<Change>)>): map<string, seq<Change>>
  {
    if polled == [] then map[]
    else
      var n := |polled| - 1;
      var before := Collect(polled[..n]);
      if polled[n].1 == [] then before else before[polled[n].0 := polled[n].1]
  }

  lemma CollectStep(polled: seq<(string, seq<Change>)>, instance: string, changes: seq<Change>)
    ensures (polled + [(instance, changes)])[..|polled|] == polled
    ensures Collect(polled + [(instance, changes)])
      == if changes == [] then Collect(polled) else Collect(polled)[instance := changes]
  {
    assert (polled + [(instance, changes)])[..|polled|] == polled;
  }

  /** When no instance is polled twice, the collected map holds exactly the polled
      instances that yielded changes, each with the changes of its poll. */
  lemma {:induction false} CollectSpec(polled: seq<(string, seq<Change>)>)
    requires forall n, m :: 0 <= n < m < |polled| ==> polled[n].0 != polled[m].0
    ensures forall i :: i in Collect(polled) ==> exists n :: 0 <= n < |polled| && polled[n].0 == i
    ensures forall n :: 0 <= n < |polled| ==>
      (polled[n].0 in Collect(polled) <==> polled[n].1 != [])
      && (polled[n].0 in Collect(polled) ==> Collect(polled)[polled[n].0] == polled[n].1)
    decreases |polled|
  {
    if polled != [] {
      var last := |polled| - 1;
      var prefix := polled[..last];
      CollectSpec(prefix);
      forall i | i in Collect(polled) ensures exists n :: 0 <= n < |polled| && polled[n].0 == i {
        if i != polled[last].0 {
          var n :| 0 <= n < last && prefix[n].0 == i;
          assert polled[n] == prefix[n];
        }
      }
      forall n | 0 <= n < last ensures polled[n] == prefix[n] && prefix[n].0 != polled[last].0 {}
    }
  }

  /** The collected errors are exactly the creation errors of the visited instances
      that had no handler. */
  lemma {:induction false} FailuresAreCreationErrors(order: seq<string>, known: set<string>, dial: map<string, Result<Server, Error>>)
    requires forall i :: 0 <= i < |order| ==> order[i] in dial
    ensures forall e :: e in Failures(order, known, dial) <==>
      exists j :: 0 <= j < |order| && order[j] !in known && dial[order[j]] == Err(e)
    decreases |order|
  {
    if order != [] {
      var n := |order| - 1;
      var prefix := order[..n];
      FailuresAreCreationErrors(prefix, known, dial);
      forall e ensures e in Failures(order, known, dial) <==>
        exists j :: 0 <= j < |order| && order[j] !in known && dial[order[j]] == Err(e)
      {
        if e in Failures(order, known, dial) {
          if e in Failures(prefix, known, dial) {
            var j :| 0 <= j < n && prefix[j] !in known && dial[prefix[j]] == Err(e);
            assert order[j] == prefix[j];
          } else {
            assert order[n] !in known && dial[order[n]] == Err(e);
          }
        }
        if exists j :: 0 <= j < |order| && order[j] !in known && dial[order[j]] == Err(e) {
          var j :| 0 <= j < |order| && order[j] !in known && dial[order[j]] == Err(e);
          if j < n {
            assert prefix[j] == order[j];
          }
        }
      }
    }
  }

  /** What the loop of UpdateClients has planned after visiting `order[..n]` (the set
      `seen`): a handler for every visited instance that had one or whose gateway could
      be created, each filed under its instance, the old ones kept, and the creation
      errors so far. */
  ghost predicate Planned(order: seq<string>, n: nat, seen: set<string>, instances: map<string, ProjectFilters>,
                          handlers: map<string, InstanceHandler>, dial: map<string, Result<Server, Error>>,
                          newHandlers: map<string, InstanceHandler>, errs: seq<Error>)
  {
    && n <= |order| && seen <= instances.Keys <= dial.Keys
    && (forall j :: 0 <= j < |order| ==> order[j] in instances)
    && (forall j :: 0 <= j < n ==> order[j] in seen)
    && (forall i :: i in newHandlers <==> i in seen && (i in handlers || dial[i].Ok?))
    && (forall i :: i in newHandlers ==> newHandlers[i].instance == i)
    && (forall i :: i in newHandlers && i in handlers ==> newHandlers[i] == handlers[i])
    && (forall i :: i in newHandlers && i !in handlers ==> Ok(newHandlers[i].server) == dial[i])
    && errs == Failures(order[..n], handlers.Keys, dial)
  }

  /** Visiting `order[n]`: an instance with a handler keeps it, one without gets a handler
      over its gateway or contributes the creation error. */
  lemma PlanStep(order: seq<string>, n: nat, seen: set<string>, instances: map<string, ProjectFilters>,
                 handlers: map<string, InstanceHandler>, dial: map<string, Result<Server, Error>>,
                 newHandlers: map<string, InstanceHandler>, errs: seq<Error>,
                 added: Option<InstanceHandler>, failed: Option<Error>)
    requires Planned(order, n, seen, instances, handlers, dial, newHandlers, errs) && n < |order|
    requires order[n] in handlers ==> added == Some(handlers[order[n]]) && handlers[order[n]].instance == order[n] && failed.None?
    requires order[n] !in handlers && dial[order[n]].Err? ==> added.None? && failed == Some(dial[order[n]].error)
    requires order[n] !in handlers && dial[order[n]].Ok? ==>
      added.Some? && added.value.instance == order[n] && Ok(added.value.server) == dial[order[n]] && failed.None?
    ensures Planned(order, n + 1, seen + {order[n]}, instances, handlers, dial,
                    if added.Some? then newHandlers[order[n] := added.value] else newHandlers,
                    if failed.Some? then errs + [failed.value] else errs)
  {
    assert order[..n + 1][..n] == order[..n];
  }

  class Client {
    var handlers: map<string, InstanceHandler>
    var accounts: map<string, AccountInfo>
    var authentication: Option<AuthSource>
    var previousToken: string
    /** Number of credential rotators started. */
    ghost var rotators: nat

    /** Each handler is filed under its own instance, and a rotator runs exactly when a
        credential source is set. */
    ghost predicate Valid()
      reads this
    {
      && (forall i :: i in handlers ==> handlers[i].instance == i && handlers[i].Valid())
      && rotators == (if authentication.Some? then 1 else 0)
    }

    /** The authentication services of the current handlers. */
    ghost function Auths(): set<AuthService>
      reads this
    {
      set i | i in handlers :: handlers[i].auth
    }

    constructor ()
      ensures Valid()
      ensures handlers == map[] && accounts == map[] && authentication.None? && previousToken == ""
    {
      handlers := map[];
      accounts := map[];
      authentication := None;
      previousToken := "";
      rotators := 0;
    }

    /** UpdateClients: reconciles the handlers with the desired instances, visited in the
        enumeration `order`. A desired instance that has a handler keeps that handler with
        its projects replaced; one without gets a new handler over the gateway `dial`
        creates for it (`dial`, the outcome of creating a gateway client for each
        instance), unless the creation fails, in which case the error is collected
        and the other instances are still applied; every other handler is dropped. */
    method UpdateClients(instances: map<string, ProjectFilters>, order: seq<string>, dial: map<string, Result<Server, Error>>)
      returns (errs: seq<Error>)
      requires Valid()
      requires IsEnumeration(order, instances.Keys) && instances.Keys <= dial.Keys
      requires forall i :: i in instances && dial[i].Ok? ==> dial[i].value.Valid()
      modifies this, handlers.Values
      ensures Valid()
      ensures forall i :: i in handlers <==> i in instances && (i in old(handlers) || dial[i].Ok?)
      ensures forall i :: i in handlers ==> handlers[i].projects == instances[i]
      ensures forall i :: i in handlers && i in old(handlers) ==> handlers[i] == old(handlers[i])
      ensures forall i :: i in handlers && i !in old(handlers) ==>
        fresh(handlers[i]) && fresh(handlers[i].auth) && handlers[i].auth.cookie.None? && Ok(handlers[i].server) == dial[i]
      ensures errs == Failures(order, old(handlers).Keys, dial)
      ensures forall i :: i in old(handlers) && i !in instances ==> old(handlers)[i].projects == old(handlers[i].projects)
      ensures accounts == old(accounts) && authentication == old(authentication) && previousToken == old(previousToken)
    {
      var newHandlers;
      newHandlers, errs := ReconcileAll(instances, order, dial);
      assert forall i :: i in newHandlers ==> newHandlers[i].Valid() by {
        forall i | i in newHandlers ensures newHandlers[i].Valid() {
          if i in handlers {
            assert handlers[i].Valid();
          }
        }
      }
      handlers := newHandlers;
    }

    /** The loop of UpdateClients: visits the instances in `order`, reconciling each, and
        collects the handlers to keep and the creation errors. */
    method ReconcileAll(instances: map<string, ProjectFilters>, order: seq<string>, dial: map<string, Result<Server, Error>>)
      returns (newHandlers: map<string, InstanceHandler>, errs: seq<Error>)
      requires (forall j :: 0 <= j < |order| ==> order[j] in instances) && (forall i :: i in instances ==> i in order)
      requires instances.Keys <= dial.Keys
      requires forall i :: i in handlers ==> handlers[i].instance == i
      modifies handlers.Values
      ensures forall i :: i in newHandlers <==> i in instances && (i in handlers || dial[i].Ok?)
      ensures forall i :: i in newHandlers ==> newHandlers[i].instance == i && newHandlers[i].projects == instances[i]
      ensures forall i :: i in newHandlers && i in handlers ==> newHandlers[i] == handlers[i]
      ensures forall i :: i in newHandlers && i !in handlers ==>
        fresh(newHandlers[i]) && fresh(newHandlers[i].auth) && newHandlers[i].auth.cookie.None? && Ok(newHandlers[i].server) == dial[i]
      ensures errs == Failures(order, handlers.Keys, dial)
      ensures forall i :: i in handlers && i !in instances ==> handlers[i].projects == old(handlers[i].projects)
    {
      newHandlers := map[];
      errs := [];
      ghost var seen: set<string> := {};
      for n := 0 to |order|
        invariant Planned(order, n, seen, instances, handlers, dial, newHandlers, errs)
        invariant forall i :: i in seen && i in handlers ==> handlers[i].projects == instances[i]
        invariant forall i :: i in handlers && i !in instances ==> handlers[i].projects == old(handlers[i].projects)
        invariant forall i :: i in newHandlers && i !in handlers ==>
          && fresh(newHandlers[i]) && fresh(newHandlers[i].auth)
          && newHandlers[i].auth.cookie.None? && newHandlers[i].projects == instances[i]
      {
        var instance := order[n];
        var added: Option<InstanceHandler> := None;
        var failed: Option<Error> := None;
        if instance in handlers {
          var handler := handlers[instance];
          handler.projects := instances[instance];
          added := Some(handler);
        } else {
          match dial[instance]
          case Err(e) =>
            failed := Some(e);
          case Ok(server) =>
            var handler := new InstanceHandler(instance, instances[instance], server);
            added := Some(handler);
        }
        PlanStep(order, n, seen, instances, handlers, dial, newHandlers, errs, added, failed);
        if added.Some? {
          newHandlers := newHandlers[instance := added.value];
        }
        if failed.Some? {
          errs := errs + [failed.value];
        }
        seen := seen + {instance};
      }
      assert order[..|order|] == order;
    }

    /** authenticateOnce: reads the credential (`read`; a failed read yields ""). When it
        differs from the last one pushed, it is remembered and set as the "o" cookie of
        every handler; otherwise nothing changes. */
    method AuthenticateOnce(read: Result<string, Error>)
      requires Valid() && authentication.Some?
      modifies this, Auths()
      ensures Valid()
      ensures previousToken == TokenOf(read)
      ensures TokenOf(read) == old(previousToken) ==> forall a :: a in old(Auths()) ==> a.cookie == old(a.cookie)
      ensures TokenOf(read) != old(previousToken) ==> forall a :: a in Auths() ==> a.cookie == Some(("o", TokenOf(read)))
      ensures handlers == old(handlers) && accounts == old(accounts)
      ensures authentication == old(authentication) && rotators == old(rotators)
    {
      var current := if read.Ok? then read.value else "";
      if current == previousToken {
        return;
      }
      previousToken := current;
      var todo := handlers.Keys;
      while todo != {}
        invariant todo <= handlers.Keys
        invariant forall i :: i in handlers && i !in todo ==> handlers[i].auth.cookie == Some(("o", current))
        invariant handlers == old(handlers) && accounts == old(accounts) && previousToken == current
        invariant authentication == old(authentication) && rotators == old(rotators)
        decreases todo
      {
        var i :| i in todo;
        handlers[i].auth.SetCookieAuth("o", current);
        todo := todo - {i};
      }
    }

    /** Authenticate: picks the credential source (a cookie file takes precedence over a
        token file; with neither the client stays anonymous and nothing changes), pushes
        its first reading `read` at once, and starts the rotator only the first time a
        source is set. */
    method Authenticate(cookiePath: string, tokenPath: string, read: Result<string, Error>)
      requires Valid()
      modifies this, Auths()
      ensures Valid()
      ensures cookiePath == "" && tokenPath == "" ==>
        && authentication == old(authentication) && previousToken == old(previousToken) && rotators == old(rotators)
        && forall a :: a in old(Auths()) ==> a.cookie == old(a.cookie)
      ensures cookiePath != "" ==> authentication == Some(CookieFile(cookiePath))
      ensures cookiePath == "" && tokenPath != "" ==> authentication == Some(TokenFile(tokenPath))
      ensures cookiePath != "" || tokenPath != "" ==>
        && previousToken == TokenOf(read)
        && rotators == 1
        && (TokenOf(read) != old(previousToken) ==> forall a :: a in Auths() ==> a.cookie == Some(("o", TokenOf(read))))
        && (TokenOf(read) == old(previousToken) ==> forall a :: a in old(Auths()) ==> a.cookie == old(a.cookie))
      ensures handlers == old(handlers) && accounts == old(accounts)
    {
      var source: AuthSource;
      if cookiePath != "" {
        source := CookieFile(cookiePath);
      } else if tokenPath != "" {
        source := TokenFile(tokenPath);
      } else {
        return;
      }
      var was := authentication;
      authentication := Some(source);
      if was.None? {
        rotators := rotators + 1;
      }
      AuthenticateOnce(read);
    }

    /** Account: the cached account of the instance, or else the account the instance's
        gateway reports for the authenticated user, which is then cached. */
    method Account(instance: string) returns (r: Result<AccountInfo, Error>)
      modifies this`accounts
      ensures instance in old(accounts) ==> r == Ok(old(accounts)[instance]) && accounts == old(accounts)
      ensures instance !in old(accounts) && instance !in handlers ==> r == Err(NoHandlers) && accounts == old(accounts)
      ensures instance !in old(accounts) && instance in handlers && handlers[instance].server.self.Err? ==>
        r == Err(AccountLookupFailed(handlers[instance].server.self.error)) && accounts == old(accounts)
      ensures instance !in old(accounts) && instance in handlers && handlers[instance].server.self.Ok? ==>
        r == handlers[instance].server.self && accounts == old(accounts)[instance := r.value]
      ensures r.Ok? ==> instance in accounts && accounts[instance] == r.value
    {
      if instance in accounts {
        return Ok(accounts[instance]);
      }
      if instance !in handlers {
        return Err(NoHandlers);
      }
      var self := handlers[instance].server.self;
      if self.Err? {
        return Err(AccountLookupFailed(self.error));
      }
      accounts := accounts[instance := self.value];
      return Ok(self.value);
    }

    /** QueryChanges: polls every instance, visited in the enumeration `order`, each
        project of an instance in the enumeration `projectOrders[instance]`, and maps each
        instance that yields changes to them; instances yielding none are left out. Each
        instance's poll reads the clock itself: `clock[n]` is the reading taken when
        `order[n]` is polled. */
    method QueryChanges(lastState: LastSyncState, rateLimit: int, clock: seq<Timestamp>, order: seq<string>, projectOrders: map<string, seq<string>>)
      returns (result: map<string, seq<Change>>)
      requires Valid()
      requires IsEnumeration(order, handlers.Keys) && |clock| == |order|
      requires forall i :: i in handlers ==> i in projectOrders && IsEnumeration(projectOrders[i], handlers[i].projects.Keys)
      requires forall i, j :: i in handlers && 0 <= j < |projectOrders[i]| ==> projectOrders[i][j] in handlers[i].projects
      ensures forall i :: i in result ==> i in handlers
      ensures forall n :: 0 <= n < |order| ==>
        var i := order[n];
        (i in result <==> handlers[i].Gathered(projectOrders[i], InstanceState(lastState, i), clock[n]) != [])
        && (i in result ==> result[i] == handlers[i].Gathered(projectOrders[i], InstanceState(lastState, i), clock[n]))
    {
      result := map[];
      ghost var polled: seq<(string, seq<Change>)> := [];
      for n := 0 to |order|
        invariant |polled| == n
        invariant forall m :: 0 <= m < n ==>
          polled[m] == (order[m], handlers[order[m]].Gathered(projectOrders[order[m]], InstanceState(lastState, order[m]), clock[m]))
        invariant result == Collect(polled)
      {
        var h := handlers[order[n]];
        var changes := h.QueryAllChanges(InstanceState(lastState, h.instance), rateLimit, clock[n], projectOrders[h.instance]);
        CollectStep(polled, h.instance, changes);
        ghost var before := polled;
        polled := polled + [(h.instance, changes)];
        forall m | 0 <= m < n + 1
          ensures polled[m] == (order[m], handlers[order[m]].Gathered(projectOrders[order[m]], InstanceState(lastState, order[m]), clock[m]))
        {
          if m < n {
            assert polled[m] == before[m];
          }
        }
        if |changes| == 0 {
          continue;
        }
        result := result[h.instance := changes];
      }
      CollectSpec(polled);
      forall i | i in result ensures i in handlers {
        var m :| 0 <= m < |polled| && polled[m].0 == i;
      }
    }

    /** QueryChangesForInstance: the changes of one instance; an instance without a
        handler yields none (a soft miss). */
    method QueryChangesForInstance(instance: string, lastState: LastSyncState, rateLimit: int, now: Timestamp, projectOrder: seq<string>)
      returns (changes: seq<Change>)
      requires Valid()
      requires instance in handlers ==> IsEnumeration(projectOrder, handlers[instance].projects.Keys)
      ensures instance !in handlers ==> changes == []
      ensures instance in handlers ==> changes == handlers[instance].Gathered(projectOrder, InstanceState(lastState, instance), now)
    {
      if instance !in handlers {
        return [];
      }
      changes := handlers[instance].QueryAllChanges(InstanceState(lastState, instance), rateLimit, now, projectOrder);
    }

    /** QueryChangesForProject of the client: polls one registered project with the
        project's configured filter followed by `additionalFilters`. An unknown instance
        or project is an error (a hard miss), and a failed poll is reported as such. */
    method QueryChangesForProject(instance: string, project: string, lastUpdate: Timestamp, rateLimit: int, additionalFilters: seq<string>)
      returns (r: Result<seq<Change>, Error>)
      requires Valid()
      ensures instance !in handlers ==> r == Err(InstanceNotFound(instance))
      ensures instance in handlers && project !in handlers[instance].projects ==> r == Err(ProjectNotRegistered(project, instance))
      ensures instance in handlers && project in handlers[instance].projects ==>
        var h := handlers[instance];
        var poll := h.ProjectPoll(project, lastUpdate, QueryStrings(h.projects[project]) + additionalFilters);
        r == if poll.Err? then Err(ProjectQueryFailed(project, instance, poll.error)) else poll
    {
      if instance !in handlers {
        return Err(InstanceNotFound(instance));
      }
      var h := handlers[instance];
      if project !in h.projects {
        return Err(ProjectNotRegistered(project, instance));
      }
      var changes, _ := h.QueryChangesForProject(project, lastUpdate, rateLimit, QueryStrings(h.projects[project]) + additionalFilters);
      if changes.Err? {
        return Err(ProjectQueryFailed(project, instance, changes.error));
      }
      return changes;
    }
  }
}
