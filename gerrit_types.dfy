/** Data model of the multi-instance Gerrit client: changes with their revisions and
    messages, patchset-level comments, per-project query filters, accounts, errors,
    and the remote review service as seen through its REST gateway.

    Timestamps are integers; a larger value is a later time, and Go's
    `t.After(u)` is `t > u`. */
module GerritTypes {
  import opened Wrappers

  type Timestamp = int

  /** Status of a merged change. */
  const Merged: string := "MERGED"
  /** Status of an open (pending) change. */
  const New: string := "NEW"
  /** Key of the comment threads attached to a whole revision. */
  const PatchsetLevel: string := "/PATCHSET_LEVEL"

  /** One patchset of a change: when it was uploaded and its sequence number. */
  datatype Revision = Revision(created: Timestamp, number: int)

  /** A change message; `revisionNumber` is the patchset it was posted against. */
  datatype Message = Message(author: string, date: Timestamp, text: string, revisionNumber: int)

  /** A review comment as the comment listing returns it. */
  datatype Comment = Comment(author: string, updated: Timestamp, message: string, patchSet: int)

  /** A review request. `submitted` is present for merged changes. */
  datatype Change = Change(
    id: string,
    number: int,
    status: string,
    updated: Timestamp,
    submitted: Option<Timestamp>,
    currentRevision: string,
    revisions: map<string, Revision>,
    messages: seq<Message>)

  /** Branch restriction of one watched project; a missing filter (None) means none. */
  datatype QueryFilter = QueryFilter(branches: seq<string>, excludedBranches: seq<string>)

  /** Watched projects of one instance, each with its optional branch filter. */
  type ProjectFilters = map<string, Option<QueryFilter>>

  datatype AccountInfo = AccountInfo(accountId: int, name: string, email: string, username: string)

  /** Where the registry reads the active credential from. */
  datatype AuthSource = CookieFile(path: string) | TokenFile(path: string)

  datatype Error =
    | Transport(message: string)
    | InstanceNotFound(instance: string)
    | ProjectNotRegistered(project: string, instance: string)
    | ProjectQueryFailed(project: string, instance: string, cause: Error)
    | NoHandlers
    | AccountLookupFailed(cause: Error)
    | FlagFormat(value: string)
    | DuplicateHost(host: string)

  type PageResult = Result<seq<Change>, Error>
  type CommentsResult = Result<map<string, seq<Comment>>, Error>

  /** One "list changes" call: the query, the offset `start` and the page size `limit`. */
  datatype PageRequest = PageRequest(query: string, start: int, limit: int)

  /** A merged change carries its submission time (the poller dereferences it). */
  predicate CarriesSubmitted(c: Change)
  {
    c.status == Merged ==> c.submitted.Some?
  }

  predicate AllCarrySubmitted(changes: seq<Change>)
  {
    forall j :: 0 <= j < |changes| ==> CarriesSubmitted(changes[j])
  }

  /** Every page a feed can serve is well formed. */
  predicate FeedCarriesSubmitted(feed: seq<PageResult>)
  {
    forall k :: 0 <= k < |feed| && feed[k].Ok? ==> AllCarrySubmitted(feed[k].value)
  }

  /** Number of changes a response carries (an error carries none). */
  function PageLen(page: PageResult): nat
  {
    if page.Ok? then |page.value| else 0
  }

  /** The offset at which page `k` of a feed begins: the total length of the pages before it. */
  function Offset(feed: seq<PageResult>, k: nat): int
    requires k <= |feed|
  {
    if k == 0 then 0 else PageLen(feed[0]) + Offset(feed[1..], k - 1)
  }

  /** The page of `feed` that begins at offset `start`. A feed lays the listing of one
      query out as consecutive non-empty pages; past its end, or at an offset where no
      page begins, the service answers with an empty page. */
  function PageAt(feed: seq<PageResult>, start: int): PageResult
  {
    if feed == [] then Ok([])
    else if start == 0 then feed[0]
    else if feed[0].Ok? && 0 < |feed[0].value| <= start then PageAt(feed[1..], start - |feed[0].value|)
    else Ok([])
  }

  /** The review service behind one instance, as the gateway exposes it. For each query
      string, `listings` holds the pages of the listing (newest update first, as the
      "list changes" endpoint documents), possibly ending in a transport error;
      `comments` holds the comment threads of each change by change id; `self` is the
      answer to an account lookup of the authenticated user. */
  datatype Server = Server(
    listings: map<string, seq<PageResult>>,
    comments: map<string, CommentsResult>,
    self: Result<AccountInfo, Error>)
  {
    function Feed(query: string): seq<PageResult>
    {
      if query in listings then listings[query] else []
    }

    /** changeService.QueryChanges */
    function QueryChanges(req: PageRequest): PageResult
    {
      PageAt(Feed(req.query), req.start)
    }

    /** changeService.ListChangeComments; a change without threads lists none. */
    function ListChangeComments(id: string): CommentsResult
    {
      if id in comments then comments[id] else Ok(map[])
    }

    /** Every merged change the service lists carries its submission time. */
    predicate Valid()
    {
      forall q :: q in listings ==> FeedCarriesSubmitted(listings[q])
    }

    /** No change in any listing was updated after `t`. */
    predicate NothingAfter(t: Timestamp)
    {
      forall q, k, j :: q in listings && 0 <= k < |listings[q]| && listings[q][k].Ok? && 0 <= j < |listings[q][k].value|
        ==> listings[q][k].value[j].updated <= t
    }
  }

  /** `order` lists every key of `keys` exactly once: one enumeration of a Go map,
      whose iteration order is unspecified. */
  predicate IsEnumeration<K>(order: seq<K>, keys: set<K>)
  {
    && (forall i, j :: 0 <= i < j < |order| ==> order[i] != order[j])
    && (forall i :: 0 <= i < |order| ==> order[i] in keys)
    && (forall k :: k in keys ==> k in order)
  }
}
