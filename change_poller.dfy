/** The change poller of one instance handler as functions of the page feed it is
    served: which changes it returns (Poll), how many pages it asks for (Requested)
    and at which offsets (Offset), with the properties the polling promises. */
module ChangePoller {
  import opened Wrappers
  import opened GerritTypes
  import opened PatchsetMessages

  /** Updated strictly after the watermark. */
  predicate Fresh(c: Change, lastUpdate: Timestamp)
  {
    c.updated > lastUpdate
  }

  predicate AllFresh(changes: seq<Change>, lastUpdate: Timestamp)
  {
    forall j :: 0 <= j < |changes| ==> Fresh(changes[j], lastUpdate)
  }

  /** Index of the first change not updated after the watermark, |changes| if none. */
  function FirstStale(changes: seq<Change>, lastUpdate: Timestamp): (n: nat)
    ensures n <= |changes|
    ensures AllFresh(changes[..n], lastUpdate)
    ensures n < |changes| ==> !Fresh(changes[n], lastUpdate)
  {
    if changes == [] || !Fresh(changes[0], lastUpdate) then 0
    else
      var n := 1 + FirstStale(changes[1..], lastUpdate);
      assert forall j :: 1 <= j < n ==> changes[..n][j] == changes[1..][..n - 1][j - 1];
      n
  }

  /** The changes before the first stale one. */
  function TakeFresh(changes: seq<Change>, lastUpdate: Timestamp): seq<Change>
  {
    changes[..FirstStale(changes, lastUpdate)]
  }

  /** What the poller keeps of one change updated after the watermark. A merged change
      counts when it was submitted after the watermark. An open change counts when its
      current revision is known and either that revision was created after the
      watermark or, once the patchset-level comments are injected, some message on it
      is dated after the watermark; the kept change is the one carrying the injected
      messages. Every other status is ignored. */
  function Classify(c: Change, lastUpdate: Timestamp, server: Server): (r: Option<Change>)
    requires CarriesSubmitted(c)
    ensures r.Some? ==> r.value.(messages := c.messages) == c
    ensures r.Some? ==> r.value.status == Merged || r.value.status == New
    ensures c.status == Merged ==> (r.Some? <==> c.submitted.value > lastUpdate) && (r.Some? ==> r.value == c)
    ensures c.status != Merged && c.status != New ==> r.None?
    ensures c.status == New && r.Some? ==> r.value == Injected(c, server.ListChangeComments(c.id))
    ensures c.status == New ==>
      (r.Some? <==>
        c.currentRevision in c.revisions &&
        (c.revisions[c.currentRevision].created > lastUpdate
         || HasNewMessage(c.messages, c.revisions[c.currentRevision].number, lastUpdate)
         || NewPatchsetComment(server.ListChangeComments(c.id), c.revisions[c.currentRevision].number, lastUpdate)))
  {
    if c.status == Merged then
      if c.submitted.value > lastUpdate then Some(c) else None
    else if c.status == New then
      if c.currentRevision !in c.revisions then None
      else
        var rev := c.revisions[c.currentRevision];
        var injected := Injected(c, server.ListChangeComments(c.id));
        InjectedSpec(c, server.ListChangeComments(c.id));
        NewMessageAfterInjection(c, server.ListChangeComments(c.id), rev.number, lastUpdate);
        if !HasNewMessage(injected.messages, rev.number, lastUpdate) && !(rev.created > lastUpdate) then None
        else Some(injected)
    else None
  }

  /** A patchset-level comment on `revision` was updated after `since`. */
  ghost predicate NewPatchsetComment(listed: CommentsResult, revision: int, since: Timestamp)
  {
    listed.Ok? && PatchsetLevel in listed.value &&
    exists c :: c in listed.value[PatchsetLevel] && c.patchSet == revision && c.updated > since
  }

  function Emit(o: Option<Change>): seq<Change>
  {
    if o.Some? then [o.value] else []
  }

  /** The changes kept from a run of changes, in order: at most one per listed change,
      and none from a run in which nothing is kept. */
  function Select(changes: seq<Change>, lastUpdate: Timestamp, server: Server): (r: seq<Change>)
    requires AllCarrySubmitted(changes)
    ensures |r| <= |changes|
  {
    if changes == [] then []
    else Select(changes[..|changes| - 1], lastUpdate, server) + Emit(Classify(changes[|changes| - 1], lastUpdate, server))
  }

  /** A page after which the poller asks for the next one: served, non-empty, and
      every change on it updated after the watermark. */
  predicate Continues(page: PageResult, lastUpdate: Timestamp)
  {
    page.Ok? && page.value != [] && AllFresh(page.value, lastUpdate)
  }

  function Then(acc: seq<Change>, r: Result<seq<Change>, Error>): Result<seq<Change>, Error>
  {
    match r
    case Ok(changes) => Ok(acc + changes)
    case Err(e) => Err(e)
  }

  /** The result of polling a feed: a transport error aborts the poll; an empty page ends
      it; a page holding a change not updated after the watermark ends it after the
      changes before that one; otherwise the kept changes of the page are followed by
      those of the next page. A feed that runs out answers with an empty page. */
  function Poll(feed: seq<PageResult>, lastUpdate: Timestamp, server: Server): (r: Result<seq<Change>, Error>)
    requires FeedCarriesSubmitted(feed)
  {
    if feed == [] then Ok([])
    else match feed[0]
      case Err(e) => Err(e)
      case Ok(page) =>
        if page == [] then Ok([])
        else if AllFresh(page, lastUpdate) then Then(Select(page, lastUpdate, server), Poll(feed[1..], lastUpdate, server))
        else Ok(Select(TakeFresh(page, lastUpdate), lastUpdate, server))
  }

  /** How many pages the poller asks for: one more after every page that Continues. */
  function Requested(feed: seq<PageResult>, lastUpdate: Timestamp): (n: nat)
    ensures 1 <= n <= |feed| + 1
  {
    if feed == [] || !Continues(feed[0], lastUpdate) then 1
    else 1 + Requested(feed[1..], lastUpdate)
  }

  // ----- a reference reading of the poll -----

  /** The changes the feed lists before it ends: at the first error, the first empty
      page, or the end of the feed. */
  function Served(feed: seq<PageResult>): seq<Change>
  {
    if feed == [] || feed[0].Err? || feed[0].value == [] then []
    else feed[0].value + Served(feed[1..])
  }

  /** The error that ends the listing, if it ends with one. */
  function EndError(feed: seq<PageResult>): Option<Error>
  {
    if feed == [] then None
    else if feed[0].Err? then Some(feed[0].error)
    else if feed[0].value == [] then None
    else EndError(feed[1..])
  }

  /** The poll stated over the whole listing: keep the changes of the recent prefix of
      everything served; the poll fails only when the listing ends in an error before any
      change at or before the watermark was reached. */
  function Reference(feed: seq<PageResult>, lastUpdate: Timestamp, server: Server): Result<seq<Change>, Error>
    requires FeedCarriesSubmitted(feed)
  {
    ServedCarrySubmitted(feed);
    var listing := Served(feed);
    var recent := TakeFresh(listing, lastUpdate);
    if EndError(feed).Some? && |recent| == |listing| then Err(EndError(feed).value)
    else Ok(Select(recent, lastUpdate, server))
  }

  lemma {:induction false} ServedCarrySubmitted(feed: seq<PageResult>)
    requires FeedCarriesSubmitted(feed)
    ensures AllCarrySubmitted(Served(feed))
    decreases |feed|
  {
    if !(feed == [] || feed[0].Err? || feed[0].value == []) {
      assert FeedCarriesSubmitted(feed[1..]) by {
        forall k | 0 <= k < |feed[1..]| && feed[1..][k].Ok? ensures AllCarrySubmitted(feed[1..][k].value) {
          assert feed[1..][k] == feed[k + 1];
        }
      }
      ServedCarrySubmitted(feed[1..]);
      assert AllCarrySubmitted(feed[0].value);
      var s := feed[0].value + Served(feed[1..]);
      forall j | 0 <= j < |s| ensures CarriesSubmitted(s[j]) {
        if j >= |feed[0].value| {
          assert s[j] == Served(feed[1..])[j - |feed[0].value|];
        }
      }
    }
  }

  lemma TailCarriesSubmitted(feed: seq<PageResult>)
    requires feed != [] && FeedCarriesSubmitted(feed)
    ensures FeedCarriesSubmitted(feed[1..])
  {
    forall k | 0 <= k < |feed[1..]| && feed[1..][k].Ok? ensures AllCarrySubmitted(feed[1..][k].value) {
      assert feed[1..][k] == feed[k + 1];
    }
  }

  lemma PrefixCarriesSubmitted(changes: seq<Change>, n: nat)
    requires n <= |changes| && AllCarrySubmitted(changes)
    ensures AllCarrySubmitted(changes[..n])
  {
    forall j | 0 <= j < n ensures CarriesSubmitted(changes[..n][j]) {
      assert changes[..n][j] == changes[j];
    }
  }

  /** Select distributes over concatenation. */
  lemma {:induction false} SelectAppend(a: seq<Change>, b: seq<Change>, lastUpdate: Timestamp, server: Server)
    requires AllCarrySubmitted(a) && AllCarrySubmitted(b)
    ensures AllCarrySubmitted(a + b)
    ensures Select(a + b, lastUpdate, server) == Select(a, lastUpdate, server) + Select(b, lastUpdate, server)
    decreases |b|
  {
    assert forall j :: 0 <= j < |a + b| ==> (a + b)[j] == if j < |a| then a[j] else b[j - |a|];
    if b == [] {
      assert a + b == a;
    } else {
      var b' := b[..|b| - 1];
      PrefixCarriesSubmitted(b, |b| - 1);
      SelectAppend(a, b', lastUpdate, server);
      assert (a + b)[..|a + b| - 1] == a + b';
    }
  }

  lemma AllFreshTail(a: seq<Change>, lastUpdate: Timestamp)
    requires a != [] && Fresh(a[0], lastUpdate)
    ensures AllFresh(a, lastUpdate) <==> AllFresh(a[1..], lastUpdate)
  {
    if AllFresh(a[1..], lastUpdate) {
      forall j | 0 <= j < |a| ensures Fresh(a[j], lastUpdate) {
        if j > 0 { assert a[j] == a[1..][j - 1]; }
      }
    }
  }

  lemma {:induction false} FirstStaleAppend(a: seq<Change>, b: seq<Change>, lastUpdate: Timestamp)
    ensures AllFresh(a, lastUpdate) ==> FirstStale(a + b, lastUpdate) == |a| + FirstStale(b, lastUpdate)
    ensures !AllFresh(a, lastUpdate) ==> FirstStale(a + b, lastUpdate) == FirstStale(a, lastUpdate)
    decreases |a|
  {
    if a == [] {
      assert a + b == b;
    } else {
      assert (a + b)[1..] == a[1..] + b;
      assert (a + b)[0] == a[0];
      FirstStaleAppend(a[1..], b, lastUpdate);
      if Fresh(a[0], lastUpdate) {
        AllFreshTail(a, lastUpdate);
      }
    }
  }

  lemma TakeFreshAppend(a: seq<Change>, b: seq<Change>, lastUpdate: Timestamp)
    ensures AllFresh(a, lastUpdate) ==> TakeFresh(a + b, lastUpdate) == a + TakeFresh(b, lastUpdate)
    ensures !AllFresh(a, lastUpdate) ==> TakeFresh(a + b, lastUpdate) == TakeFresh(a, lastUpdate)
  {
    FirstStaleAppend(a, b, lastUpdate);
    var n := FirstStale(a + b, lastUpdate);
    if AllFresh(a, lastUpdate) {
      assert (a + b)[..n] == a + b[..n - |a|];
    } else {
      assert (a + b)[..n] == a[..n];
    }
  }

  lemma {:induction false} TakeFreshAll(changes: seq<Change>, lastUpdate: Timestamp)
    ensures AllFresh(changes, lastUpdate) <==> FirstStale(changes, lastUpdate) == |changes|
  {
    var n := FirstStale(changes, lastUpdate);
    if n == |changes| {
      assert changes[..n] == changes;
    } else {
      assert !Fresh(changes[n], lastUpdate);
    }
  }

  /** The page-by-page poll equals the reference reading over the whole listing. */
  lemma {:induction false} PollMatchesReference(feed: seq<PageResult>, lastUpdate: Timestamp, server: Server)
    requires FeedCarriesSubmitted(feed)
    ensures Poll(feed, lastUpdate, server) == Reference(feed, lastUpdate, server)
    decreases |feed|
  {
    ServedCarrySubmitted(feed);
    if feed == [] || feed[0].Err? || feed[0].value == [] {
    } else {
      var page := feed[0].value;
      var rest := feed[1..];
      TailCarriesSubmitted(feed);
      ServedCarrySubmitted(rest);
      assert AllCarrySubmitted(page);
      PollMatchesReference(rest, lastUpdate, server);
      TakeFreshAppend(page, Served(rest), lastUpdate);
      TakeFreshAll(page, lastUpdate);
      var listing := Served(feed);
      assert listing == page + Served(rest);
      if AllFresh(page, lastUpdate) {
        assert TakeFresh(page, lastUpdate) == page;
        var tail := TakeFresh(Served(rest), lastUpdate);
        assert tail == Served(rest)[..FirstStale(Served(rest), lastUpdate)];
        PrefixCarriesSubmitted(Served(rest), FirstStale(Served(rest), lastUpdate));
        SelectAppend(page, tail, lastUpdate, server);
        assert |TakeFresh(listing, lastUpdate)| == |listing| <==> |tail| == |Served(rest)|;
      } else {
        var n := FirstStale(page, lastUpdate);
        assert n < |page|;
        assert |TakeFresh(listing, lastUpdate)| < |listing|;
      }
    }
  }

  /** The positions of a run whose changes Classify keeps, in increasing order. */
  ghost function Kept(changes: seq<Change>, lastUpdate: Timestamp, server: Server): seq<nat>
    requires AllCarrySubmitted(changes)
  {
    if changes == [] then []
    else
      var n := |changes| - 1;
      Kept(changes[..n], lastUpdate, server) + (if Classify(changes[n], lastUpdate, server).Some? then [n] else [])
  }

  /** Each kept change comes from its own kept position, in increasing order. */
  lemma {:induction false} KeptSound(changes: seq<Change>, lastUpdate: Timestamp, server: Server)
    requires AllCarrySubmitted(changes)
    ensures var r := Select(changes, lastUpdate, server);
      var index := Kept(changes, lastUpdate, server);
      && |index| == |r|
      && (forall i, j :: 0 <= i < j < |index| ==> index[i] < index[j])
      && (forall i :: 0 <= i < |index| ==>
            (index[i] < |changes|
             && r[i].(messages := changes[index[i]].messages) == changes[index[i]]
             && Classify(changes[index[i]], lastUpdate, server) == Some(r[i])))
    decreases |changes|
  {
    if changes != [] {
      var n := |changes| - 1;
      PrefixCarriesSubmitted(changes, n);
      KeptSound(changes[..n], lastUpdate, server);
      var before := Kept(changes[..n], lastUpdate, server);
      var o := Classify(changes[n], lastUpdate, server);
      assert Kept(changes, lastUpdate, server) == before + (if o.Some? then [n] else []);
      var r := Select(changes, lastUpdate, server);
      var r' := Select(changes[..n], lastUpdate, server);
      assert r == r' + Emit(o);
      forall i | 0 <= i < |before| ensures changes[..n][before[i]] == changes[before[i]] {
      }
    }
  }

  /** Every position whose change Classify keeps is a kept position. */
  lemma {:induction false} KeptComplete(changes: seq<Change>, lastUpdate: Timestamp, server: Server, j: nat)
    requires AllCarrySubmitted(changes)
    requires j < |changes| && Classify(changes[j], lastUpdate, server).Some?
    ensures j in Kept(changes, lastUpdate, server)
    decreases |changes|
  {
    var n := |changes| - 1;
    PrefixCarriesSubmitted(changes, n);
    if j < n {
      assert changes[..n][j] == changes[j];
      KeptComplete(changes[..n], lastUpdate, server, j);
    }
  }

  /** The kept changes are exactly what Classify keeps of the run, in order: each comes
      from its own position of the run (only its messages may differ), and every position
      whose change Classify keeps is one of those positions. */
  lemma SelectFromSource(changes: seq<Change>, lastUpdate: Timestamp, server: Server)
    returns (index: seq<nat>)
    requires AllCarrySubmitted(changes)
    ensures var r := Select(changes, lastUpdate, server);
      && |index| == |r|
      && (forall i, j :: 0 <= i < j < |index| ==> index[i] < index[j])
      && (forall i :: 0 <= i < |index| ==>
            (index[i] < |changes|
             && r[i].(messages := changes[index[i]].messages) == changes[index[i]]
             && Classify(changes[index[i]], lastUpdate, server) == Some(r[i])))
      && (forall j :: 0 <= j < |changes| && Classify(changes[j], lastUpdate, server).Some? ==> j in index)
  {
    index := Kept(changes, lastUpdate, server);
    KeptSound(changes, lastUpdate, server);
    forall j | 0 <= j < |changes| && Classify(changes[j], lastUpdate, server).Some?
      ensures j in index
    {
      KeptComplete(changes, lastUpdate, server, j);
    }
  }

  /** The poll's result is a subsequence of the served listing, in server order, made of
      merged or open changes updated strictly after the watermark; and every change before
      the first stale one that Classify keeps is in it. */
  lemma PollIsFreshSubsequence(feed: seq<PageResult>, lastUpdate: Timestamp, server: Server)
    returns (index: seq<nat>)
    requires FeedCarriesSubmitted(feed)
    ensures AllCarrySubmitted(Served(feed))
    ensures Poll(feed, lastUpdate, server).Ok? ==>
      var r := Poll(feed, lastUpdate, server).value;
      var listing := Served(feed);
      && |index| == |r|
      && (forall i, j :: 0 <= i < j < |index| ==> index[i] < index[j])
      && (forall i :: 0 <= i < |index| ==>
            (index[i] < |listing| && r[i].(messages := listing[index[i]].messages) == listing[index[i]]))
      && (forall i :: 0 <= i < |r| ==> r[i].updated > lastUpdate && (r[i].status == Merged || r[i].status == New))
      && (forall j :: 0 <= j < FirstStale(listing, lastUpdate) && Classify(listing[j], lastUpdate, server).Some? ==>
            exists i :: 0 <= i < |index| && index[i] == j && r[i] == Classify(listing[j], lastUpdate, server).value)
  {
    PollMatchesReference(feed, lastUpdate, server);
    ServedCarrySubmitted(feed);
    var listing := Served(feed);
    var n := FirstStale(listing, lastUpdate);
    PrefixCarriesSubmitted(listing, n);
    var recent := TakeFresh(listing, lastUpdate);
    index := SelectFromSource(recent, lastUpdate, server);
    if Poll(feed, lastUpdate, server).Ok? {
      var r := Poll(feed, lastUpdate, server).value;
      assert r == Select(recent, lastUpdate, server);
      forall i | 0 <= i < |index|
        ensures index[i] < |listing| && r[i].(messages := listing[index[i]].messages) == listing[index[i]]
        ensures r[i].updated > lastUpdate
      {
        assert recent[index[i]] == listing[index[i]];
        assert Fresh(recent[index[i]], lastUpdate);
      }
      forall j | 0 <= j < n && Classify(listing[j], lastUpdate, server).Some?
        ensures exists i :: 0 <= i < |index| && index[i] == j && r[i] == Classify(listing[j], lastUpdate, server).value
      {
        assert recent[j] == listing[j];
        var i :| 0 <= i < |index| && index[i] == j;
      }
    }
  }

  /** Every change a successful poll returns is merged or open and was updated strictly
      after the watermark. */
  lemma PollReturnsFresh(feed: seq<PageResult>, lastUpdate: Timestamp, server: Server)
    requires FeedCarriesSubmitted(feed)
    ensures Poll(feed, lastUpdate, server).Ok? ==>
      forall c :: c in Poll(feed, lastUpdate, server).value ==>
        c.updated > lastUpdate && (c.status == Merged || c.status == New)
  {
    var _ := PollIsFreshSubsequence(feed, lastUpdate, server);
  }

  /** A merged change listed before the first stale one and submitted after the watermark
      is returned by a successful poll, as listed. */
  lemma FreshMergeIsReturned(feed: seq<PageResult>, lastUpdate: Timestamp, server: Server, j: nat)
    requires FeedCarriesSubmitted(feed)
    requires Poll(feed, lastUpdate, server).Ok?
    requires j < FirstStale(Served(feed), lastUpdate)
    requires Served(feed)[j].status == Merged && Served(feed)[j].submitted.Some?
    requires Served(feed)[j].submitted.value > lastUpdate
    ensures Served(feed)[j] in Poll(feed, lastUpdate, server).value
  {
    var index := PollIsFreshSubsequence(feed, lastUpdate, server);
    var listing := Served(feed);
    assert Classify(listing[j], lastUpdate, server) == Some(listing[j]);
    var i :| 0 <= i < |index| && index[i] == j && Poll(feed, lastUpdate, server).value[i] == listing[j];
  }

  /** A listing in the order the "list changes" endpoint documents: newest update first. */
  predicate NewestFirst(cs: seq<Change>)
  {
    forall i, j :: 0 <= i < j < |cs| ==> cs[i].updated >= cs[j].updated
  }

  /** On a listing served newest first, a successful poll returns every change updated
      after the watermark that Classify keeps: the first stale change comes after all of
      them, so stopping there loses none. */
  lemma PollReturnsEveryFresh(feed: seq<PageResult>, lastUpdate: Timestamp, server: Server, j: nat)
    requires FeedCarriesSubmitted(feed)
    requires NewestFirst(Served(feed))
    requires Poll(feed, lastUpdate, server).Ok?
    requires j < |Served(feed)| && Served(feed)[j].updated > lastUpdate
    ensures CarriesSubmitted(Served(feed)[j])
    ensures Classify(Served(feed)[j], lastUpdate, server).Some? ==>
      Classify(Served(feed)[j], lastUpdate, server).value in Poll(feed, lastUpdate, server).value
  {
    var index := PollIsFreshSubsequence(feed, lastUpdate, server);
    var listing := Served(feed);
    var n := FirstStale(listing, lastUpdate);
    assert j < n;
    if Classify(listing[j], lastUpdate, server).Some? {
      var i :| 0 <= i < |index| && index[i] == j
        && Poll(feed, lastUpdate, server).value[i] == Classify(listing[j], lastUpdate, server).value;
    }
  }

  /** Without that order the poller can miss a change: a stale change listed first ends
      the walk before a merged change submitted after the watermark is seen. */
  lemma OutOfOrderFreshIsMissed(server: Server)
    ensures var stale := Change("a", 1, Merged, 5, Some(5), "", map[], []);
      var late := Change("b", 2, Merged, 20, Some(20), "", map[], []);
      var feed := [Ok([stale, late])];
      && !NewestFirst(Served(feed))
      && Classify(late, 10, server) == Some(late)
      && Poll(feed, 10, server) == Ok([])
  {
    var stale := Change("a", 1, Merged, 5, Some(5), "", map[], []);
    var late := Change("b", 2, Merged, 20, Some(20), "", map[], []);
    var feed := [Ok([stale, late])];
    assert Served(feed) == [stale, late];
    assert Served(feed)[0].updated < Served(feed)[1].updated;
    assert FirstStale([stale, late], 10) == 0;
  }

  /** The pages the poller asks for: every page but the last it asks for Continues, and
      the last one it asks for (when the feed has it) does not. So once a page is empty,
      failed, or holds a change at or before the watermark, no further page is asked for. */
  lemma {:induction false} RequestedPages(feed: seq<PageResult>, lastUpdate: Timestamp)
    ensures forall k :: 0 <= k < Requested(feed, lastUpdate) - 1 ==> Continues(feed[k], lastUpdate)
    ensures Requested(feed, lastUpdate) - 1 < |feed| ==> !Continues(feed[Requested(feed, lastUpdate) - 1], lastUpdate)
    decreases |feed|
  {
    if feed != [] && Continues(feed[0], lastUpdate) {
      RequestedPages(feed[1..], lastUpdate);
      forall k | 1 <= k < Requested(feed, lastUpdate) - 1 ensures Continues(feed[k], lastUpdate) {
        assert feed[k] == feed[1..][k - 1];
      }
    }
  }

  lemma SplicedCarriesSubmitted(feed: seq<PageResult>, n: nat, later: seq<PageResult>)
    requires FeedCarriesSubmitted(feed) && FeedCarriesSubmitted(later) && n <= |feed|
    ensures FeedCarriesSubmitted(feed[..n] + later)
  {
    var asked := feed[..n] + later;
    forall k | 0 <= k < |asked| && asked[k].Ok? ensures AllCarrySubmitted(asked[k].value) {
      if k < n { assert asked[k] == feed[k]; } else { assert asked[k] == later[k - n]; }
    }
  }

  /** Pages after the last one asked for change nothing: neither the result nor the
      number of requests. */
  lemma {:induction false} PollIgnoresLaterPages(feed: seq<PageResult>, later: seq<PageResult>, lastUpdate: Timestamp, server: Server)
    requires FeedCarriesSubmitted(feed) && FeedCarriesSubmitted(later)
    requires Requested(feed, lastUpdate) <= |feed|
    ensures var asked := feed[..Requested(feed, lastUpdate)] + later;
      && FeedCarriesSubmitted(asked)
      && Poll(asked, lastUpdate, server) == Poll(feed, lastUpdate, server)
      && Requested(asked, lastUpdate) == Requested(feed, lastUpdate)
    decreases |feed|
  {
    var n := Requested(feed, lastUpdate);
    var asked := feed[..n] + later;
    SplicedCarriesSubmitted(feed, n, later);
    assert asked[0] == feed[0];
    if Continues(feed[0], lastUpdate) {
      TailCarriesSubmitted(feed);
      PollIgnoresLaterPages(feed[1..], later, lastUpdate, server);
      assert asked[1..] == feed[1..][..n - 1] + later;
      var page := feed[0].value;
      assert Poll(asked, lastUpdate, server) == Then(Select(page, lastUpdate, server), Poll(asked[1..], lastUpdate, server));
      assert Poll(feed, lastUpdate, server) == Then(Select(page, lastUpdate, server), Poll(feed[1..], lastUpdate, server));
    }
  }

  /** Each request after the first starts where the previous page ended. */
  lemma {:induction false} OffsetStep(feed: seq<PageResult>, k: nat)
    requires k < |feed|
    ensures Offset(feed, k + 1) == Offset(feed, k) + PageLen(feed[k])
    decreases k
  {
    if k > 0 {
      OffsetStep(feed[1..], k - 1);
      assert feed[1..][k - 1] == feed[k];
    }
  }

  /** A request at the offset where page k begins is answered with page k. */
  lemma {:induction false} PageAtOffset(feed: seq<PageResult>, k: nat)
    requires k <= |feed|
    requires forall j :: 0 <= j < k ==> feed[j].Ok? && feed[j].value != []
    ensures PageAt(feed, Offset(feed, k)) == if k < |feed| then feed[k] else Ok([])
    decreases k
  {
    if k > 0 {
      PageAtOffset(feed[1..], k - 1);
      assert Offset(feed[1..], k - 1) >= 0 by { OffsetNonNegative(feed[1..], k - 1); }
      assert k - 1 < |feed[1..]| ==> feed[1..][k - 1] == feed[k];
    }
  }

  lemma {:induction false} OffsetNonNegative(feed: seq<PageResult>, k: nat)
    requires k <= |feed|
    ensures Offset(feed, k) >= 0
    decreases k
  {
    if k > 0 {
      OffsetNonNegative(feed[1..], k - 1);
    }
  }

  /** A failed poll fails with an error one of the pages it asked for was answered with. */
  lemma {:induction false} PollErrorIsServed(feed: seq<PageResult>, lastUpdate: Timestamp, server: Server)
    requires FeedCarriesSubmitted(feed)
    ensures var r := Poll(feed, lastUpdate, server);
      r.Err? ==> exists k :: 0 <= k < Requested(feed, lastUpdate) && k < |feed| && feed[k] == Err(r.error)
    decreases |feed|
  {
    if feed != [] && feed[0].Ok? && feed[0].value != [] && AllFresh(feed[0].value, lastUpdate) {
      TailCarriesSubmitted(feed);
      PollErrorIsServed(feed[1..], lastUpdate, server);
      var r := Poll(feed, lastUpdate, server);
      if r.Err? {
        assert Poll(feed[1..], lastUpdate, server) == Err(r.error);
        var k :| 0 <= k < Requested(feed[1..], lastUpdate) && k < |feed[1..]| && feed[1..][k] == Err(r.error);
        assert feed[k + 1] == Err(r.error);
      }
    }
  }

  /** A poll whose watermark is at or after every served update returns no change and asks
      for a single page. */
  lemma StaleFeedYieldsNothing(feed: seq<PageResult>, lastUpdate: Timestamp, server: Server)
    requires FeedCarriesSubmitted(feed)
    requires forall k, j :: 0 <= k < |feed| && feed[k].Ok? && 0 <= j < |feed[k].value| ==> feed[k].value[j].updated <= lastUpdate
    ensures Poll(feed, lastUpdate, server).Ok? ==> Poll(feed, lastUpdate, server).value == []
    ensures Requested(feed, lastUpdate) == 1
  {
    if feed != [] && feed[0].Ok? && feed[0].value != [] {
      var page := feed[0].value;
      assert !Fresh(page[0], lastUpdate);
      assert FirstStale(page, lastUpdate) == 0;
      assert TakeFresh(page, lastUpdate) == [];
    }
  }
}
