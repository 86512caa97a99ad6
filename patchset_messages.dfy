/** injectPatchsetMessages as pure definitions: patchset-level comments become change
    messages, and the messages are then stably sorted by date (Go's sort.SliceStable
    with `Date.Before` as the order). */
module PatchsetMessages {
  import opened Wrappers
  import opened GerritTypes

  /** The synthetic message a patchset-level comment becomes. */
  function AsMessage(c: Comment): Message
  {
    Message(c.author, c.updated, c.message, c.patchSet)
  }

  function AsMessages(cs: seq<Comment>): (r: seq<Message>)
    ensures |r| == |cs|
    ensures forall i :: 0 <= i < |cs| ==> r[i] == AsMessage(cs[i])
  {
    seq(|cs|, i requires 0 <= i < |cs| => AsMessage(cs[i]))
  }

  /** Non-decreasing dates. */
  ghost predicate Sorted(ms: seq<Message>)
  {
    forall i, j :: 0 <= i < j < |ms| ==> ms[i].date <= ms[j].date
  }

  /** The messages dated `d`, in their order in `ms`. */
  function DatedAt(ms: seq<Message>, d: Timestamp): seq<Message>
  {
    if ms == [] then []
    else (if ms[0].date == d then [ms[0]] else []) + DatedAt(ms[1..], d)
  }

  /** A sort is stable when every group of equally dated messages keeps its order. */
  ghost predicate SameDateGroups(a: seq<Message>, b: seq<Message>)
  {
    forall d :: DatedAt(a, d) == DatedAt(b, d)
  }

  /** Places `m` in front of the first message not dated before it. */
  function Insert(m: Message, ms: seq<Message>): (r: seq<Message>)
    ensures multiset(r) == multiset([m] + ms) && |r| == |ms| + 1
  {
    if ms == [] || m.date <= ms[0].date then [m] + ms
    else
      assert ms == [ms[0]] + ms[1..];
      [ms[0]] + Insert(m, ms[1..])
  }

  /** A lower bound on the dates of `m` and of `ms` bounds the dates after insertion. */
  lemma {:induction false} InsertBound(m: Message, ms: seq<Message>, bound: Timestamp)
    requires bound <= m.date && forall j :: 0 <= j < |ms| ==> bound <= ms[j].date
    ensures forall j :: 0 <= j < |Insert(m, ms)| ==> bound <= Insert(m, ms)[j].date
    decreases |ms|
  {
    if !(ms == [] || m.date <= ms[0].date) {
      assert forall j :: 0 <= j < |ms[1..]| ==> ms[1..][j] == ms[j + 1];
      InsertBound(m, ms[1..], bound);
      var r := [ms[0]] + Insert(m, ms[1..]);
      assert forall j :: 1 <= j < |r| ==> r[j] == Insert(m, ms[1..])[j - 1];
    }
  }

  /** Inserting into sorted messages keeps them sorted. */
  lemma {:induction false} InsertSorted(m: Message, ms: seq<Message>)
    requires Sorted(ms)
    ensures Sorted(Insert(m, ms))
    decreases |ms|
  {
    if !(ms == [] || m.date <= ms[0].date) {
      var rest := Insert(m, ms[1..]);
      InsertSorted(m, ms[1..]);
      assert forall j :: 0 <= j < |ms[1..]| ==> ms[0].date <= ms[1..][j].date by {
        assert forall j :: 0 <= j < |ms[1..]| ==> ms[1..][j] == ms[j + 1];
      }
      InsertBound(m, ms[1..], ms[0].date);
      assert forall j :: 0 <= j < |rest| ==> ms[0].date <= rest[j].date;
      assert Sorted([ms[0]] + rest) by {
        forall i, j | 0 <= i < j < |rest| + 1 ensures ([ms[0]] + rest)[i].date <= ([ms[0]] + rest)[j].date {
          assert ([ms[0]] + rest)[j] == rest[j - 1];
          if i > 0 {
            assert ([ms[0]] + rest)[i] == rest[i - 1];
          }
        }
      }
    }
  }

  /** Stable insertion sort by date. */
  function SortByDate(ms: seq<Message>): (r: seq<Message>)
    ensures Sorted(r)
    ensures multiset(r) == multiset(ms) && |r| == |ms|
  {
    if ms == [] then []
    else
      assert ms == [ms[0]] + ms[1..];
      InsertSorted(ms[0], SortByDate(ms[1..]));
      Insert(ms[0], SortByDate(ms[1..]))
  }

  lemma {:induction false} DatedAtInsert(m: Message, ms: seq<Message>, d: Timestamp)
    ensures DatedAt(Insert(m, ms), d) == DatedAt([m] + ms, d)
    decreases |ms|
  {
    if ms == [] || m.date <= ms[0].date {
    } else {
      var rest := Insert(m, ms[1..]);
      DatedAtInsert(m, ms[1..], d);
      assert ([ms[0]] + rest)[1..] == rest;
      assert ([m] + ms[1..])[1..] == ms[1..];
      assert ([m] + ms)[1..] == ms;
    }
  }

  /** SortByDate is stable: messages with equal dates keep their relative order. */
  lemma {:induction false} SortByDateIsStable(ms: seq<Message>)
    ensures SameDateGroups(SortByDate(ms), ms)
    decreases |ms|
  {
    if ms != [] {
      SortByDateIsStable(ms[1..]);
      forall d ensures DatedAt(SortByDate(ms), d) == DatedAt(ms, d) {
        DatedAtInsert(ms[0], SortByDate(ms[1..]), d);
        assert DatedAt(SortByDate(ms[1..]), d) == DatedAt(ms[1..], d);
        assert ([ms[0]] + SortByDate(ms[1..]))[1..] == SortByDate(ms[1..]);
      }
    }
  }

  lemma {:induction false} DatedAtMember(ms: seq<Message>, d: Timestamp)
    requires DatedAt(ms, d) != []
    ensures exists j :: 0 <= j < |ms| && ms[j].date == d
    decreases |ms|
  {
    if ms[0].date != d {
      DatedAtMember(ms[1..], d);
      var j :| 0 <= j < |ms[1..]| && ms[1..][j].date == d;
      assert ms[j + 1].date == d;
    }
  }

  lemma DatedAtOwnDate(ms: seq<Message>)
    requires ms != []
    ensures DatedAt(ms, ms[0].date) == [ms[0]] + DatedAt(ms[1..], ms[0].date)
  {
  }

  lemma EmptyGroups(a: seq<Message>, b: seq<Message>)
    requires SameDateGroups(a, b)
    ensures a == [] <==> b == []
  {
    if a != [] {
      DatedAtOwnDate(a);
      assert DatedAt(b, a[0].date) != [];
    }
    if b != [] {
      DatedAtOwnDate(b);
      assert DatedAt(a, b[0].date) != [];
    }
  }

  /** Two date-sorted sequences with the same groups of equally dated messages are equal. */
  lemma {:induction false} SortedGroupsDetermine(a: seq<Message>, b: seq<Message>)
    requires Sorted(a) && Sorted(b) && SameDateGroups(a, b)
    ensures a == b
    decreases |a|
  {
    if a == [] || b == [] {
      EmptyGroups(a, b);
    } else {
      var d := a[0].date;
      assert DatedAt(b, d) == DatedAt(a, d) != [];
      DatedAtMember(b, d);
      assert b[0].date <= d;
      assert DatedAt(a, b[0].date) == DatedAt(b, b[0].date) != [];
      DatedAtMember(a, b[0].date);
      assert d <= b[0].date;
      assert b[0].date == d;
      DatedAtOwnDate(a);
      DatedAtOwnDate(b);
      assert DatedAt(a, d)[0] == a[0];
      assert DatedAt(b, d)[0] == b[0];
      assert a[0] == b[0];
      forall e ensures DatedAt(a[1..], e) == DatedAt(b[1..], e) {
        var head := if a[0].date == e then [a[0]] else [];
        assert DatedAt(a, e) == head + DatedAt(a[1..], e);
        assert DatedAt(b, e) == head + DatedAt(b[1..], e);
        assert DatedAt(a[1..], e) == DatedAt(a, e)[|head|..];
        assert DatedAt(b[1..], e) == DatedAt(b, e)[|head|..];
      }
      SortedGroupsDetermine(a[1..], b[1..]);
      assert a == [a[0]] + a[1..];
      assert b == [b[0]] + b[1..];
    }
  }

  /** Any stable sort by date gives exactly SortByDate's result, so the model does not
      depend on which stable algorithm the library uses. */
  lemma StableSortIsUnique(ms: seq<Message>, sorted: seq<Message>)
    requires Sorted(sorted) && SameDateGroups(sorted, ms)
    ensures sorted == SortByDate(ms)
  {
    SortByDateIsStable(ms);
    SortedGroupsDetermine(sorted, SortByDate(ms));
  }

  /** The change after injectPatchsetMessages: unchanged when the comment listing fails or
      has no patchset-level thread; otherwise its messages plus one message per
      patchset-level comment, stably sorted by date when at least one was added. */
  function Injected(change: Change, listed: CommentsResult): (r: Change)
    ensures r.(messages := change.messages) == change
    ensures !(listed.Ok? && PatchsetLevel in listed.value) ==> r == change
    ensures listed.Ok? && PatchsetLevel in listed.value ==>
      |r.messages| == |change.messages| + |listed.value[PatchsetLevel]|
  {
    match listed
    case Err(_) => change
    case Ok(threads) =>
      if PatchsetLevel !in threads then change
      else
        var comments := threads[PatchsetLevel];
        if |comments| == 0 then change
        else change.(messages := SortByDate(change.messages + AsMessages(comments)))
  }

  /** What the injection promises: nothing changes on a failed listing or without a
      patchset-level thread; otherwise the messages grow by exactly the comments, as a
      permutation of the old messages and the new ones, sorted by date, with equally
      dated messages in their prior order; no other field changes. */
  lemma InjectedSpec(change: Change, listed: CommentsResult)
    ensures var r := Injected(change, listed);
      && r.(messages := change.messages) == change
      && (listed.Err? ==> r == change)
      && (listed.Ok? && PatchsetLevel !in listed.value ==> r == change)
      && (listed.Ok? && PatchsetLevel in listed.value ==>
            var added := AsMessages(listed.value[PatchsetLevel]);
            && |r.messages| == |change.messages| + |added|
            && multiset(r.messages) == multiset(change.messages + added)
            && (added == [] ==> r == change)
            && (added != [] ==> Sorted(r.messages) && SameDateGroups(r.messages, change.messages + added)))
  {
    if listed.Ok? && PatchsetLevel in listed.value {
      var added := AsMessages(listed.value[PatchsetLevel]);
      if added != [] {
        SortByDateIsStable(change.messages + added);
      }
    }
  }

  /** Some message posted against revision `revision` is dated after `since`. */
  predicate HasNewMessage(ms: seq<Message>, revision: int, since: Timestamp)
  {
    exists i :: 0 <= i < |ms| && ms[i].revisionNumber == revision && ms[i].date > since
  }

  /** Messages of a permutation have a new message on a revision exactly when the
      original has one. */
  lemma HasNewMessagePermutation(a: seq<Message>, b: seq<Message>, revision: int, since: Timestamp)
    requires multiset(a) == multiset(b)
    ensures HasNewMessage(a, revision, since) ==> HasNewMessage(b, revision, since)
  {
    if HasNewMessage(a, revision, since) {
      var i :| 0 <= i < |a| && a[i].revisionNumber == revision && a[i].date > since;
      assert a[i] in multiset(a);
      assert a[i] in b;
      var j :| 0 <= j < |b| && b[j] == a[i];
    }
  }

  /** The messages plus the injected comments have a new message on a revision exactly
      when the messages do or one of the comments is on it and newer. */
  lemma HasNewMessageAppended(ms: seq<Message>, comments: seq<Comment>, revision: int, since: Timestamp)
    ensures HasNewMessage(ms + AsMessages(comments), revision, since)
        <==> HasNewMessage(ms, revision, since)
             || exists c :: c in comments && c.patchSet == revision && c.updated > since
  {
    var all := ms + AsMessages(comments);
    if exists c :: c in comments && c.patchSet == revision && c.updated > since {
      var c :| c in comments && c.patchSet == revision && c.updated > since;
      var i :| 0 <= i < |comments| && comments[i] == c;
      assert all[|ms| + i] == AsMessage(c);
    }
    if HasNewMessage(ms, revision, since) {
      var i :| 0 <= i < |ms| && ms[i].revisionNumber == revision && ms[i].date > since;
      assert all[i] == ms[i];
    }
    if HasNewMessage(all, revision, since) {
      var i :| 0 <= i < |all| && all[i].revisionNumber == revision && all[i].date > since;
      if i < |ms| {
        assert all[i] == ms[i];
      } else {
        assert comments[i - |ms|] in comments;
      }
    }
  }

  /** After injection, a revision has a new message exactly when it had one before or a
      patchset-level comment on it was updated after `since`. */
  lemma NewMessageAfterInjection(change: Change, listed: CommentsResult, revision: int, since: Timestamp)
    ensures HasNewMessage(Injected(change, listed).messages, revision, since)
        <==> HasNewMessage(change.messages, revision, since)
             || (listed.Ok? && PatchsetLevel in listed.value &&
                 exists c :: c in listed.value[PatchsetLevel] && c.patchSet == revision && c.updated > since)
  {
    InjectedSpec(change, listed);
    if listed.Ok? && PatchsetLevel in listed.value {
      var comments := listed.value[PatchsetLevel];
      var all := change.messages + AsMessages(comments);
      var r := Injected(change, listed).messages;
      if comments != [] {
        HasNewMessagePermutation(r, all, revision, since);
        HasNewMessagePermutation(all, r, revision, since);
      }
      HasNewMessageAppended(change.messages, comments, revision, since);
    }
  }
}
