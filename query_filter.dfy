/** queryStringsFromQueryFilter and the query string of the change poller, with a
    reader of the filter strings that recovers the branch lists they were built from. */
module QueryFilters {
  import opened Wrappers
  import opened Strings
  import opened GerritTypes

  const BranchPrefix: string := "branch:"
  const ExcludedPrefix: string := "-branch:"

  /** `prefix` in front of every name. */
  function Prefixed(prefix: string, names: seq<string>): (r: seq<string>)
    ensures |r| == |names|
    ensures forall i :: 0 <= i < |names| ==> r[i] == prefix + names[i]
  {
    seq(|names|, i requires 0 <= i < |names| => prefix + names[i])
  }

  /** A parenthesised group: the terms joined by `+<conj>+`. */
  function Group(terms: seq<string>, conj: string): string
  {
    "(" + Join(terms, "+" + conj + "+") + ")"
  }

  /** queryStringsFromQueryFilter: no strings for a missing filter; otherwise an OR-group
      of `branch:` terms when there are included branches, followed by an AND-group of
      `-branch:` terms when there are excluded branches. */
  function QueryStrings(filter: Option<QueryFilter>): (r: seq<string>)
    ensures filter.None? ==> r == []
    ensures filter.Some? ==> |r| == (if filter.value.branches != [] then 1 else 0)
                                  + (if filter.value.excludedBranches != [] then 1 else 0)
    ensures forall i :: 0 <= i < |r| ==> HasPrefix(r[i], "(") && HasSuffix(r[i], ")")
  {
    match filter
    case None => []
    case Some(f) =>
      (if f.branches != [] then [Group(Prefixed(BranchPrefix, f.branches), "OR")] else [])
      + (if f.excludedBranches != [] then [Group(Prefixed(ExcludedPrefix, f.excludedBranches), "AND")] else [])
  }

  /** The query the poller sends for `project`: the filters and `project:<name>`, joined by `+`. */
  function ProjectQuery(project: string, filters: seq<string>): (q: string)
    ensures HasSuffix(q, "project:" + project)
    ensures filters == [] ==> q == "project:" + project
    ensures filters != [] ==> q == Join(filters, "+") + "+project:" + project
  {
    JoinLast(filters, "project:" + project, "+");
    JoinAppend(filters, "project:" + project, "+");
    Join(filters + ["project:" + project], "+")
  }

  // ----- reading filter strings back -----

  /** `[t0, w, t1, w, t2]` for terms `[t0, t1, t2]`. */
  function Interleave(terms: seq<string>, w: string): (r: seq<string>)
    requires |terms| >= 1
    ensures |r| >= 1 && r[0] == terms[0]
  {
    if |terms| == 1 then [terms[0]] else [terms[0], w] + Interleave(terms[1..], w)
  }

  /** The terms of an interleaved list whose every other item is `w`. */
  function Uninterleave(items: seq<string>, w: string): Option<seq<string>>
  {
    if |items| == 0 then None
    else if |items| == 1 then Some([items[0]])
    else if |items| >= 3 && items[1] == w then
      match Uninterleave(items[2..], w)
      case None => None
      case Some(rest) => Some([items[0]] + rest)
    else None
  }

  /** The names behind terms that all start with `prefix`. */
  function Unprefixed(prefix: string, terms: seq<string>): Option<seq<string>>
  {
    if |terms| == 0 then Some([])
    else if !HasPrefix(terms[0], prefix) then None
    else match Unprefixed(prefix, terms[1..])
      case None => None
      case Some(rest) => Some([terms[0][|prefix|..]] + rest)
  }

  /** Reads one group: `(true, names)` for an AND-group of `-branch:` terms,
      `(false, names)` for an OR-group of `branch:` terms. */
  function ParseGroup(s: string): Option<(bool, seq<string>)>
  {
    if |s| < 2 || s[0] != '(' || s[|s| - 1] != ')' then None
    else
      var items := Split(s[1..|s| - 1], '+');
      var excluded := HasPrefix(items[0], ExcludedPrefix);
      match Uninterleave(items, if excluded then "AND" else "OR")
      case None => None
      case Some(terms) =>
        match Unprefixed(if excluded then ExcludedPrefix else BranchPrefix, terms)
        case None => None
        case Some(names) => Some((excluded, names))
  }

  /** Reads the strings of QueryStrings back into a filter. */
  function ParseQueryStrings(qs: seq<string>): Option<QueryFilter>
  {
    if |qs| == 0 then Some(QueryFilter([], []))
    else if |qs| == 1 then
      match ParseGroup(qs[0])
      case None => None
      case Some((excluded, names)) =>
        if excluded then Some(QueryFilter([], names)) else Some(QueryFilter(names, []))
    else if |qs| == 2 then
      match (ParseGroup(qs[0]), ParseGroup(qs[1]))
      case (Some((false, included)), Some((true, excluded))) => Some(QueryFilter(included, excluded))
      case _ => None
    else None
  }

  /** Branch names that can stand in a query: `+` separates query terms. */
  predicate Plain(names: seq<string>)
  {
    Free(names, '+')
  }

  lemma {:induction false} JoinInterleave(terms: seq<string>, w: string)
    requires |terms| >= 1
    ensures Join(terms, "+" + w + "+") == Join(Interleave(terms, w), "+")
    decreases |terms|
  {
    if |terms| > 1 {
      JoinInterleave(terms[1..], w);
      var rest := Interleave(terms[1..], w);
      assert ([terms[0], w] + rest)[1..] == [w] + rest;
      assert ([w] + rest)[1..] == rest;
    }
  }

  lemma {:induction false} InterleaveFree(terms: seq<string>, w: string)
    requires |terms| >= 1 && Free(terms, '+') && '+' !in w
    ensures Free(Interleave(terms, w), '+')
    decreases |terms|
  {
    if |terms| > 1 {
      assert Free(terms[1..], '+') by {
        forall i | 0 <= i < |terms[1..]| ensures '+' !in terms[1..][i] {
          assert terms[1..][i] == terms[i + 1];
        }
      }
      InterleaveFree(terms[1..], w);
      assert '+' !in terms[0];
    }
  }

  lemma {:induction false} UninterleaveInterleave(terms: seq<string>, w: string)
    requires |terms| >= 1
    ensures Uninterleave(Interleave(terms, w), w) == Some(terms)
    decreases |terms|
  {
    if |terms| == 1 {
      assert terms == [terms[0]];
    } else {
      UninterleaveInterleave(terms[1..], w);
      var rest := Interleave(terms[1..], w);
      var items := [terms[0], w] + rest;
      assert items == Interleave(terms, w);
      assert |items| >= 3 && items[1] == w;
      assert items[2..] == rest;
      assert [terms[0]] + terms[1..] == terms;
    }
  }

  lemma {:induction false} UnprefixedPrefixed(prefix: string, names: seq<string>)
    ensures Unprefixed(prefix, Prefixed(prefix, names)) == Some(names)
    decreases |names|
  {
    if |names| > 0 {
      var terms := Prefixed(prefix, names);
      assert terms[1..] == Prefixed(prefix, names[1..]);
      UnprefixedPrefixed(prefix, names[1..]);
      assert (prefix + names[0])[..|prefix|] == prefix;
      assert (prefix + names[0])[|prefix|..] == names[0];
      assert [names[0]] + names[1..] == names;
    }
  }

  lemma PrefixedFree(prefix: string, names: seq<string>)
    requires Plain(names) && '+' !in prefix
    ensures Free(Prefixed(prefix, names), '+')
  {
    forall i | 0 <= i < |names| ensures '+' !in Prefixed(prefix, names)[i] {
      assert '+' !in names[i];
    }
  }

  /** The items between the parentheses of a group are its terms interleaved with the conjunction. */
  lemma SplitGroup(terms: seq<string>, w: string)
    requires |terms| >= 1 && Free(terms, '+') && '+' !in w
    ensures var s := Group(terms, w);
      |s| >= 2 && s[0] == '(' && s[|s| - 1] == ')' && Split(s[1..|s| - 1], '+') == Interleave(terms, w)
  {
    var s := Group(terms, w);
    var inner := Join(terms, "+" + w + "+");
    assert s[1..|s| - 1] == inner;
    JoinInterleave(terms, w);
    InterleaveFree(terms, w);
    SplitJoin(Interleave(terms, w), '+');
  }

  /** A group reads back as the names it was built from. */
  lemma ParseGroupOf(names: seq<string>, prefix: string, w: string, excluded: bool)
    requires |names| >= 1 && Plain(names)
    requires if excluded then prefix == ExcludedPrefix && w == "AND" else prefix == BranchPrefix && w == "OR"
    ensures ParseGroup(Group(Prefixed(prefix, names), w)) == Some((excluded, names))
  {
    var terms := Prefixed(prefix, names);
    PrefixedFree(prefix, names);
    SplitGroup(terms, w);
    var s := Group(terms, w);
    var items := Split(s[1..|s| - 1], '+');
    assert items[0] == prefix + names[0];
    PrefixDecidesGroup(names[0], excluded);
    UninterleaveInterleave(terms, w);
    UnprefixedPrefixed(prefix, names);
    ParseGroupFrom(s, excluded, terms, names);
  }

  /** Only the excluded-branch terms start with `-branch:`. */
  lemma PrefixDecidesGroup(name: string, excluded: bool)
    ensures HasPrefix((if excluded then ExcludedPrefix else BranchPrefix) + name, ExcludedPrefix) == excluded
  {
    if excluded {
      assert (ExcludedPrefix + name)[..|ExcludedPrefix|] == ExcludedPrefix;
    } else {
      var t := BranchPrefix + name;
      assert t[0] == 'b';
      if |ExcludedPrefix| <= |t| {
        assert t[..|ExcludedPrefix|][0] == 'b';
      }
    }
  }

  lemma ParseGroupFrom(s: string, excluded: bool, terms: seq<string>, names: seq<string>)
    requires |s| >= 2 && s[0] == '(' && s[|s| - 1] == ')'
    requires HasPrefix(Split(s[1..|s| - 1], '+')[0], ExcludedPrefix) == excluded
    requires Uninterleave(Split(s[1..|s| - 1], '+'), if excluded then "AND" else "OR") == Some(terms)
    requires Unprefixed(if excluded then ExcludedPrefix else BranchPrefix, terms) == Some(names)
    ensures ParseGroup(s) == Some((excluded, names))
  {
  }

  /** Round trip: the filter strings of a filter read back as that filter, as long as no
      branch name holds a `+`; a missing filter reads back as "no restriction". */
  lemma ParseQueryStringsRoundTrip(filter: Option<QueryFilter>)
    requires filter.Some? ==> Plain(filter.value.branches) && Plain(filter.value.excludedBranches)
    ensures ParseQueryStrings(QueryStrings(filter))
            == Some(if filter.Some? then filter.value else QueryFilter([], []))
  {
    if filter.Some? {
      var f := filter.value;
      if f.branches != [] {
        ParseGroupOf(f.branches, BranchPrefix, "OR", false);
      }
      if f.excludedBranches != [] {
        ParseGroupOf(f.excludedBranches, ExcludedPrefix, "AND", true);
      }
    }
  }
}
