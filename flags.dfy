/** The `--gerrit-projects` command-line flag: host=repo-a,repo-b entries, and its
    conversion to the per-instance project configuration. */
module Flags {
  import opened Wrappers
  import opened Strings
  import opened GerritTypes
  import opened QueryFilters

  /** One rendered flag entry: the host, '=', and the repositories joined by ','. */
  function Entry(host: string, repos: seq<string>): string
  {
    host + "=" + Join(repos, ",")
  }

  /** The entries of the hosts in `order`. */
  function Entries(hosts: map<string, seq<string>>, order: seq<string>): (r: seq<string>)
    requires forall i :: 0 <= i < |order| ==> order[i] in hosts
    ensures |r| == |order|
    ensures forall i :: 0 <= i < |order| ==> r[i] == Entry(order[i], hosts[order[i]])
  {
    if order == [] then [] else [Entry(order[0], hosts[order[0]])] + Entries(hosts, order[1..])
  }

  /** What adding one flag value does to the hosts seen so far: the value must hold an
      '=', the text before the first '=' is a host not seen before, and the text after it
      is split on ',' into the host's repositories. */
  function SetResult(hosts: map<string, seq<string>>, value: string): (r: Result<map<string, seq<string>>, Error>)
    ensures r == Err(FlagFormat(value)) <==> '=' !in value
    ensures r.Err? && '=' in value ==> r.error.DuplicateHost? && r.error.host in hosts
    ensures Cut(value, '=').Some? ==> var host := Cut(value, '=').value.0;
      && (r.Err? <==> host in hosts)
      && (r.Err? ==> r.error == DuplicateHost(host))
  {
    match Cut(value, '=')
    case None => Err(FlagFormat(value))
    case Some((host, rest)) =>
      if host in hosts then Err(DuplicateHost(host)) else Ok(hosts[host := Split(rest, ',')])
  }

  /** A value that is accepted names a new host, and the host's repositories are the
      text after the first '=' split on ','. */
  lemma SetAddsOneHost(hosts: map<string, seq<string>>, value: string)
    requires SetResult(hosts, value).Ok?
    ensures exists host, rest ::
      (value == host + "=" + rest && '=' !in host && host !in hosts
       && SetResult(hosts, value).value == hosts[host := Split(rest, ',')])
  {
    var (host, rest) := Cut(value, '=').value;
    assert value == host + "=" + rest;
  }

  /** Nothing of an accepted value is lost: the host's repositories joined with ','
      give back the text after the first '='. */
  lemma SetKeepsRepositoryText(hosts: map<string, seq<string>>, value: string)
    requires SetResult(hosts, value).Ok?
    ensures Cut(value, '=').Some?
    ensures Join(SetResult(hosts, value).value[Cut(value, '=').value.0], ",") == Cut(value, '=').value.1
  {
    var rest := Cut(value, '=').value.1;
    JoinSplit(rest, ',');
    assert [','] == ",";
  }

  /** The hosts after the values are given one after another; the first error stops. */
  function ParseAll(hosts: map<string, seq<string>>, values: seq<string>): Result<map<string, seq<string>>, Error>
    decreases |values|
  {
    if values == [] then Ok(hosts)
    else match SetResult(hosts, values[0])
      case Err(e) => Err(e)
      case Ok(next) => ParseAll(next, values[1..])
  }

  /** A host and repository list that the flag syntax can carry: no '=' or ' ' in the
      host, at least one repository, and no ',' or ' ' in a repository. */
  predicate Representable(host: string, repos: seq<string>)
  {
    '=' !in host && ' ' !in host && |repos| >= 1 && Free(repos, ',') && Free(repos, ' ')
  }

  /** ProjectsFlag: host -> repositories, filled in by Set. */
  class ProjectsFlag {
    var hosts: map<string, seq<string>>

    constructor ()
      ensures hosts == map[]
    {
      hosts := map[];
    }

    /** Set: adds one flag value, or reports why it is malformed and changes nothing. */
    method Set(value: string) returns (err: Option<Error>)
      modifies this
      ensures err.None? ==> SetResult(old(hosts), value) == Ok(hosts)
      ensures err.Some? ==> SetResult(old(hosts), value) == Err(err.value) && hosts == old(hosts)
    {
      var parts := Cut(value, '=');
      if parts.None? {
        return Some(FlagFormat(value));
      }
      var host := parts.value.0;
      if host in hosts {
        return Some(DuplicateHost(host));
      }
      var repos := Split(parts.value.1, ',');
      hosts := hosts[host := repos];
      return None;
    }

    /** String: the entries of the hosts in the enumeration `order` (Go's map order),
        separated by spaces. */
    function String(order: seq<string>): (s: string)
      requires IsEnumeration(order, hosts.Keys)
      reads this
      ensures hosts == map[] ==> s == ""
      ensures hosts != map[] && (forall h :: h in hosts ==> Representable(h, hosts[h])) ==> Split(s, ' ') == Entries(hosts, order)
    {
      SplitEntries(hosts, order);
      Join(Entries(hosts, order), " ")
    }
  }

  /** The rendered entries are separated again by splitting at spaces. */
  lemma SplitEntries(hosts: map<string, seq<string>>, order: seq<string>)
    requires IsEnumeration(order, hosts.Keys)
    ensures hosts == map[] ==> Entries(hosts, order) == []
    ensures hosts != map[] && (forall h :: h in hosts ==> Representable(h, hosts[h]))
      ==> Split(Join(Entries(hosts, order), " "), ' ') == Entries(hosts, order)
  {
    var entries := Entries(hosts, order);
    if hosts != map[] {
      var h :| h in hosts;
      assert h in order;
      if forall h :: h in hosts ==> Representable(h, hosts[h]) {
        assert Free(entries, ' ') by {
          forall i | 0 <= i < |entries| ensures ' ' !in entries[i] {
            JoinFree(hosts[order[i]], ",", ' ');
          }
        }
        SplitJoin(entries, ' ');
      }
    }
  }

  /** An entry is read back as its host and repositories. */
  lemma EntryRoundTrip(hosts: map<string, seq<string>>, host: string, repos: seq<string>)
    requires Representable(host, repos) && host !in hosts
    ensures SetResult(hosts, Entry(host, repos)) == Ok(hosts[host := repos])
  {
    CutAt(host, Join(repos, ","), '=');
    assert host + "=" + Join(repos, ",") == host + ['='] + Join(repos, ",");
    SplitJoin(repos, ',');
  }

  lemma ParseStep(acc: map<string, seq<string>>, next: map<string, seq<string>>, value: string, rest: seq<string>)
    requires SetResult(acc, value) == Ok(next)
    ensures ParseAll(acc, [value] + rest) == ParseAll(next, rest)
  {
    assert ([value] + rest)[1..] == rest;
  }

  /** `acc` with the hosts of `order` added one after another. */
  function Extend(acc: map<string, seq<string>>, hosts: map<string, seq<string>>, order: seq<string>): map<string, seq<string>>
    requires forall i :: 0 <= i < |order| ==> order[i] in hosts
    decreases |order|
  {
    if order == [] then acc else Extend(acc[order[0] := hosts[order[0]]], hosts, order[1..])
  }

  /** Reading the entries of distinct new hosts adds exactly those hosts. */
  lemma {:induction false} ParseEntries(acc: map<string, seq<string>>, hosts: map<string, seq<string>>, order: seq<string>)
    requires forall i, j :: 0 <= i < j < |order| ==> order[i] != order[j]
    requires forall i :: 0 <= i < |order| ==> order[i] in hosts && order[i] !in acc && Representable(order[i], hosts[order[i]])
    ensures ParseAll(acc, Entries(hosts, order)) == Ok(Extend(acc, hosts, order))
    decreases |order|
  {
    if order != [] {
      var h0 := order[0];
      EntryRoundTrip(acc, h0, hosts[h0]);
      ParseStep(acc, acc[h0 := hosts[h0]], Entry(h0, hosts[h0]), Entries(hosts, order[1..]));
      ParseEntries(acc[h0 := hosts[h0]], hosts, order[1..]);
    }
  }

  /** Adding the hosts of `order` keeps `acc` and maps each added host to its repositories. */
  lemma {:induction false} ExtendContents(acc: map<string, seq<string>>, hosts: map<string, seq<string>>, order: seq<string>)
    requires forall i, j :: 0 <= i < j < |order| ==> order[i] != order[j]
    requires forall i :: 0 <= i < |order| ==> order[i] in hosts && order[i] !in acc
    ensures var r := Extend(acc, hosts, order);
      && (forall k :: k in r <==> k in acc || k in order)
      && (forall k :: k in acc ==> r[k] == acc[k])
      && (forall k :: k in order ==> r[k] == hosts[k])
    decreases |order|
  {
    if order != [] {
      var h0 := order[0];
      assert forall i :: 0 <= i < |order[1..]| ==> order[1..][i] == order[i + 1];
      ExtendContents(acc[h0 := hosts[h0]], hosts, order[1..]);
      assert order == [h0] + order[1..];
    }
  }

  /** Re-reading the rendered flag, split at spaces, gives the same hosts back. */
  lemma StringRoundTrip(flag: ProjectsFlag, order: seq<string>)
    requires IsEnumeration(order, flag.hosts.Keys) && flag.hosts != map[]
    requires forall h :: h in flag.hosts ==> Representable(h, flag.hosts[h])
    ensures ParseAll(map[], Split(flag.String(order), ' ')) == Ok(flag.hosts)
  {
    ParseEntries(map[], flag.hosts, order);
    ExtendAll(flag.hosts, order);
  }

  /** Adding every host of an enumeration of `hosts` to nothing rebuilds `hosts`. */
  lemma ExtendAll(hosts: map<string, seq<string>>, order: seq<string>)
    requires IsEnumeration(order, hosts.Keys)
    ensures Extend(map[], hosts, order) == hosts
  {
    ExtendContents(map[], hosts, order);
    var r := Extend(map[], hosts, order);
    assert forall k :: k in r <==> k in hosts;
  }

  /** ProjectsFlagToConfig: every flagged repository of every host is watched with no
      query filter. */
  function ProjectsFlagToConfig(hosts: map<string, seq<string>>): (r: map<string, ProjectFilters>)
    ensures r.Keys == hosts.Keys
    ensures forall h :: h in r ==> forall p :: p in r[h] <==> p in hosts[h]
    ensures forall h, p :: h in r && p in r[h] ==> r[h][p].None?
  {
    map h | h in hosts :: map p | p in hosts[h] :: None
  }

  /** A project configured through the flag is polled with the bare project query. */
  lemma FlagConfigQuery(hosts: map<string, seq<string>>, host: string, project: string)
    requires host in hosts && project in hosts[host]
    ensures var r := ProjectsFlagToConfig(hosts);
      host in r && project in r[host] && ProjectQuery(project, QueryStrings(r[host][project])) == "project:" + project
  {
  }
}
