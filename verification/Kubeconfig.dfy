/** The edits to a shared kubeconfig file (kubeconfig.py): clusters are merged in, renamed and taken
    out again next to entries of others. Documents are modelled parsed, without their YAML text. */
module Kubeconfig {
  import opened Basics

  /** One entry of a section. server is what server_of reads of a cluster entry ("" when it has
      none); body is everything else the entry holds. */
  datatype Entry = Entry(name: Option<string>, server: string, body: string)

  /** The sections and the current context; other top-level fields are in rest. */
  datatype Config = Config(clusters: seq<Entry>, users: seq<Entry>, contexts: seq<Entry>, current: Option<string>, rest: string)

  datatype Refusal = NotOneEach | PointsElsewhere(server: string) | ContextTaken | UserTaken

  /** "{kind: Config}". */
  const EMPTY := Config([], [], [], None, "")

  function UserName(name: string): string { name + "-admin" }

  function Named(s: seq<Entry>, name: string): seq<Entry> { Filter(s, (e: Entry) => e.name == Some(name)) }

  function Unnamed(s: seq<Entry>, name: string): seq<Entry> { Filter(s, (e: Entry) => e.name != Some(name)) }

  function ServerOf(c: Config, name: string): Option<string> {
    var e := First(c.clusters, (e: Entry) => e.name == Some(name));
    if e.None? then None else Some(e.value.server)
  }

  // ---- what merge and remove make of the document

  /** The first entry called name is replaced by own, later ones of that name go; with none there,
      own is appended. Python's slice assignment first, the comprehension over the new list after. */
  function MergedSection(s: seq<Entry>, own: seq<Entry>, name: string): seq<Entry> {
    var i := FirstIndex(s, name);
    if i == |s| then s + own
    else
      var spliced := s[..i] + own + s[i + 1..];
      if i < |spliced| then spliced[..i + 1] + Unnamed(spliced[i + 1..], name) else spliced
  }

  function FirstIndex(s: seq<Entry>, name: string): (i: nat)
    ensures i <= |s|
    ensures i < |s| ==> s[i].name == Some(name)
    ensures forall j :: 0 <= j < i ==> s[j].name != Some(name)
  {
    if s == [] then 0 else if s[0].name == Some(name) then 0 else 1 + FirstIndex(s[1..], name)
  }

  function MergeRefusal(c: Config, incoming: Config, name: string): Option<Refusal> {
    var mine, theirs := ServerOf(incoming, name), ServerOf(c, name);
    if theirs.Some? then (if theirs != mine then Some(PointsElsewhere(theirs.value)) else None)
    else if Named(c.contexts, name) != [] then Some(ContextTaken)
    else if Named(c.users, UserName(name)) != [] then Some(UserTaken)
    else None
  }

  /** The first entry of a name. */
  ghost predicate IsFirst(s: seq<Entry>, name: string, i: int) {
    0 <= i < |s| && s[i].name == Some(name) && forall j :: 0 <= j < i ==> s[j].name != Some(name)
  }

  /** The cluster of that name, if there are several the first, is at another server than the incoming
      one. */
  ghost predicate Elsewhere(c: Config, incoming: Config, name: string) {
    exists i :: IsFirst(c.clusters, name, i)
      && forall j :: IsFirst(incoming.clusters, name, j) ==> incoming.clusters[j].server != c.clusters[i].server
  }

  /** There is no cluster of that name, but a context or user has the names that go with it. */
  ghost predicate Taken(c: Config, name: string) {
    && (forall e :: e in c.clusters ==> e.name != Some(name))
    && ((exists e :: e in c.contexts && e.name == Some(name)) || exists e :: e in c.users && e.name == Some(name + "-admin"))
  }

  lemma ServerOfFirst(c: Config, name: string)
    ensures ServerOf(c, name).None? <==> forall e :: e in c.clusters ==> e.name != Some(name)
    ensures forall i :: IsFirst(c.clusters, name, i) ==> ServerOf(c, name) == Some(c.clusters[i].server)
    ensures ServerOf(c, name).Some? ==> exists i :: IsFirst(c.clusters, name, i)
  {
    var p := (e: Entry) => e.name == Some(name);
    forall i | IsFirst(c.clusters, name, i)
      ensures ServerOf(c, name) == Some(c.clusters[i].server)
    {
      FirstIsLeast(c.clusters, p, i);
    }
    if ServerOf(c, name).Some? {
      var i := FirstIndex(c.clusters, name);
      assert First(c.clusters, p).value in c.clusters;
      assert IsFirst(c.clusters, name, i);
    }
  }

  /** A merge is refused exactly when somebody else's entry is in the way. */
  lemma RefusedIff(c: Config, incoming: Config, name: string)
    ensures MergeRefusal(c, incoming, name).Some? <==> Elsewhere(c, incoming, name) || Taken(c, name)
    ensures Elsewhere(c, incoming, name) ==>
              exists i :: IsFirst(c.clusters, name, i) && MergeRefusal(c, incoming, name) == Some(PointsElsewhere(c.clusters[i].server))
    ensures Taken(c, name) ==>
              MergeRefusal(c, incoming, name) == Some(if exists e :: e in c.contexts && e.name == Some(name) then ContextTaken else UserTaken)
  {
    hide ServerOf;
    ServerOfFirst(c, name);
    ServerOfFirst(incoming, name);
    NamedSome(c.contexts, name);
    NamedSome(c.users, UserName(name));
    hide Named;
  }

  lemma NamedSome(s: seq<Entry>, name: string)
    ensures Named(s, name) != [] <==> exists e :: e in s && e.name == Some(name)
  {
    if Named(s, name) != [] {
      assert Named(s, name)[0] in s;
    }
  }

  function Merged(c: Config, incoming: Config, name: string): Config {
    Config(
      MergedSection(c.clusters, Named(incoming.clusters, name), name),
      MergedSection(c.users, Named(incoming.users, UserName(name)), UserName(name)),
      MergedSection(c.contexts, Named(incoming.contexts, name), name),
      Some(name),
      c.rest)
  }

  function Without(c: Config, name: string): Config {
    Config(
      Unnamed(c.clusters, name),
      Unnamed(c.users, UserName(name)),
      Unnamed(c.contexts, name),
      if c.current == Some(name) then Some("") else c.current,
      c.rest)
  }

  predicate Has(c: Config, name: string, server: string) { ServerOf(c, name) == Some(server) }

  /** remove: None when nothing is left (the file goes away), unchanged when the cluster of that name
      is not this one. */
  function Removed(c: Config, name: string, server: string): Option<Config> {
    if !Has(c, name, server) then Some(c)
    else
      var r := Without(c, name);
      if r.clusters == [] && r.users == [] && r.contexts == [] then None else Some(r)
  }

  /** kubeadm's admin.conf with its entries named after the cluster and its server replaced. */
  function Renamed(admin: Config, name: string, server: string): Result<Config, Refusal> {
    if |admin.clusters| != 1 || |admin.users| != 1 || |admin.contexts| != 1 then Err(NotOneEach)
    else
      Ok(Config(
           [admin.clusters[0].(name := Some(name), server := server)],
           [admin.users[0].(name := Some(UserName(name)))],
           [Entry(Some(name), "", "cluster " + name + " user " + UserName(name))],
           Some(name),
           admin.rest))
  }

  /** What rename hands out for a cluster: one entry in every section, with the cluster's names. */
  ghost predicate FileOf(k: Config, name: string) {
    && |k.clusters| == 1 && k.clusters[0].name == Some(name)
    && |k.users| == 1 && k.users[0].name == Some(UserName(name))
    && |k.contexts| == 1 && k.contexts[0].name == Some(name)
  }

  /** A loaded document, edited in place one section after the other. */
  class Doc {
    var clusters: seq<Entry>
    var users: seq<Entry>
    var contexts: seq<Entry>
    var current: Option<string>
    const rest: string

    constructor (c: Config)
      ensures Value() == c
    {
      clusters, users, contexts, current, rest := c.clusters, c.users, c.contexts, c.current, c.rest;
    }

    function Value(): Config
      reads this
    {
      Config(clusters, users, contexts, current, rest)
    }

    method ReplaceIn(s: seq<Entry>, own: seq<Entry>, name: string) returns (r: seq<Entry>)
      ensures r == MergedSection(s, own, name)
    {
      var slots := 0;
      while slots < |s| && s[slots].name != Some(name)
        invariant slots <= |s|
        invariant forall j :: 0 <= j < slots ==> s[j].name != Some(name)
      {
        slots := slots + 1;
      }
      FirstIndexIs(s, name, slots);
      if slots == |s| {
        return s + own;
      }
      r := DropLater(s[..slots] + own + s[slots + 1..], slots, name);
    }

    /** Every entry up to position `slot`, and the later ones that do not have the name. */
    method DropLater(s: seq<Entry>, slot: nat, name: string) returns (r: seq<Entry>)
      ensures r == if slot < |s| then s[..slot + 1] + Unnamed(s[slot + 1..], name) else s
    {
      hide UpTo;
      hide Unnamed;
      r := [];
      NothingUpTo(s, slot, name);
      for i := 0 to |s|
        invariant r == UpTo(s, slot, name, i)
      {
        NextUpTo(s, slot, name, i);
        if i <= slot || s[i].name != Some(name) {
          r := r + [s[i]];
        }
      }
      AllUpTo(s, slot, name);
    }

    /** merge, unless it refuses. */
    method Merge(incoming: Config, name: string) returns (refused: Option<Refusal>)
      modifies this
      ensures refused.Some? <==> Elsewhere(old(Value()), incoming, name) || Taken(old(Value()), name)
      ensures refused == MergeRefusal(old(Value()), incoming, name)
      ensures Value() == if refused.Some? then old(Value()) else Merged(old(Value()), incoming, name)
    {
      RefusedIff(Value(), incoming, name);
      refused := MergeRefusal(Value(), incoming, name);
      if refused.Some? {
        return;
      }
      clusters := ReplaceIn(clusters, Named(incoming.clusters, name), name);
      users := ReplaceIn(users, Named(incoming.users, UserName(name)), UserName(name));
      contexts := ReplaceIn(contexts, Named(incoming.contexts, name), name);
      current := Some(name);
    }

    /** _without. */
    method Drop(name: string)
      modifies this
      ensures Value() == Without(old(Value()), name)
    {
      clusters := Unnamed(clusters, name);
      users := Unnamed(users, UserName(name));
      contexts := Unnamed(contexts, name);
      if current == Some(name) {
        current := Some("");
      }
    }

    /** rename. */
    method Rename(name: string, server: string) returns (ok: bool)
      modifies this
      ensures ok <==> Renamed(old(Value()), name, server).Ok?
      ensures Value() == if ok then Renamed(old(Value()), name, server).value else old(Value())
    {
      if |clusters| != 1 || |users| != 1 || |contexts| != 1 {
        return false;
      }
      clusters := [clusters[0].(name := Some(name), server := server)];
      users := [users[0].(name := Some(UserName(name)))];
      contexts := [Entry(Some(name), "", "cluster " + name + " user " + UserName(name))];
      current := Some(name);
      return true;
    }
  }

  function UpTo(s: seq<Entry>, slot: nat, name: string, i: nat): seq<Entry>
    requires i <= |s|
  {
    if i <= slot + 1 then s[..i] else s[..slot + 1] + Unnamed(s[slot + 1..i], name)
  }

  lemma NextUpTo(s: seq<Entry>, slot: nat, name: string, i: nat)
    requires i < |s|
    ensures UpTo(s, slot, name, i + 1) ==
            UpTo(s, slot, name, i) + if i <= slot || s[i].name != Some(name) then [s[i]] else []
  {
    hide Unnamed;
    if i > slot {
      var later := s[slot + 1..i];
      assert s[slot + 1..i + 1] == later + [s[i]];
      UnnamedSnoc(later, s[i], name);
      if i == slot + 1 {
        assert later == [];
        UnnamedNone(name);
        assert s[..slot + 1] + [] == s[..i];
      }
      Associative(s[..slot + 1], Unnamed(later, name), if s[i].name != Some(name) then [s[i]] else []);
    }
  }

  lemma UnnamedNone(name: string)
    ensures Unnamed([], name) == []
  {
  }

  lemma UnnamedSnoc(s: seq<Entry>, e: Entry, name: string)
    ensures Unnamed(s + [e], name) == Unnamed(s, name) + if e.name != Some(name) then [e] else []
  {
    assert (s + [e])[..|s|] == s;
  }

  lemma NothingUpTo(s: seq<Entry>, slot: nat, name: string)
    ensures UpTo(s, slot, name, 0) == []
  {
  }

  lemma AllUpTo(s: seq<Entry>, slot: nat, name: string)
    ensures UpTo(s, slot, name, |s|) == if slot < |s| then s[..slot + 1] + Unnamed(s[slot + 1..], name) else s
  {
    if slot + 1 < |s| {
      assert s[slot + 1..|s|] == s[slot + 1..];
    } else if slot < |s| {
      assert s[slot + 1..] == [];
    }
  }

  lemma {:induction false} FirstIndexIs(s: seq<Entry>, name: string, i: nat)
    requires i <= |s| && (i < |s| ==> s[i].name == Some(name))
    requires forall j :: 0 <= j < i ==> s[j].name != Some(name)
    ensures FirstIndex(s, name) == i
  {
  }

  // ---- sections

  /** Entries that are none of the clusters in question, in order. */
  function Foreign(s: seq<Entry>, names: set<string>): seq<Entry> {
    Filter(s, (e: Entry) => e.name.None? || e.name.value !in names)
  }

  /** With one new entry of the right name, the section is the entries before the first of that
      name, the new one, and the rest without that name. */
  lemma MergedOne(s: seq<Entry>, f: Entry, name: string)
    requires f.name == Some(name)
    ensures var i := FirstIndex(s, name);
            MergedSection(s, [f], name) == s[..i] + [f] + if i < |s| then Unnamed(s[i + 1..], name) else []
  {
    var i := FirstIndex(s, name);
    if i < |s| {
      var spliced := s[..i] + [f] + s[i + 1..];
      assert spliced[..i + 1] == s[..i] + [f];
      assert spliced[i + 1..] == s[i + 1..];
    } else {
      assert s[..i] == s;
    }
  }

  lemma {:induction false} FilterFilter(s: seq<Entry>, p: Entry -> bool, q: Entry -> bool)
    requires forall e :: e in s && q(e) ==> p(e)
    ensures Filter(Filter(s, p), q) == Filter(s, q)
  {
    if s != [] {
      var n := |s| - 1;
      Snoc(s);
      FilterFilter(s[..n], p, q);
      if p(s[n]) {
        FilterAppend(Filter(s[..n], p), [s[n]], q);
        FilterSingle(s[n], q);
      }
    }
  }

  lemma SplitAt(s: seq<Entry>, i: nat)
    requires i < |s|
    ensures s == s[..i] + [s[i]] + s[i + 1..]
  {
  }

  lemma FilterThree(a: seq<Entry>, e: Entry, b: seq<Entry>, p: Entry -> bool)
    ensures Filter(a + [e] + b, p) == Filter(a, p) + (if p(e) then [e] else []) + Filter(b, p)
  {
    FilterAppend(a + [e], b, p);
    FilterAppend(a, [e], p);
    FilterSingle(e, p);
  }

  /** Merging one cluster keeps every entry of other names, in order. */
  lemma MergeKeepsForeign(s: seq<Entry>, f: Entry, name: string, names: set<string>)
    requires f.name == Some(name) && name in names
    ensures Foreign(MergedSection(s, [f], name), names) == Foreign(s, names)
  {
    var q := (e: Entry) => e.name.None? || e.name.value !in names;
    var i := FirstIndex(s, name);
    MergedOne(s, f, name);
    if i < |s| {
      var tail := s[i + 1..];
      SplitAt(s, i);
      FilterThree(s[..i], s[i], tail, q);
      FilterThree(s[..i], f, Unnamed(tail, name), q);
      FilterFilter(tail, (e: Entry) => e.name != Some(name), q);
    } else {
      assert s[..i] == s;
      FilterThree(s, f, [], q);
      assert Filter<Entry>([], q) == [];
    }
  }

  /** Afterwards there is exactly one entry of that name, the new one. */
  lemma MergeLeavesOne(s: seq<Entry>, f: Entry, name: string)
    requires f.name == Some(name)
    ensures Named(MergedSection(s, [f], name), name) == [f]
  {
    var q := (e: Entry) => e.name == Some(name);
    var i := FirstIndex(s, name);
    MergedOne(s, f, name);
    var rest := if i < |s| then Unnamed(s[i + 1..], name) else [];
    NoneNamed(s[..i], name);
    NoneNamed(rest, name);
    FilterThree(s[..i], f, rest, q);
  }

  lemma {:induction false} NoneNamed(s: seq<Entry>, name: string)
    requires forall e :: e in s ==> e.name != Some(name)
    ensures Named(s, name) == []
  {
    if s != [] {
      Snoc(s);
      NoneNamed(s[..|s| - 1], name);
    }
  }

  /** Other names keep their entries, too. */
  lemma MergeKeepsOthers(s: seq<Entry>, f: Entry, name: string, other: string)
    requires f.name == Some(name) && name != other
    ensures Named(MergedSection(s, [f], name), other) == Named(s, other)
  {
    var q := (e: Entry) => e.name == Some(other);
    var i := FirstIndex(s, name);
    MergedOne(s, f, name);
    if i < |s| {
      var tail := s[i + 1..];
      SplitAt(s, i);
      FilterThree(s[..i], s[i], tail, q);
      FilterThree(s[..i], f, Unnamed(tail, name), q);
      FilterFilter(tail, (e: Entry) => e.name != Some(name), q);
    } else {
      assert s[..i] == s;
      FilterThree(s, f, [], q);
      assert Filter<Entry>([], q) == [];
    }
  }

  lemma MergeAgain(s: seq<Entry>, f: Entry, name: string)
    requires f.name == Some(name)
    ensures MergedSection(MergedSection(s, [f], name), [f], name) == MergedSection(s, [f], name)
  {
    hide MergedSection;
    hide FirstIndex;
    var i := FirstIndex(s, name);
    var rest := if i < |s| then Unnamed(s[i + 1..], name) else [];
    MergedOne(s, f, name);
    MergedShape(s[..i], f, rest, name);
  }

  lemma MergedShape(a: seq<Entry>, f: Entry, rest: seq<Entry>, name: string)
    requires f.name == Some(name)
    requires (forall e :: e in a ==> e.name != Some(name)) && (forall e :: e in rest ==> e.name != Some(name))
    ensures MergedSection(a + [f] + rest, [f], name) == a + [f] + rest
  {
    hide MergedSection;
    var m := a + [f] + rest;
    FirstIndexIs(m, name, |a|);
    MergedOne(m, f, name);
    FilterAll(rest, (e: Entry) => e.name != Some(name));
    assert m[..|a|] == a && m[|a| + 1..] == rest;
  }

  lemma MergeThenDrop(s: seq<Entry>, f: Entry, name: string)
    requires f.name == Some(name) && Named(s, name) == []
    ensures Unnamed(MergedSection(s, [f], name), name) == s
  {
    var p := (e: Entry) => e.name != Some(name);
    forall e | e in s
      ensures p(e)
    {
      assert e.name == Some(name) ==> e in Named(s, name);
    }
    var i := FirstIndex(s, name);
    assert forall j :: 0 <= j < |s| ==> p(s[j]);
    assert i == |s|;
    FilterAll(s, p);
    FilterAppend(s, [f], p);
    FilterSingle(f, p);
  }

  // ---- documents

  lemma NamedSingle(k: Config, name: string)
    requires FileOf(k, name)
    ensures Named(k.clusters, name) == k.clusters == [k.clusters[0]]
    ensures Named(k.users, UserName(name)) == k.users == [k.users[0]]
    ensures Named(k.contexts, name) == k.contexts == [k.contexts[0]]
    ensures ServerOf(k, name) == Some(k.clusters[0].server)
  {
    FilterSingle(k.clusters[0], (e: Entry) => e.name == Some(name));
    FilterSingle(k.users[0], (e: Entry) => e.name == Some(UserName(name)));
    FilterSingle(k.contexts[0], (e: Entry) => e.name == Some(name));
    assert k.clusters == [k.clusters[0]] && k.users == [k.users[0]] && k.contexts == [k.contexts[0]];
  }

  /** rename works on one entry per section. It makes admin.conf a file of the cluster pointing at the
      server, with the credentials it had, and doing it again changes nothing. */
  lemma RenameNames(admin: Config, name: string, server: string)
    ensures Renamed(admin, name, server).Ok? <==> |admin.clusters| == 1 && |admin.users| == 1 && |admin.contexts| == 1
    ensures Renamed(admin, name, server).Ok? ==>
              var k := Renamed(admin, name, server).value;
              && FileOf(k, name) && ServerOf(k, name) == Some(server) && Renamed(k, name, server) == Ok(k)
              && k.clusters[0].body == admin.clusters[0].body
              && k.users[0].body == admin.users[0].body && k.users[0].server == admin.users[0].server
              && k.contexts[0].body == "cluster " + name + " user " + name + "-admin"
              && k.current == Some(name) && k.rest == admin.rest
  {
    if Renamed(admin, name, server).Ok? {
      NamedSingle(Renamed(admin, name, server).value, name);
    }
  }

  lemma {:induction false} FirstNamed(s: seq<Entry>, name: string)
    ensures First(s, (e: Entry) => e.name == Some(name)) ==
            if Named(s, name) == [] then None else Some(Named(s, name)[0])
  {
    var p := (e: Entry) => e.name == Some(name);
    if s != [] {
      FirstNamed(s[1..], name);
      assert s == [s[0]] + s[1..];
      FilterAppend([s[0]], s[1..], p);
      FilterSingle(s[0], p);
    }
  }

  /** server_of answers for the first cluster entry of the name. */
  lemma ServerOfNamed(c: Config, name: string)
    ensures ServerOf(c, name) == if Named(c.clusters, name) == [] then None else Some(Named(c.clusters, name)[0].server)
  {
    FirstNamed(c.clusters, name);
  }

  /** merge is idempotent: not refused the second time, and nothing changes. */
  lemma MergeIdempotent(c: Config, k: Config, name: string)
    requires FileOf(k, name) && MergeRefusal(c, k, name).None?
    ensures MergeRefusal(Merged(c, k, name), k, name).None?
    ensures Merged(Merged(c, k, name), k, name) == Merged(c, k, name)
  {
    NamedSingle(k, name);
    MergeAgain(c.clusters, k.clusters[0], name);
    MergeAgain(c.users, k.users[0], UserName(name));
    MergeAgain(c.contexts, k.contexts[0], name);
    MergeLeavesOne(c.clusters, k.clusters[0], name);
    ServerOfNamed(Merged(c, k, name), name);
  }

  /** remove undoes a merge of a new cluster: the sections are what they were, no context is current. */
  lemma RemoveUndoesMerge(c: Config, k: Config, name: string)
    requires FileOf(k, name) && MergeRefusal(c, k, name).None?
    requires ServerOf(c, name).None?
    ensures Has(Merged(c, k, name), name, k.clusters[0].server)
    ensures Removed(Merged(c, k, name), name, k.clusters[0].server) ==
            if c.clusters == [] && c.users == [] && c.contexts == [] then None else Some(c.(current := Some("")))
  {
    NamedSingle(k, name);
    ServerOfNamed(c, name);
    MergeThenDrop(c.clusters, k.clusters[0], name);
    MergeThenDrop(c.users, k.users[0], UserName(name));
    MergeThenDrop(c.contexts, k.contexts[0], name);
    MergeLeavesOne(c.clusters, k.clusters[0], name);
    ServerOfNamed(Merged(c, k, name), name);
  }

  /** After a remove the cluster is not there any more, whatever duplicates the file had. */
  lemma RemoveEstablishesGone(c: Config, name: string, server: string)
    ensures Removed(c, name, server).Some? ==> !Has(Removed(c, name, server).value, name, server)
    ensures Removed(c, name, server).Some? && c.current != Some(name) ==> Removed(c, name, server).value.current == c.current
    ensures Removed(c, name, server).Some? && Has(c, name, server) ==> Removed(c, name, server).value.current != Some(name) || name == ""
    ensures Removed(c, name, server).Some? ==> Removed(c, name, server).value.rest == c.rest
  {
    if Has(c, name, server) {
      var r := Without(c, name);
      forall e | e in r.clusters
        ensures e.name != Some(name)
      {
      }
      NoneNamed(r.clusters, name);
      ServerOfNamed(r, name);
    }
  }

  // ---- any sequence of merges and removes

  datatype Event =
    /** use cluster: the cluster's file is merged. */
    | Use(name: string, file: Config)
    /** delete cluster, whose endpoint is server. */
    | Delete(name: string, server: string)

  /** The file (None while there is none) and, per cluster merged and not removed since, its server. */
  datatype State = State(file: Option<Config>, live: map<string, string>)

  function Loaded(file: Option<Config>): Config { if file.Some? then file.value else EMPTY }

  function Step(st: State, e: Event): State {
    match e
    case Use(name, k) =>
      if MergeRefusal(Loaded(st.file), k, name).Some? then st
      else
        State(Some(Merged(Loaded(st.file), k, name)),
              if ServerOf(k, name).Some? then st.live[name := ServerOf(k, name).value] else st.live)
    case Delete(name, server) =>
      if st.file.None? || !Has(st.file.value, name, server) then st
      else State(Removed(st.file.value, name, server), st.live - {name})
  }

  function Run(st: State, events: seq<Event>): State {
    if events == [] then st else Step(Run(st, events[..|events| - 1]), events[|events| - 1])
  }

  ghost predicate EventOf(e: Event, names: set<string>) {
    && e.name in names
    && (e.Use? ==> FileOf(e.file, e.name))
  }

  function UserNames(names: set<string>): set<string> { set n | n in names :: UserName(n) }

  lemma UserNamesDiffer(a: string, b: string)
    ensures UserName(a) == UserName(b) <==> a == b
  {
    if UserName(a) == UserName(b) {
      assert UserName(a)[..|a|] == a && UserName(b)[..|b|] == b;
    }
  }

  ghost predicate SameForeign(a: Config, b: Config, names: set<string>) {
    && Foreign(a.clusters, names) == Foreign(b.clusters, names)
    && Foreign(a.users, UserNames(names)) == Foreign(b.users, UserNames(names))
    && Foreign(a.contexts, names) == Foreign(b.contexts, names)
  }

  /** Exactly one entry in every section, the cluster's pointing at the server. */
  ghost predicate OneEach(c: Config, name: string, server: string) {
    && |Named(c.clusters, name)| == 1 && Named(c.clusters, name)[0].server == server
    && |Named(c.users, UserName(name))| == 1
    && |Named(c.contexts, name)| == 1
  }

  ghost predicate Sound(c: Config, live: map<string, string>) {
    forall n :: n in live ==> OneEach(c, n, live[n])
  }

  lemma MergeStep(c: Config, k: Config, name: string, names: set<string>, live: map<string, string>)
    requires FileOf(k, name) && name in names && Sound(c, live)
    ensures SameForeign(Merged(c, k, name), c, names)
    ensures ServerOf(k, name).Some? && Sound(Merged(c, k, name), live[name := ServerOf(k, name).value])
  {
    NamedSingle(k, name);
    assert UserName(name) in UserNames(names);
    MergeKeepsForeign(c.clusters, k.clusters[0], name, names);
    MergeKeepsForeign(c.users, k.users[0], UserName(name), UserNames(names));
    MergeKeepsForeign(c.contexts, k.contexts[0], name, names);
    MergeLeavesOne(c.clusters, k.clusters[0], name);
    MergeLeavesOne(c.users, k.users[0], UserName(name));
    MergeLeavesOne(c.contexts, k.contexts[0], name);
    var next := live[name := ServerOf(k, name).value];
    forall n | n in next
      ensures OneEach(Merged(c, k, name), n, next[n])
    {
      if n != name {
        assert OneEach(c, n, live[n]);
        UserNamesDiffer(n, name);
        MergeKeepsOthers(c.clusters, k.clusters[0], name, n);
        MergeKeepsOthers(c.users, k.users[0], UserName(name), UserName(n));
        MergeKeepsOthers(c.contexts, k.contexts[0], name, n);
      }
    }
  }

  lemma DropStep(c: Config, name: string, names: set<string>, live: map<string, string>)
    requires name in names && Sound(c, live)
    ensures SameForeign(Without(c, name), c, names)
    ensures Sound(Without(c, name), live - {name})
  {
    assert UserName(name) in UserNames(names);
    FilterFilter(c.clusters, (e: Entry) => e.name != Some(name), (e: Entry) => e.name.None? || e.name.value !in names);
    FilterFilter(c.users, (e: Entry) => e.name != Some(UserName(name)), (e: Entry) => e.name.None? || e.name.value !in UserNames(names));
    FilterFilter(c.contexts, (e: Entry) => e.name != Some(name), (e: Entry) => e.name.None? || e.name.value !in names);
    forall n | n in live && n != name
      ensures OneEach(Without(c, name), n, live[n])
    {
      assert OneEach(c, n, live[n]);
      UserNamesDiffer(n, name);
      FilterFilter(c.clusters, (e: Entry) => e.name != Some(name), (e: Entry) => e.name == Some(n));
      FilterFilter(c.users, (e: Entry) => e.name != Some(UserName(name)), (e: Entry) => e.name == Some(UserName(n)));
      FilterFilter(c.contexts, (e: Entry) => e.name != Some(name), (e: Entry) => e.name == Some(n));
    }
  }

  lemma EmptyStep(c: Config, names: set<string>, live: map<string, string>)
    requires c.clusters == [] && c.users == [] && c.contexts == [] && Sound(c, live)
    ensures SameForeign(EMPTY, c, names) && Sound(EMPTY, live)
  {
    forall n | n in live
      ensures OneEach(EMPTY, n, live[n])
    {
      assert OneEach(c, n, live[n]);
    }
  }

  lemma StepKeeps(st: State, e: Event, names: set<string>)
    requires EventOf(e, names) && Sound(Loaded(st.file), st.live)
    ensures SameForeign(Loaded(Step(st, e).file), Loaded(st.file), names)
    ensures Sound(Loaded(Step(st, e).file), Step(st, e).live)
  {
    hide Merged;
    hide Without;
    hide Sound;
    hide MergeRefusal;
    match e
    case Use(name, k) => MergeStep(Loaded(st.file), k, name, names, st.live);
    case Delete(name, server) =>
      DropStep(Loaded(st.file), name, names, st.live);
      if st.file.Some? && Has(st.file.value, name, server) && Removed(st.file.value, name, server).None? {
        EmptyStep(Without(st.file.value, name), names, st.live - {name});
      }
  }

  predicate UsesServer(e: Event, server: string) {
    match e
    case Use(_, k) => k.clusters != [] && k.clusters[0].server == server
    case Delete(_, at) => at == server
  }

  /** Somebody else's: the cluster of that name is at a server that no event uses for it, or there is
      none and a context or user has its names. */
  ghost predicate Stranger(c: Config, name: string, events: seq<Event>) {
    || Taken(c, name)
    || exists i :: IsFirst(c.clusters, name, i) && forall e :: e in events && e.name == name ==> !UsesServer(e, c.clusters[i].server)
  }

  /** An event for a stranger's name does nothing. */
  lemma StrangerStays(st: State, e: Event, events: seq<Event>)
    requires e in events && (e.Use? ==> FileOf(e.file, e.name)) && Stranger(Loaded(st.file), e.name, events)
    ensures Step(st, e) == st
  {
    hide ServerOf;
    hide Taken;
    hide Elsewhere;
    hide MergeRefusal;
    hide Merged;
    hide Removed;
    var c := Loaded(st.file);
    ServerOfFirst(c, e.name);
    match e
    case Use(name, k) =>
      RefusedIff(c, k, name);
      ElsewhereAt(c, k, name);
    case Delete(name, server) =>
      if Taken(c, name) {
        TakenIsNone(c, name);
      }
  }

  lemma TakenIsNone(c: Config, name: string)
    requires Taken(c, name)
    ensures ServerOf(c, name).None?
  {
    ServerOfFirst(c, name);
  }

  lemma ElsewhereAt(c: Config, k: Config, name: string)
    requires FileOf(k, name)
    ensures forall i :: IsFirst(c.clusters, name, i) && k.clusters[0].server != c.clusters[i].server ==> Elsewhere(c, k, name)
  {
    forall i | IsFirst(c.clusters, name, i) && k.clusters[0].server != c.clusters[i].server
      ensures Elsewhere(c, k, name)
    {
      assert forall j :: IsFirst(k.clusters, name, j) ==> j == 0;
    }
  }

  /** Strangers are among the entries that keep their content and order, so they stay strangers. */
  lemma StrangersKept(a: Config, b: Config, names: set<string>, name: string, events: seq<Event>)
    requires SameForeign(a, b, names) && name !in names && Stranger(b, name, events)
    ensures Stranger(a, name, events)
  {
    hide ServerOf;
    ForeignNamed(a.clusters, b.clusters, names, name);
    ForeignNamed(a.contexts, b.contexts, names, name);
    assert UserName(name) !in UserNames(names) by {
      forall n | n in names
        ensures UserName(n) != UserName(name)
      {
        UserNamesDiffer(n, name);
      }
    }
    ForeignNamed(a.users, b.users, UserNames(names), UserName(name));
    hide Foreign;
    ServerOfNamed(a, name);
    ServerOfNamed(b, name);
    SameFirst(a, b, name);
    hide Named;
    hide UserNames;
  }

  lemma SameFirst(a: Config, b: Config, name: string)
    requires ServerOf(a, name) == ServerOf(b, name)
    ensures forall i :: IsFirst(b.clusters, name, i) ==>
              exists j :: IsFirst(a.clusters, name, j) && a.clusters[j].server == b.clusters[i].server
    ensures (forall e :: e in b.clusters ==> e.name != Some(name)) ==> forall e :: e in a.clusters ==> e.name != Some(name)
  {
    hide ServerOf;
    ServerOfFirst(a, name);
    ServerOfFirst(b, name);
  }

  lemma ForeignNamed(a: seq<Entry>, b: seq<Entry>, names: set<string>, name: string)
    requires Foreign(a, names) == Foreign(b, names) && name !in names
    ensures Named(a, name) == Named(b, name)
    ensures (exists e :: e in a && e.name == Some(name)) <==> exists e :: e in b && e.name == Some(name)
  {
    FilterFilter(a, (e: Entry) => e.name.None? || e.name.value !in names, (e: Entry) => e.name == Some(name));
    FilterFilter(b, (e: Entry) => e.name.None? || e.name.value !in names, (e: Entry) => e.name == Some(name));
    NamedSome(a, name);
    NamedSome(b, name);
  }

  /** Over any sequence of merges and removes of clusters with these names: entries of all other
      names, and of somebody else's cluster that happens to have one of them, keep their content and
      order in all three sections, and every cluster merged and not removed since has exactly one
      cluster, user and context entry. */
  lemma {:induction false} AnySequence(file: Option<Config>, events: seq<Event>, names: set<string>, strangers: set<string>)
    requires forall e :: e in events ==> EventOf(e, names)
    requires forall n :: n in strangers ==> Stranger(Loaded(file), n, events)
    ensures var st := Run(State(file, map[]), events);
            && SameForeign(Loaded(st.file), Loaded(file), names - strangers)
            && Sound(Loaded(st.file), st.live)
            && forall n :: n in strangers ==> n !in st.live
  {
    SequenceUpTo(file, events, names, strangers, |events|);
    assert events[..|events|] == events;
  }

  lemma {:induction false} SequenceUpTo(file: Option<Config>, events: seq<Event>, names: set<string>, strangers: set<string>, n: nat)
    requires n <= |events| && forall e :: e in events ==> EventOf(e, names)
    requires forall x :: x in strangers ==> Stranger(Loaded(file), x, events)
    ensures var st := Run(State(file, map[]), events[..n]);
            && SameForeign(Loaded(st.file), Loaded(file), names - strangers)
            && Sound(Loaded(st.file), st.live)
            && forall x :: x in strangers ==> x !in st.live
  {
    hide Sound;
    hide Step;
    hide Stranger;
    hide SameForeign;
    SameForeignSelf(Loaded(file), names - strangers);
    if n == 0 {
      NothingLive(Loaded(file));
    } else {
      var e := events[n - 1];
      var st := Run(State(file, map[]), events[..n - 1]);
      assert events[..n][..n - 1] == events[..n - 1] && e in events;
      SequenceUpTo(file, events, names, strangers, n - 1);
      if e.name in strangers {
        StrangersKept(Loaded(st.file), Loaded(file), names - strangers, e.name, events);
        StrangerStays(st, e, events);
      } else {
        StepKeeps(st, e, names - strangers);
        StepLive(st, e);
        SameForeignTrans(Loaded(Step(st, e).file), Loaded(st.file), Loaded(file), names - strangers);
      }
    }
  }

  lemma StepLive(st: State, e: Event)
    ensures forall x :: x in Step(st, e).live ==> x in st.live || x == e.name
  {
    hide MergeRefusal;
    hide Merged;
    hide Removed;
    hide ServerOf;
  }

  lemma SameForeignSelf(c: Config, names: set<string>)
    ensures SameForeign(c, c, names)
  {
  }

  lemma SameForeignTrans(a: Config, b: Config, c: Config, names: set<string>)
    requires SameForeign(a, b, names) && SameForeign(b, c, names)
    ensures SameForeign(a, c, names)
  {
  }

  lemma NothingLive(c: Config)
    ensures Sound(c, map[])
  {
  }
}
