/** The workspace marker: defaults, validation, selection, and the registry the web server builds from it. */
module Catalogs {
  import opened Strings
  import Names
  import opened Paths

  const DEFAULT_CLUSTER_ID := "default"

  // ----- defaults

  predicate AllDigits(s: string) {
    s != "" && forall i :: 0 <= i < |s| ==> Names.Digit(s[i])
  }

  /** The cluster a pod belongs to: its name without the instance index, if it has one. */
  predicate PodOf(pod: string, cluster: string) {
    cluster != "" && cluster + "-" <= pod && AllDigits(pod[|cluster| + 1..])
  }

  /** strings.LastIndex for one character; -1 if there is none. */
  method LastIndex(s: string, c: char) returns (i: int)
    ensures -1 <= i < |s|
    ensures i >= 0 ==> s[i] == c
    ensures forall k :: i < k < |s| ==> s[k] != c
  {
    i := |s| - 1;
    while i >= 0 && s[i] != c
      invariant -1 <= i < |s|
      invariant forall k :: i < k < |s| ==> s[k] != c
    {
      i := i - 1;
    }
  }

  method DigitsOnly(s: string) returns (all: bool)
    ensures all <==> AllDigits(s)
  {
    all := s != "";
    for i := 0 to |s|
      invariant all <==> s != "" && forall k :: 0 <= k < i ==> Names.Digit(s[k])
    {
      if !Names.Digit(s[i]) {
        return false;
      }
    }
  }

  /** The hyphen before the index is the last one. */
  lemma LastHyphen(pod: string, c: string, k: int)
    requires PodOf(pod, c) && |c| <= k < |pod|
    ensures pod[k] == '-' <==> k == |c|
  {
    assert pod[|c|] == (c + "-")[|c|];
    if k > |c| {
      assert pod[k] == pod[|c| + 1..][k - |c| - 1];
    }
  }

  lemma PodOfUnique(pod: string, a: string, b: string)
    requires PodOf(pod, a) && PodOf(pod, b)
    ensures a == b
  {
    if |a| <= |b| {
      LastHyphen(pod, a, |b|);
      LastHyphen(pod, b, |b|);
    } else {
      LastHyphen(pod, b, |a|);
      LastHyphen(pod, a, |a|);
    }
    assert a == pod[..|a|] && b == pod[..|b|];
  }

  method ClusterOfPod(pod: string) returns (cluster: string)
    ensures cluster == "" || PodOf(pod, cluster)
    ensures (exists c :: PodOf(pod, c)) ==> PodOf(pod, cluster)
  {
    var i := LastIndex(pod, '-');
    cluster := "";
    if i > 0 {
      var digits := DigitsOnly(pod[i + 1..]);
      if digits {
        cluster := pod[..i];
        assert pod[..i] + "-" == pod[..i + 1];
      }
    }
    if c :| PodOf(pod, c) {
      LastHyphen(pod, c, |c|);
      LastHyphen(pod, c, i);
    }
  }

  /** What defaults do: set fields are kept, empty ones filled in. */
  ghost predicate Defaulted(w: Workspace, r: Workspace) {
    && r.root == w.root && r.clusterYaml == w.clusterYaml && r.pod == w.pod && r.secretPrefix == w.secretPrefix
    && r.displayName == w.displayName
    && r.secretsDir == (if w.secretsDir == "" then "secrets/pg" else w.secretsDir)
    && r.namespace == (if w.namespace == "" then "pg" else w.namespace)
    && r.container == (if w.container == "" then "postgres" else w.container)
    && (w.clusterName != "" ==> r.clusterName == w.clusterName)
    && (w.clusterName == "" ==> r.clusterName == "" || PodOf(w.pod, r.clusterName))
    && (w.clusterName == "" && r.clusterName == "" ==> forall c :: !PodOf(w.pod, c))
    && r.serviceName == (if w.serviceName == "" then r.clusterName else w.serviceName)
  }

  /** Workspace.applyDefaults. */
  method ApplyDefaults(w: Workspace) returns (r: Workspace)
    ensures Defaulted(w, r)
  {
    r := w;
    if r.secretsDir == "" {
      r := r.(secretsDir := "secrets/pg");
    }
    if r.namespace == "" {
      r := r.(namespace := "pg");
    }
    if r.container == "" {
      r := r.(container := "postgres");
    }
    if r.clusterName == "" && r.pod != "" {
      var cluster := ClusterOfPod(r.pod);
      r := r.(clusterName := cluster);
    }
    if r.serviceName == "" {
      r := r.(serviceName := r.clusterName);
    }
  }

  /** Defaults leave no choice, and applying them again changes nothing. */
  lemma DefaultsAreUnique(w: Workspace, a: Workspace, b: Workspace)
    requires Defaulted(w, a) && Defaulted(w, b)
    ensures a == b && Defaulted(a, a)
  {
    if w.clusterName == "" && a.clusterName != "" && b.clusterName != "" {
      PodOfUnique(w.pod, a.clusterName, b.clusterName);
    }
  }

  // ----- loading

  predicate Valid(w: Workspace) {
    && ValidateRelativePath(w.clusterYaml, true) && ValidateRelativePath(w.secretsDir, false)
    && w.pod != "" && w.clusterName != "" && w.serviceName != ""
    && (w.secretPrefix == "" || Names.ValidClusterID(w.secretPrefix))
  }

  /** The parsed marker file: a flat workspace, or clusters by ID; a cluster may be declared without any configuration. */
  datatype Marker = Marker(flat: Workspace, defaultCluster: string, clusters: map<string, Option<Workspace>>)

  datatype Catalog = Catalog(root: string, defaultCluster: string, clusters: map<string, Workspace>)

  /** A configuration under its root, shown under its own name or its ID. */
  function Placed(root: string, id: string, config: Workspace): Workspace {
    config.(root := root, displayName := if config.displayName == "" then id else config.displayName)
  }

  ghost predicate Entry(root: string, id: string, config: Option<Workspace>, w: Workspace) {
    Names.ValidClusterID(id) && config.Some? && Defaulted(Placed(root, id, config.value), w) && Valid(w)
  }

  ghost predicate Acceptable(root: string, id: string, config: Option<Workspace>) {
    exists w :: Entry(root, id, config, w)
  }

  ghost predicate AllAcceptable(root: string, m: Marker) {
    forall id :: id in m.clusters ==> Acceptable(root, id, m.clusters[id])
  }

  /** Which markers load: a flat one always; otherwise every cluster must be acceptable and the default one of them. */
  ghost predicate Loadable(root: string, m: Marker) {
    m.clusters == map[] ||
    (&& AllAcceptable(root, m)
     && (m.defaultCluster in m.clusters || (m.defaultCluster == "" && |m.clusters| == 1)))
  }

  ghost predicate LoadedFlat(root: string, m: Marker, c: Catalog) {
    && c.defaultCluster == DEFAULT_CLUSTER_ID && c.clusters.Keys == {DEFAULT_CLUSTER_ID}
    && Defaulted(m.flat.(root := root, displayName := "Default cluster"), c.clusters[DEFAULT_CLUSTER_ID])
  }

  ghost predicate AllEntries(root: string, m: Marker, clusters: map<string, Workspace>) {
    clusters.Keys == m.clusters.Keys && forall id :: id in clusters ==> Entry(root, id, m.clusters[id], clusters[id])
  }

  ghost predicate LoadedClusters(root: string, m: Marker, c: Catalog) {
    && AllEntries(root, m, c.clusters)
    && c.defaultCluster in c.clusters && (m.defaultCluster != "" ==> c.defaultCluster == m.defaultCluster)
  }

  ghost predicate LoadedFrom(root: string, m: Marker, c: Catalog) {
    c.root == root && if m.clusters == map[] then LoadedFlat(root, m, c) else LoadedClusters(root, m, c)
  }

  /** Some order in which the runtime visits a map. */
  ghost predicate Visits<T(!new)>(order: seq<string>, m: map<string, T>) {
    && (forall i, j :: 0 <= i < j < |order| ==> order[i] != order[j])
    && (forall id :: id in m <==> id in order)
  }

  lemma {:induction false} VisitsOnce(order: seq<string>, keys: set<string>)
    requires forall i, j :: 0 <= i < j < |order| ==> order[i] != order[j]
    requires forall id :: id in keys <==> id in order
    ensures |order| == |keys|
  {
    if order == [] {
      assert keys == {};
    } else {
      var rest, last := order[..|order| - 1], order[|order| - 1];
      assert order == rest + [last];
      forall id ensures id in keys - {last} <==> id in rest {
        assert id in order <==> id in rest || id == last;
      }
      VisitsOnce(rest, keys - {last});
    }
  }

  /** One cluster of the marker. */
  method LoadEntry(root: string, id: string, config: Option<Workspace>) returns (r: Option<Workspace>)
    ensures r.Some? <==> Acceptable(root, id, config)
    ensures r.Some? ==> Entry(root, id, config, r.value)
  {
    if !Names.ValidClusterID(id) || config.None? {
      return None;
    }
    var w := ApplyDefaults(Placed(root, id, config.value));
    if Valid(w) {
      assert Entry(root, id, config, w);
      return Some(w);
    }
    forall v ensures !Entry(root, id, config, v) {
      if Entry(root, id, config, v) {
        DefaultsAreUnique(Placed(root, id, config.value), v, w);
      }
    }
    return None;
  }

  /** The clusters loaded so far. */
  ghost predicate SomeEntries(root: string, m: Marker, done: seq<string>, clusters: map<string, Workspace>) {
    && (forall id :: id in clusters <==> id in done)
    && (forall id :: id in clusters ==> id in m.clusters && Entry(root, id, m.clusters[id], clusters[id]))
  }

  lemma OneMoreEntry(root: string, m: Marker, order: seq<string>, i: nat, clusters: map<string, Workspace>, w: Workspace)
    requires i < |order| && SomeEntries(root, m, order[..i], clusters)
    requires order[i] in m.clusters && Entry(root, order[i], m.clusters[order[i]], w)
    ensures SomeEntries(root, m, order[..i + 1], clusters[order[i] := w])
  {
    assert order[..i + 1] == order[..i] + [order[i]];
  }

  lemma NotAll(root: string, m: Marker, id: string)
    requires id in m.clusters && !Acceptable(root, id, m.clusters[id])
    ensures !AllAcceptable(root, m)
  {
  }

  lemma EveryEntry(root: string, m: Marker, order: seq<string>, clusters: map<string, Workspace>)
    requires SomeEntries(root, m, order, clusters) && Visits(order, m.clusters)
    ensures AllEntries(root, m, clusters) && AllAcceptable(root, m)
  {
    assert clusters.Keys == m.clusters.Keys;
    forall id | id in m.clusters ensures Acceptable(root, id, m.clusters[id]) {
      assert Entry(root, id, m.clusters[id], clusters[id]);
    }
  }

  /** The loop over the declared clusters: it stops at the first that is not acceptable. */
  method LoadEntries(root: string, m: Marker, order: seq<string>) returns (r: Option<map<string, Workspace>>)
    requires Visits(order, m.clusters)
    ensures r.Some? <==> AllAcceptable(root, m)
    ensures r.Some? ==> AllEntries(root, m, r.value)
  {
    var clusters: map<string, Workspace> := map[];
    for i := 0 to |order|
      invariant SomeEntries(root, m, order[..i], clusters)
    {
      assert order[i] in m.clusters;
      var w := LoadEntry(root, order[i], m.clusters[order[i]]);
      if w.None? {
        NotAll(root, m, order[i]);
        return None;
      }
      OneMoreEntry(root, m, order, i, clusters, w.value);
      clusters := clusters[order[i] := w.value];
    }
    assert order[..|order|] == order;
    EveryEntry(root, m, order, clusters);
    r := Some(clusters);
  }

  /** workspace.loadCatalog after parsing; `order` is the order of its map iterations. */
  method LoadCatalog(root: string, m: Marker, order: seq<string>) returns (r: Result<Catalog>)
    requires Visits(order, m.clusters)
    ensures r.Ok? <==> Loadable(root, m)
    ensures r.Ok? ==> LoadedFrom(root, m, r.value)
  {
    VisitsOnce(order, m.clusters.Keys);
    if order == [] {
      assert m.clusters == map[];
      var flat := ApplyDefaults(m.flat.(root := root, displayName := "Default cluster"));
      return Ok(Catalog(root, DEFAULT_CLUSTER_ID, map[DEFAULT_CLUSTER_ID := flat]));
    }
    assert order[0] in m.clusters;
    var dflt := if m.defaultCluster == "" && |order| == 1 then order[0] else m.defaultCluster;
    if AllAcceptable(root, m) {
      NoEmptyIds(root, m);
    }
    if dflt == "" {
      return Err;
    }
    var clusters := LoadEntries(root, m, order);
    if clusters.None? || dflt !in clusters.value {
      return Err;
    }
    r := Ok(Catalog(root, dflt, clusters.value));
  }

  lemma NoEmptyIds(root: string, m: Marker)
    requires AllAcceptable(root, m)
    ensures "" !in m.clusters
  {
    assert !Names.ValidClusterID("");
  }

  /** Whatever order the maps are visited in, the result is the same. */
  lemma LoadingIsDeterministic(root: string, m: Marker, a: Catalog, b: Catalog)
    requires LoadedFrom(root, m, a) && LoadedFrom(root, m, b)
    requires Loadable(root, m)
    ensures a == b
  {
    if m.clusters == map[] {
      DefaultsAreUnique(m.flat.(root := root, displayName := "Default cluster"), a.clusters[DEFAULT_CLUSTER_ID],
                        b.clusters[DEFAULT_CLUSTER_ID]);
      assert a.clusters == b.clusters;
    } else {
      SameEntries(root, m, a.clusters, b.clusters);
      if m.defaultCluster == "" {
        assert !Names.ValidClusterID("");
        OnlyOne(m.clusters.Keys, a.defaultCluster, b.defaultCluster);
      }
    }
  }

  lemma SameEntries(root: string, m: Marker, a: map<string, Workspace>, b: map<string, Workspace>)
    requires AllEntries(root, m, a) && AllEntries(root, m, b)
    ensures a == b
  {
    forall id | id in a ensures a[id] == b[id] {
      DefaultsAreUnique(Placed(root, id, m.clusters[id].value), a[id], b[id]);
    }
  }

  lemma OnlyOne(keys: set<string>, a: string, b: string)
    requires a in keys && b in keys && |keys| == 1
    ensures a == b
  {
    assert |keys - {a}| == 0;
  }

  // ----- selection

  /** Catalog.Select; the empty ID stands for the default. */
  function Select(c: Catalog, id: string): Option<Workspace> {
    var chosen := if id == "" then c.defaultCluster else id;
    if chosen in c.clusters then Some(c.clusters[chosen]) else None
  }

  /** In a loaded catalog the default can be selected, and so can every declared ID, each to its own workspace. */
  lemma LoadedIsSelectable(root: string, m: Marker, c: Catalog)
    requires LoadedFrom(root, m, c)
    ensures c.defaultCluster in c.clusters && Select(c, "") == Some(c.clusters[c.defaultCluster])
    ensures forall id :: id in c.clusters ==> id != "" && Select(c, id) == Some(c.clusters[id])
    ensures forall id :: id != "" && id !in c.clusters ==> Select(c, id) == None
  {
    forall id | id in c.clusters ensures id != "" {
      if m.clusters == map[] {
        assert id == DEFAULT_CLUSTER_ID;
      } else {
        assert Entry(root, id, m.clusters[id], c.clusters[id]);
      }
    }
  }

  /** Every workspace of a catalog with a clusters section keeps its manifest and its SOPS files under the root. */
  lemma CatalogStaysUnderRoot(root: string, m: Marker, c: Catalog, id: string, app: string)
    requires IsAbs(root) && LoadedFrom(root, m, c) && m.clusters != map[] && id in c.clusters
    ensures Under(root, ClusterYamlPath(c.clusters[id])) && Under(root, SecretPath(c.clusters[id], app))
    ensures c.clusters[id].secretPrefix == "" || Names.ValidClusterID(c.clusters[id].secretPrefix)
  {
    assert Entry(root, id, m.clusters[id], c.clusters[id]);
    WorkspacePathsStayUnder(c.clusters[id], app);
  }

  /** What a declared cluster needs, in terms of the marker: the defaults are never what is refused. */
  lemma AcceptableIff(root: string, id: string, config: Option<Workspace>)
    ensures Acceptable(root, id, config)
       <==> && Names.ValidClusterID(id) && config.Some?
            && ValidateRelativePath(config.value.clusterYaml, true)
            && (config.value.secretsDir != "" ==> ValidateRelativePath(config.value.secretsDir, false))
            && config.value.pod != ""
            && (config.value.clusterName != "" || exists c :: PodOf(config.value.pod, c))
            && (config.value.secretPrefix == "" || Names.ValidClusterID(config.value.secretPrefix))
  {
    if config.Some? {
      var w := Defaults(Placed(root, id, config.value));
      DefaultDirIsInside();
      forall v | Entry(root, id, config, v) ensures v == w {
        DefaultsAreUnique(Placed(root, id, config.value), v, w);
      }
      if w.clusterName != "" && config.value.clusterName == "" {
        assert PodOf(config.value.pod, w.clusterName);
      }
      assert Acceptable(root, id, config) <==> Entry(root, id, config, w);
    }
  }

  lemma DefaultDirIsInside()
    ensures ValidateRelativePath("secrets/pg", false)
  {
    assert "secrets" + ['/'] + "pg" == "secrets/pg";
    SplitOfFree("secrets", '/');
    SplitOfFree("pg", '/');
    SplitAppend("secrets", "pg", '/');
    TwoPlainNames("secrets", "pg");
  }

  lemma TwoPlainNames(a: string, b: string)
    requires Plain(a) && Plain(b) && Split(a + ['/'] + b, '/') == [a, b] && a[0] != '.'
    ensures ValidateRelativePath(a + ['/'] + b, false)
  {
    AcceptedIffInside(a + ['/'] + b, false);
    var comps := Split(a + ['/'] + b, '/');
    forall k | 0 <= k <= |comps| ensures Height(comps[..k]) >= 0 {
      PlainHeight(comps[..k]);
    }
  }

  lemma {:induction false} PlainHeight(comps: seq<string>)
    requires AllPlain(comps)
    ensures Height(comps) >= 0
  {
    if comps != [] {
      PlainHeight(comps[..|comps| - 1]);
    }
  }

  /** The defaults as a function, by the contract of ApplyDefaults. */
  ghost function Defaults(w: Workspace): (r: Workspace)
    ensures Defaulted(w, r)
  {
    var cluster := if w.clusterName != "" then w.clusterName
                   else if exists c :: PodOf(w.pod, c) then var c :| PodOf(w.pod, c); c
                   else "";
    w.(secretsDir := if w.secretsDir == "" then "secrets/pg" else w.secretsDir,
       namespace := if w.namespace == "" then "pg" else w.namespace,
       container := if w.container == "" then "postgres" else w.container,
       clusterName := cluster,
       serviceName := if w.serviceName == "" then cluster else w.serviceName)
  }

  /** What a loaded cluster keeps of its configuration, and what a flat marker becomes. */
  lemma LoadedKeepsConfig(root: string, m: Marker, c: Catalog, id: string)
    requires LoadedFrom(root, m, c) && id in c.clusters
    ensures c.clusters[id].root == root
    ensures m.clusters == map[] ==>
      && id == "default" && c.defaultCluster == "default" && c.clusters[id].displayName == "Default cluster"
      && c.clusters[id].clusterYaml == m.flat.clusterYaml && c.clusters[id].pod == m.flat.pod
    ensures m.clusters != map[] ==>
      && id in m.clusters && m.clusters[id].Some?
      && var w, config := c.clusters[id], m.clusters[id].value;
         && w.displayName == (if config.displayName == "" then id else config.displayName)
         && w.clusterYaml == config.clusterYaml && w.pod == config.pod && w.secretPrefix == config.secretPrefix
         && w.pod != "" && w.clusterName != "" && w.serviceName != ""
  {
    if m.clusters != map[] {
      assert Entry(root, id, m.clusters[id], c.clusters[id]);
    }
  }

  /** The default of several clusters is the one the marker names, and without one they are refused. */
  lemma DefaultIsDeclared(root: string, m: Marker, c: Catalog)
    ensures LoadedFrom(root, m, c) && m.defaultCluster != "" && m.clusters != map[] ==> c.defaultCluster == m.defaultCluster
    ensures Loadable(root, m) && m.clusters != map[] && m.defaultCluster != "" ==> m.defaultCluster in m.clusters
    ensures Loadable(root, m) && |m.clusters| > 1 ==> m.defaultCluster != "" && m.defaultCluster in m.clusters
  {
    if Loadable(root, m) && m.clusters != map[] {
      NoEmptyIds(root, m);
    }
  }

  // ----- the web server's registry

  datatype Target = Target(id: string, displayName: string, workspace: Workspace)

  datatype Registry = Registry(defaultId: string, targets: map<string, Target>)

  predicate DistinctIds(targets: seq<Target>) {
    forall i, j :: 0 <= i < j < |targets| ==> targets[i].id != targets[j].id
  }

  predicate HasId(targets: seq<Target>, id: string) {
    exists i :: 0 <= i < |targets| && targets[i].id == id
  }

  predicate Registrable(defaultId: string, targets: seq<Target>) {
    && (forall i :: 0 <= i < |targets| ==> targets[i].id != "")
    && DistinctIds(targets)
    && targets != []
    && (HasId(targets, defaultId) || (defaultId == "" && |targets| == 1))
  }

  /** A target as the pages show it: under its display name, or under its ID if it has none. */
  function Shown(t: Target): (r: Target)
    ensures r.id == t.id && r.workspace == t.workspace
    ensures t.displayName != "" ==> r == t
    ensures t.displayName == "" ==> r.displayName == t.id
  {
    t.(displayName := if t.displayName == "" then t.id else t.displayName)
  }

  /** The loop of NewClusterRegistry: it stops at the first empty or repeated ID. */
  method IndexTargets(targets: seq<Target>) returns (r: Option<map<string, Target>>)
    ensures r.Some? <==> DistinctIds(targets) && forall i :: 0 <= i < |targets| ==> targets[i].id != ""
    ensures r.Some? ==> forall id :: id in r.value <==> HasId(targets, id)
    ensures r.Some? ==> forall i :: 0 <= i < |targets| ==>
      targets[i].id in r.value && r.value[targets[i].id] == Shown(targets[i])
  {
    var byId: map<string, Target> := map[];
    for i := 0 to |targets|
      invariant forall k :: 0 <= k < i ==> targets[k].id != "" && targets[k].id in byId
      invariant forall k :: 0 <= k < i ==> byId[targets[k].id] == Shown(targets[k])
      invariant forall id :: id in byId ==> exists k :: 0 <= k < i && targets[k].id == id
      invariant forall j, k :: 0 <= j < k < i ==> targets[j].id != targets[k].id
    {
      if targets[i].id == "" || targets[i].id in byId {
        return None;
      }
      byId := byId[targets[i].id := Shown(targets[i])];
    }
    r := Some(byId);
  }

  /** web.NewClusterRegistry. */
  method NewClusterRegistry(defaultId: string, targets: seq<Target>) returns (r: Result<Registry>)
    ensures r.Ok? <==> Registrable(defaultId, targets)
    ensures r.Ok? ==> forall id :: id in r.value.targets <==> HasId(targets, id)
    ensures r.Ok? ==> forall i :: 0 <= i < |targets| ==>
      targets[i].id in r.value.targets && r.value.targets[targets[i].id] == Shown(targets[i])
    ensures r.Ok? ==> r.value.defaultId in r.value.targets && (defaultId != "" ==> r.value.defaultId == defaultId)
  {
    var byId := IndexTargets(targets);
    if byId.None? || targets == [] {
      return Err;
    }
    assert targets[0].id in byId.value;
    var chosen := if defaultId == "" && |targets| == 1 then targets[0].id else defaultId;
    if chosen !in byId.value {
      return Err;
    }
    r := Ok(Registry(chosen, byId.value));
  }

  /** The targets buildClusterRegistry hands over, in the order of `ids`. */
  function TargetsOf(c: Catalog, ids: seq<string>): (ts: seq<Target>)
    requires forall i :: 0 <= i < |ids| ==> Select(c, ids[i]).Some?
    ensures |ts| == |ids|
    ensures forall i :: 0 <= i < |ids| ==>
      ts[i] == Target(ids[i], Select(c, ids[i]).value.displayName, Select(c, ids[i]).value)
  {
    seq(|ids|, i requires 0 <= i < |ids| => Target(ids[i], Select(c, ids[i]).value.displayName, Select(c, ids[i]).value))
  }

  /** Every loaded catalog gives a registry, with the same IDs, default and workspaces. */
  method BuildClusterRegistry(root: string, m: Marker, c: Catalog, ids: seq<string>) returns (r: Registry)
    requires LoadedFrom(root, m, c) && Visits(ids, c.clusters)
    ensures r.targets.Keys == c.clusters.Keys && r.defaultId == c.defaultCluster
    ensures forall id :: id in c.clusters ==>
      r.targets[id] == Target(id, c.clusters[id].displayName, c.clusters[id])
  {
    LoadedIsSelectable(root, m, c);
    var targets := TargetsOf(c, ids);
    TargetsRegistrable(root, m, c, ids, targets);
    var built := NewClusterRegistry(c.defaultCluster, targets);
    r := built.value;
    forall id | id in c.clusters
      ensures id in r.targets && r.targets[id] == Target(id, c.clusters[id].displayName, c.clusters[id])
    {
      var i := TargetOf(root, m, c, ids, targets, id);
      ShownAlready(root, m, c, id);
    }
    forall id | id in r.targets ensures id in c.clusters {
      var i :| 0 <= i < |targets| && targets[i].id == id;
      assert ids[i] == id;
    }
  }

  lemma TargetOf(root: string, m: Marker, c: Catalog, ids: seq<string>, targets: seq<Target>, id: string) returns (i: nat)
    requires LoadedFrom(root, m, c) && Visits(ids, c.clusters) && id in c.clusters
    requires forall k :: 0 <= k < |ids| ==> Select(c, ids[k]).Some?
    requires targets == TargetsOf(c, ids)
    ensures i < |targets| && targets[i] == Target(id, c.clusters[id].displayName, c.clusters[id])
  {
    LoadedIsSelectable(root, m, c);
    assert id in ids;
    i :| 0 <= i < |ids| && ids[i] == id;
  }

  lemma TargetsRegistrable(root: string, m: Marker, c: Catalog, ids: seq<string>, targets: seq<Target>)
    requires LoadedFrom(root, m, c) && Visits(ids, c.clusters)
    requires forall k :: 0 <= k < |ids| ==> Select(c, ids[k]).Some?
    requires targets == TargetsOf(c, ids)
    ensures Registrable(c.defaultCluster, targets)
  {
    LoadedIsSelectable(root, m, c);
    var k := TargetOf(root, m, c, ids, targets, c.defaultCluster);
    forall i | 0 <= i < |targets| ensures targets[i].id != "" {
      assert ids[i] in ids;
    }
  }

  lemma ShownAlready(root: string, m: Marker, c: Catalog, id: string)
    requires LoadedFrom(root, m, c) && id in c.clusters
    ensures c.clusters[id].displayName != ""
  {
    if m.clusters != map[] {
      assert Entry(root, id, m.clusters[id], c.clusters[id]);
    }
  }
}
