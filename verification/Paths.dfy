/** Lexical path containment: the paths a workspace catalog declares stay under the workspace root. */
module Paths {
  import opened Strings
  import Names

  // ----- path/filepath on Unix

  /** One component of filepath.Clean's stack algorithm. */
  function Enter(stack: seq<string>, rooted: bool, comp: string): seq<string> {
    if comp == "" || comp == "." then stack
    else if comp != ".." then stack + [comp]
    else if stack != [] && stack[|stack| - 1] != ".." then stack[..|stack| - 1]
    else if rooted then stack
    else stack + [".."]
  }

  function Walk(stack: seq<string>, rooted: bool, comps: seq<string>): seq<string>
    decreases comps
  {
    if comps == [] then stack else Walk(Enter(stack, rooted, comps[0]), rooted, comps[1..])
  }

  predicate IsAbs(path: string) { path != "" && path[0] == '/' }

  /** The cleaned components of a path. */
  function Components(path: string): seq<string> {
    Walk([], IsAbs(path), Split(path, '/'))
  }

  function Clean(path: string): string {
    var stack := Components(path);
    if IsAbs(path) then "/" + Join(stack, '/')
    else if stack == [] then "."
    else Join(stack, '/')
  }

  /** filepath.Join. */
  function JoinPath(elems: seq<string>): string {
    if elems == [] then ""
    else if elems[0] == "" then JoinPath(elems[1..])
    else Clean(Join(elems, '/'))
  }

  // ----- validateRelativePath

  /** workspace.validateRelativePath; true means nil. */
  predicate ValidateRelativePath(value: string, file: bool) {
    if value == "" then !file
    else if IsAbs(value) then false
    else
      var clean := Clean(value);
      !(clean == ".." || "../" <= clean)
  }

  /** How far above (negative) or below its start a component walk ends. */
  function Height(comps: seq<string>): int {
    if comps == [] then 0
    else
      var last := comps[|comps| - 1];
      Height(comps[..|comps| - 1])
      + (if last == "" || last == "." then 0 else if last == ".." then -1 else 1)
  }

  ghost predicate StaysInside(comps: seq<string>) {
    forall k {:trigger comps[..k]} :: 0 <= k <= |comps| ==> Height(comps[..k]) >= 0
  }

  /** A path lies under an absolute root: its cleaned components extend the root's. */
  predicate Under(root: string, path: string) {
    IsAbs(path) && Components(root) <= Components(path)
  }

  predicate Plain(comp: string) {
    comp != "" && comp != "." && comp != ".." && Free(comp, '/')
  }

  predicate AllPlain(comps: seq<string>) {
    forall i :: 0 <= i < |comps| ==> Plain(comps[i])
  }

  lemma {:induction false} WalkAppend(stack: seq<string>, rooted: bool, a: seq<string>, b: seq<string>)
    ensures Walk(stack, rooted, a + b) == Walk(Walk(stack, rooted, a), rooted, b)
    decreases a
  {
    if a == [] {
      assert a + b == b;
    } else {
      WalkAppend(Enter(stack, rooted, a[0]), rooted, a[1..], b);
      assert (a + b)[0] == a[0] && (a + b)[1..] == a[1..] + b;
    }
  }

  lemma WalkSnoc(stack: seq<string>, rooted: bool, comps: seq<string>)
    requires comps != []
    ensures Walk(stack, rooted, comps)
         == Enter(Walk(stack, rooted, comps[..|comps| - 1]), rooted, comps[|comps| - 1])
  {
    var init, last := comps[..|comps| - 1], comps[|comps| - 1];
    assert comps == init + [last];
    WalkAppend(stack, rooted, init, [last]);
    assert [last][1..] == [];
  }

  lemma InsideInit(comps: seq<string>)
    requires comps != []
    ensures StaysInside(comps) <==> StaysInside(comps[..|comps| - 1]) && Height(comps) >= 0
  {
    var init := comps[..|comps| - 1];
    assert comps[..|comps|] == comps;
    if StaysInside(comps) {
      forall k | 0 <= k <= |init| ensures Height(init[..k]) >= 0 {
        assert init[..k] == comps[..k];
      }
    }
    if StaysInside(init) && Height(comps) >= 0 {
      forall k | 0 <= k <= |comps| ensures Height(comps[..k]) >= 0 {
        if k < |comps| {
          assert comps[..k] == init[..k];
        }
      }
    }
  }

  lemma InsideEnter(base: seq<string>, rooted: bool, st: seq<string>, comp: string)
    requires AllPlain(base) && AllPlain(st) && Free(comp, '/') && (comp == ".." ==> st != [])
    ensures AllPlain(Enter(st, false, comp))
    ensures |Enter(st, false, comp)| == |st| + if comp == "" || comp == "." then 0 else if comp == ".." then -1 else 1
    ensures Enter(base + st, rooted, comp) == base + Enter(st, false, comp)
  {
    if comp == ".." {
      assert (base + st)[..|base + st| - 1] == base + st[..|st| - 1];
    } else if comp != "" && comp != "." {
      ConsAppend(base, st, [comp]);
    }
  }

  /** While the walk stays inside, the stack holds plain names only and is as high as the walk. */
  lemma {:induction false} InsideWalk(base: seq<string>, rooted: bool, comps: seq<string>)
    requires AllPlain(base) && StaysInside(comps)
    requires forall i :: 0 <= i < |comps| ==> Free(comps[i], '/')
    ensures |Walk([], false, comps)| == Height(comps)
    ensures AllPlain(Walk([], false, comps))
    ensures Walk(base, rooted, comps) == base + Walk([], false, comps)
  {
    if comps != [] {
      var init, last := comps[..|comps| - 1], comps[|comps| - 1];
      InsideInit(comps);
      InsideWalk(base, rooted, init);
      WalkSnoc([], false, comps);
      WalkSnoc(base, rooted, comps);
      InsideEnter(base, rooted, Walk([], false, init), last);
    }
  }

  /** Once it has risen above its start, a relative walk keeps ".." at the bottom. */
  lemma {:induction false} RisenWalk(comps: seq<string>)
    requires !StaysInside(comps)
    requires forall i :: 0 <= i < |comps| ==> Free(comps[i], '/')
    ensures Walk([], false, comps) != [] && Walk([], false, comps)[0] == ".."
  {
    var init, last := comps[..|comps| - 1], comps[|comps| - 1];
    InsideInit(comps);
    WalkSnoc([], false, comps);
    if StaysInside(init) {
      InsideWalk([], false, init);
    } else {
      RisenWalk(init);
      var st := Walk([], false, init);
      if last == ".." && st[|st| - 1] != ".." {
        assert |st| > 1;
      }
    }
  }

  lemma DotDotPrefix(st: seq<string>)
    requires st != [] && Free(st[0], '/')
    ensures Join(st, '/') == ".." || "../" <= Join(st, '/') <==> st[0] == ".."
  {
    var j := Join(st, '/');
    SplitOfFree(st[0], '/');
    if |st| > 1 {
      SplitAppend(st[0], Join(st[1..], '/'), '/');
    }
    assert Split(j, '/')[0] == st[0];
    if "../" <= j {
      assert j == ".." + ['/'] + j[3..];
      SplitAppend("..", j[3..], '/');
      SplitOfFree("..", '/');
    }
    if st[0] == ".." && |st| > 1 {
      assert j[..3] == "../";
    }
  }

  lemma {:induction false} WalkStaysFree(stack: seq<string>, rooted: bool, comps: seq<string>)
    requires forall i :: 0 <= i < |stack| ==> Free(stack[i], '/')
    requires forall i :: 0 <= i < |comps| ==> Free(comps[i], '/')
    ensures forall i :: 0 <= i < |Walk(stack, rooted, comps)| ==> Free(Walk(stack, rooted, comps)[i], '/')
    decreases comps
  {
    if comps != [] {
      WalkStaysFree(Enter(stack, rooted, comps[0]), rooted, comps[1..]);
    }
  }

  /**
   For every non-empty relative value: it is accepted exactly when no prefix of its component walk rises above
   the start.
   */
  lemma AcceptedIffInside(value: string, file: bool)
    requires value != "" && !IsAbs(value)
    ensures ValidateRelativePath(value, file) <==> StaysInside(Split(value, '/'))
  {
    var comps := Split(value, '/');
    SplitIsFree(value, '/');
    var st := Walk([], false, comps);
    WalkStaysFree([], false, comps);
    if st != [] {
      DotDotPrefix(st);
    }
    if StaysInside(comps) {
      InsideWalk([], false, comps);
    } else {
      RisenWalk(comps);
    }
  }

  // ----- containment

  lemma {:induction false} RootedWalkIsPlain(stack: seq<string>, comps: seq<string>)
    requires AllPlain(stack)
    requires forall i :: 0 <= i < |comps| ==> Free(comps[i], '/')
    ensures AllPlain(Walk(stack, true, comps))
    decreases comps
  {
    if comps != [] {
      RootedWalkIsPlain(Enter(stack, true, comps[0]), comps[1..]);
    }
  }

  lemma {:induction false} PlainWalk(stack: seq<string>, rooted: bool, comps: seq<string>)
    requires AllPlain(comps)
    ensures Walk(stack, rooted, comps) == stack + comps
    decreases comps
  {
    if comps != [] {
      PlainWalk(stack + [comps[0]], rooted, comps[1..]);
      assert stack + comps == stack + [comps[0]] + comps[1..];
    }
  }

  lemma AbsoluteComponents(path: string)
    requires IsAbs(path)
    ensures AllPlain(Components(path))
  {
    SplitIsFree(path, '/');
    RootedWalkIsPlain([], Split(path, '/'));
  }

  /** Cleaning an absolute path keeps its components. */
  lemma CleanKeepsComponents(path: string)
    requires IsAbs(path)
    ensures IsAbs(Clean(path)) && Components(Clean(path)) == Components(path)
  {
    AbsoluteComponents(path);
    var st := Components(path);
    assert Clean(path) == "" + ['/'] + Join(st, '/');
    SplitAppend("", Join(st, '/'), '/');
    RootedReadsBack(st);
  }

  lemma RootedReadsBack(st: seq<string>)
    requires AllPlain(st)
    ensures Walk([], true, [""] + Split(Join(st, '/'), '/')) == st
  {
    WalkAppend([], true, [""], Split(Join(st, '/'), '/'));
    PlainWalk([], true, st);
    assert Walk([], true, [""]) == [];
    if st == [] {
      assert Split("", '/') == [""];
    } else {
      SplitOfJoin(st, '/');
    }
  }

  /** Joining onto an absolute root continues the root's walk. */
  lemma JoinedWalk(root: string, rest: string)
    requires IsAbs(root)
    ensures IsAbs(root + ['/'] + rest)
    ensures Components(root + ['/'] + rest) == Walk(Components(root), true, Split(rest, '/'))
  {
    SplitAppend(root, rest, '/');
    WalkAppend([], true, Split(root, '/'), Split(rest, '/'));
  }

  lemma JoinedPaths(a: string, b: string, c: string)
    ensures Join([a, b], '/') == a + ['/'] + b
    ensures Join([a, b, c], '/') == a + ['/'] + b + ['/'] + c
  {
    assert [a, b][1..] == [b];
    assert [b, c][1..] == [c];
    assert Join([b, c], '/') == b + ['/'] + c;
    assert [a, b, c][1..] == [b, c];
    assert Join([a, b, c], '/') == a + ['/'] + Join([b, c], '/');
    assert a + ['/'] + (b + ['/'] + c) == a + ['/'] + b + ['/'] + c;
  }

  datatype Workspace = Workspace(
    root: string, clusterYaml: string, secretsDir: string, namespace: string, pod: string, container: string,
    clusterName: string, serviceName: string, secretPrefix: string, displayName: string)

  /** Workspace.ClusterYAMLPath. */
  function ClusterYamlPath(w: Workspace): string {
    JoinPath([w.root, w.clusterYaml])
  }

  const EXTENSION := ".sops.yaml"

  function SecretName(w: Workspace, app: string): string {
    Names.SecretName(w.secretPrefix, app)
  }

  /** Workspace.SecretPath. */
  function SecretPath(w: Workspace, app: string): string {
    JoinPath([w.root, w.secretsDir, SecretName(w, app) + EXTENSION])
  }

  /** An accepted value leads from any absolute root to a path under it, and so does every prefix of its walk. */
  lemma AcceptedStaysUnder(root: string, value: string, file: bool)
    requires IsAbs(root) && ValidateRelativePath(value, file)
    ensures Under(root, root + ['/'] + value)
    ensures Components(root + ['/'] + value) == Components(root) + Components(value)
  {
    JoinedWalk(root, value);
    AbsoluteComponents(root);
    SplitIsFree(value, '/');
    if value == "" {
      assert Split("", '/') == [""];
      assert Walk(Components(root), true, [""]) == Walk(Components(root), true, []);
      assert Walk([], false, [""]) == Walk([], false, []);
    } else {
      AcceptedIffInside(value, file);
      InsideWalk(Components(root), true, Split(value, '/'));
    }
  }

  /** A rejected relative value really leaves: at the step where its walk rises, the root is no longer a prefix. */
  lemma RejectedLeaves(root: string, value: string, file: bool)
    requires IsAbs(root) && Components(root) != []
    requires value != "" && !IsAbs(value) && !ValidateRelativePath(value, file)
    ensures exists k :: 0 <= k <= |Split(value, '/')|
                     && !(Components(root) <= Walk(Components(root), true, Split(value, '/')[..k]))
  {
    var comps := Split(value, '/');
    AcceptedIffInside(value, file);
    SplitIsFree(value, '/');
    AbsoluteComponents(root);
    var k := FirstRise(comps);
    RiseLeaves(Components(root), comps, k);
  }

  lemma RiseLeaves(base: seq<string>, comps: seq<string>, k: nat)
    requires AllPlain(base) && base != [] && 1 <= k <= |comps| && comps[k - 1] == ".."
    requires StaysInside(comps[..k - 1]) && Height(comps[..k - 1]) == 0
    requires forall i :: 0 <= i < |comps| ==> Free(comps[i], '/')
    ensures |Walk(base, true, comps[..k])| < |base|
  {
    var init := comps[..k - 1];
    assert comps[..k][..k - 1] == init && comps[..k][k - 1] == "..";
    InsideWalk(base, true, init);
    WalkSnoc(base, true, comps[..k]);
    assert base + [] == base;
  }

  lemma {:induction false} FirstRise(comps: seq<string>) returns (k: nat)
    requires !StaysInside(comps)
    ensures 1 <= k <= |comps| && comps[k - 1] == ".."
    ensures StaysInside(comps[..k - 1]) && Height(comps[..k - 1]) == 0
  {
    var init := comps[..|comps| - 1];
    InsideInit(comps);
    if StaysInside(init) {
      k := |comps|;
      assert init[..|init|] == init;
    } else {
      k := FirstRise(init);
      assert init[..k - 1] == comps[..k - 1];
    }
  }

  lemma NamesArePlain(w: Workspace, app: string)
    ensures Plain(SecretName(w, app) + EXTENSION)
  {
    Names.SecretNameIsJoined(w.secretPrefix, app);
    Names.JoinedWordsAreHyphenated(Names.AllSegments(w.secretPrefix, app));
    PlainFileName(Join(Names.AllSegments(w.secretPrefix, app), '-') + Names.SUFFIX);
  }

  lemma PlainFileName(stem: string)
    requires Free(stem, '/')
    ensures Plain(stem + EXTENSION)
  {
    assert |stem + EXTENSION| > 2;
  }

  /** Both paths of a validated workspace lie under its root. */
  lemma WorkspacePathsStayUnder(w: Workspace, app: string)
    requires IsAbs(w.root)
    requires ValidateRelativePath(w.clusterYaml, true) && ValidateRelativePath(w.secretsDir, false)
    ensures Under(w.root, ClusterYamlPath(w)) && Under(w.root, SecretPath(w, app))
  {
    ClusterYamlComponents(w);
    AcceptedStaysUnder(w.root, w.secretsDir, false);
    SecretPathComponents(w, app);
  }

  /** The manifest is the declared file, component by component, from the root on. */
  lemma ClusterYamlComponents(w: Workspace)
    requires IsAbs(w.root)
    ensures IsAbs(ClusterYamlPath(w))
    ensures Components(ClusterYamlPath(w)) == Walk(Components(w.root), true, Split(w.clusterYaml, '/'))
    ensures ValidateRelativePath(w.clusterYaml, true) ==>
      Components(ClusterYamlPath(w)) == Components(w.root) + Components(w.clusterYaml)
  {
    JoinedPaths(w.root, w.clusterYaml, "");
    JoinedWalk(w.root, w.clusterYaml);
    CleanKeepsComponents(w.root + ['/'] + w.clusterYaml);
    if ValidateRelativePath(w.clusterYaml, true) {
      AcceptedStaysUnder(w.root, w.clusterYaml, true);
    }
  }

  lemma SecretPathComponents(w: Workspace, app: string)
    requires IsAbs(w.root)
    ensures IsAbs(SecretPath(w, app))
    ensures Components(SecretPath(w, app))
         == Components(w.root + ['/'] + w.secretsDir) + [Names.SecretName(w.secretPrefix, app) + ".sops.yaml"]
  {
    var dir, file := w.root + ['/'] + w.secretsDir, SecretName(w, app) + EXTENSION;
    NamesArePlain(w, app);
    JoinedPaths(w.root, w.secretsDir, file);
    JoinedWalk(dir, file);
    SplitOfFree(file, '/');
    PlainWalk(Components(dir), true, [file]);
    CleanKeepsComponents(dir + ['/'] + file);
  }

  /** Tenants of one workspace share a SOPS file exactly when they share a Secret. */
  lemma SecretPathsCollide(w: Workspace, a: string, b: string)
    requires IsAbs(w.root)
    ensures SecretPath(w, a) == SecretPath(w, b) <==> SecretName(w, a) == SecretName(w, b)
  {
    SecretPathComponents(w, a);
    SecretPathComponents(w, b);
    if SecretPath(w, a) == SecretPath(w, b) {
      var c := Components(SecretPath(w, a));
      var x, y := SecretName(w, a) + EXTENSION, SecretName(w, b) + EXTENSION;
      assert c[|c| - 1] == x == y;
      assert SecretName(w, a) == x[..|x| - |EXTENSION|] == y[..|y| - |EXTENSION|] == SecretName(w, b);
    }
  }
}
