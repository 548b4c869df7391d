/**
 Edits of the CNPG Cluster manifest: one sequence, spec.managed.roles, is rewritten deep inside a YAML tree and
 everything else is kept.
 */
module Manifest {
  import opened Strings

  datatype Kind = NoNode | DocumentNode | SequenceNode | MappingNode | ScalarNode | AliasNode

  /** yaml.Node; `extra` stands for comments, style and anchor. */
  datatype Node = Node(kind: Kind, tag: string, value: string, extra: string, content: seq<Node>)

  datatype Role = Role(name: string, comment: string, passwordSecret: string)

  datatype Outcome = Patched(doc: Node) | RoleExists | BadInput | BadTree

  // ----- reading the tree

  /** The position of the value of `key`: the first match among the keys at even positions from i on. */
  function ValueIndex(content: seq<Node>, key: string, i: nat): (r: Option<nat>)
    ensures r.Some? ==> i < r.value < |content|
    decreases |content| - i
  {
    if i + 1 >= |content| then None
    else if content[i].value == key then Some(i + 1)
    else ValueIndex(content, key, i + 2)
  }

  function ChildIndex(n: Node, key: string): (r: Option<nat>)
    ensures r.Some? ==> r.value < |n.content|
  {
    if n.kind != MappingNode then None else ValueIndex(n.content, key, 0)
  }

  function Child(n: Option<Node>, key: string): Option<Node> {
    if n.None? || ChildIndex(n.value, key).None? then None
    else Some(n.value.content[ChildIndex(n.value, key).value])
  }

  /** The first key of a mapping's content that spells `key`; keys are at even positions, each before its value. */
  predicate FirstKey(content: seq<Node>, key: string, i: nat) {
    && i % 2 == 0 && i + 1 < |content| && content[i].value == key
    && forall k :: 0 <= k < i && k % 2 == 0 ==> content[k].value != key
  }

  /** findChild. */
  method FindChild(n: Option<Node>, key: string) returns (r: Option<Node>)
    ensures r == Child(n, key)
    ensures r.Some? <==> n.Some? && n.value.kind == MappingNode && exists i: nat :: FirstKey(n.value.content, key, i)
    ensures r.Some? ==> exists i: nat :: FirstKey(n.value.content, key, i) && r.value == n.value.content[i + 1]
  {
    if n.None? || n.value.kind != MappingNode {
      return None;
    }
    var i := 0;
    while i + 1 < |n.value.content|
      invariant ValueIndex(n.value.content, key, i) == ValueIndex(n.value.content, key, 0)
      invariant i % 2 == 0 && forall k :: 0 <= k < i && k % 2 == 0 && k < |n.value.content| ==> n.value.content[k].value != key
    {
      if n.value.content[i].value == key {
        assert FirstKey(n.value.content, key, i);
        return Some(n.value.content[i + 1]);
      }
      i := i + 2;
    }
    return None;
  }

  function ScalarValue(n: Option<Node>): string {
    if n.None? || n.value.kind != ScalarNode then "" else n.value.value
  }

  function RoleName(n: Node): string { ScalarValue(Child(Some(n), "name")) }

  function RoleOf(n: Node): Role {
    Role(RoleName(n), ScalarValue(Child(Some(n), "comment")),
         ScalarValue(Child(Child(Some(n), "passwordSecret"), "name")))
  }

  /** navigateRoles: the index path from the document to the roles sequence. */
  function RolesPath(doc: Node): Option<seq<nat>> {
    if doc.kind != DocumentNode || doc.content == [] then None
    else
      var root := doc.content[0];
      var i := ChildIndex(root, "spec");
      if i.None? then None
      else
        var spec := root.content[i.value];
        var j := ChildIndex(spec, "managed");
        if j.None? then None
        else
          var managed := spec.content[j.value];
          var k := ChildIndex(managed, "roles");
          if k.None? || managed.content[k.value].kind != SequenceNode then None
          else Some([0, i.value, j.value, k.value])
  }

  function At(n: Node, path: seq<nat>): Option<Node> {
    if path == [] then Some(n)
    else if path[0] >= |n.content| then None
    else At(n.content[path[0]], path[1..])
  }

  /** The tree with the node at a path replaced. */
  function Put(n: Node, path: seq<nat>, m: Node): Node
    requires At(n, path).Some?
  {
    if path == [] then m
    else n.(content := n.content[path[0] := Put(n.content[path[0]], path[1..], m)])
  }

  lemma RolesPathLeads(doc: Node)
    requires RolesPath(doc).Some?
    ensures |RolesPath(doc).value| == 4
    ensures At(doc, RolesPath(doc).value).Some? && At(doc, RolesPath(doc).value).value.kind == SequenceNode
  {
    var p := RolesPath(doc).value;
    var n1 := doc.content[p[0]];
    var n2 := n1.content[p[1]];
    var n3 := n2.content[p[2]];
    assert p[1..][1..] == [p[2], p[3]];
    assert At(n3, [p[3]]) == At(n3.content[p[3]], [p[3]][1..]);
    assert At(n2, [p[2], p[3]]) == At(n3, [p[2], p[3]][1..]);
    assert At(n1, p[1..]) == At(n2, p[1..][1..]);
  }

  function RolesNode(doc: Node): Node
    requires RolesPath(doc).Some?
  {
    RolesPathLeads(doc);
    At(doc, RolesPath(doc).value).value
  }

  function Entries(doc: Node): seq<Node>
    requires RolesPath(doc).Some?
  {
    RolesNode(doc).content
  }

  function WithEntries(doc: Node, entries: seq<Node>): Node
    requires RolesPath(doc).Some?
  {
    RolesPathLeads(doc);
    Put(doc, RolesPath(doc).value, RolesNode(doc).(content := entries))
  }

  /** navigateRoles with its chain of lookups. */
  method NavigateRoles(doc: Node) returns (roles: Option<Node>)
    ensures roles == if RolesPath(doc).None? then None else Some(RolesNode(doc))
  {
    if doc.kind != DocumentNode || |doc.content| == 0 {
      return None;
    }
    var root := doc.content[0];
    var spec := FindChild(Some(root), "spec");
    if spec.None? {
      return None;
    }
    var managed := FindChild(spec, "managed");
    if managed.None? {
      return None;
    }
    roles := FindChild(managed, "roles");
    if roles.None? || roles.value.kind != SequenceNode {
      return None;
    }
    FourSteps(doc, RolesPath(doc).value);
  }

  /** The roles sequence is what lies under spec, managed and roles of the first document, if that is a sequence. */
  lemma RolesUnderKeys(doc: Node)
    ensures RolesPath(doc).Some? ==> doc.kind == DocumentNode && doc.content != []
    ensures doc.kind == DocumentNode && doc.content != [] ==>
      var roles := Child(Child(Child(Some(doc.content[0]), "spec"), "managed"), "roles");
      && (RolesPath(doc).Some? <==> roles.Some? && roles.value.kind == SequenceNode)
      && (RolesPath(doc).Some? ==> RolesNode(doc) == roles.value)
  {
    if RolesPath(doc).Some? {
      FourSteps(doc, RolesPath(doc).value);
    }
  }

  lemma FourSteps(doc: Node, p: seq<nat>)
    requires |p| == 4 && p[0] < |doc.content|
    requires p[1] < |doc.content[p[0]].content|
    requires p[2] < |doc.content[p[0]].content[p[1]].content|
    requires p[3] < |doc.content[p[0]].content[p[1]].content[p[2]].content|
    ensures At(doc, p) == Some(doc.content[p[0]].content[p[1]].content[p[2]].content[p[3]])
  {
    var n1 := doc.content[p[0]];
    var n2 := n1.content[p[1]];
    var n3 := n2.content[p[2]];
    assert At(n3, [p[3]]) == At(n3.content[p[3]], [p[3]][1..]);
    assert [p[2], p[3]][1..] == [p[3]];
    assert At(n2, [p[2], p[3]]) == At(n3, [p[3]]);
    assert p[1..][1..] == [p[2], p[3]];
    assert At(n1, p[1..]) == At(n2, [p[2], p[3]]);
  }

  // ----- the two edits

  function Scalar(tag: string, v: string): Node { Node(ScalarNode, tag, v, "", []) }

  function Mapping(content: seq<Node>): Node { Node(MappingNode, "", "", "", content) }

  /** roleNode. */
  function RoleNode(r: Role): Node {
    Mapping([Scalar("", "name"), Scalar("", r.name),
             Scalar("", "comment"), Scalar("", r.comment),
             Scalar("", "ensure"), Scalar("", "present"),
             Scalar("", "login"), Scalar("!!bool", "true"),
             Scalar("", "createdb"), Scalar("!!bool", "false"),
             Scalar("", "inherit"), Scalar("!!bool", "true"),
             Scalar("", "connectionLimit"), Scalar("!!int", "-1"),
             Scalar("", "passwordSecret"), Mapping([Scalar("", "name"), Scalar("", r.passwordSecret)])])
  }

  function Field(e: Node, key: string): Option<Node> { Child(Some(e), key) }

  predicate Holds(e: Node, key: string, tag: string, v: string) {
    Field(e, key).Some? && Field(e, key).value.kind == ScalarNode && Field(e, key).value.tag == tag
    && Field(e, key).value.value == v
  }

  /** A role the operator is to keep: present, allowed to log in, with the given password Secret. */
  predicate StandardRole(e: Node, name: string, comment: string, secret: string) {
    && Holds(e, "name", "", name) && Holds(e, "comment", "", comment) && Holds(e, "ensure", "", "present")
    && Holds(e, "login", "!!bool", "true") && Holds(e, "createdb", "!!bool", "false")
    && Holds(e, "inherit", "!!bool", "true") && Holds(e, "connectionLimit", "!!int", "-1")
    && Field(e, "passwordSecret").Some? && Holds(Field(e, "passwordSecret").value, "name", "", secret)
  }

  predicate Declares(entries: seq<Node>, name: string) {
    exists i :: 0 <= i < |entries| && RoleName(entries[i]) == name
  }

  /** The entries of other names, in order. */
  function Others(entries: seq<Node>, name: string): seq<Node> {
    if entries == [] then []
    else if RoleName(entries[0]) == name then Others(entries[1..], name)
    else [entries[0]] + Others(entries[1..], name)
  }

  /** What AppendRole makes of a tree. */
  function Appended(doc: Node, role: Role): Outcome {
    if role.name == "" || role.passwordSecret == "" then BadInput
    else if RolesPath(doc).None? then BadTree
    else if Declares(Entries(doc), role.name) then RoleExists
    else Patched(WithEntries(doc, Entries(doc) + [RoleNode(role)]))
  }

  /** What RemoveRole makes of a tree. */
  function Removed(doc: Node, name: string): Outcome {
    if name == "" then BadInput
    else if RolesPath(doc).None? then BadTree
    else Patched(WithEntries(doc, Others(Entries(doc), name)))
  }

  method AppendRole(doc: Node, role: Role) returns (r: Outcome)
    ensures r == Appended(doc, role)
    ensures r.BadInput? <==> role.name == "" || role.passwordSecret == ""
    ensures r.RoleExists? ==> exists i :: 0 <= i < |Entries(doc)| && RoleName(Entries(doc)[i]) == role.name
    ensures r.Patched? ==> RolesPath(doc).Some? && forall i :: 0 <= i < |Entries(doc)| ==> RoleName(Entries(doc)[i]) != role.name
    ensures r.BadTree? ==> RolesPath(doc).None?
  {
    if role.name == "" || role.passwordSecret == "" {
      return BadInput;
    }
    var roles := NavigateRoles(doc);
    if roles.None? {
      return BadTree;
    }
    var content := roles.value.content;
    for i := 0 to |content|
      invariant forall k :: 0 <= k < i ==> RoleName(content[k]) != role.name
    {
      if RoleName(content[i]) == role.name {
        return RoleExists;
      }
    }
    return Patched(WithEntries(doc, content + [RoleNode(role)]));
  }

  lemma {:induction false} OthersAppend(a: seq<Node>, b: seq<Node>, name: string)
    ensures Others(a + b, name) == Others(a, name) + Others(b, name)
  {
    if a == [] {
      assert a + b == b;
    } else {
      OthersAppend(a[1..], b, name);
      assert (a + b)[0] == a[0] && (a + b)[1..] == a[1..] + b;
      ConsAppend([a[0]], Others(a[1..], name), Others(b, name));
    }
  }

  lemma {:induction false} OthersShrink(a: seq<Node>, name: string)
    ensures |Others(a, name)| <= |a|
  {
    if a != [] {
      OthersShrink(a[1..], name);
    }
  }

  /** The compaction of RemoveRole: kept entries are written over the front of the array being read. */
  method Compact(a: array<Node>, name: string) returns (kept: nat)
    modifies a
    ensures kept <= a.Length
    ensures a[..kept] == Others(old(a[..]), name)
  {
    ghost var was := a[..];
    kept := 0;
    for i := 0 to a.Length
      invariant kept <= i
      invariant a[..kept] == Others(was[..i], name)
      invariant a[i..] == was[i..]
    {
      assert a[i] == a[i..][0] == was[i];
      assert was[..i + 1] == was[..i] + [was[i]];
      OthersAppend(was[..i], [was[i]], name);
      assert a[i + 1..] == a[i..][1..] == was[i + 1..];
      if RoleName(a[i]) != name {
        a[kept] := a[i];
        kept := kept + 1;
      }
    }
    assert was[..a.Length] == was;
  }

  method RemoveRole(doc: Node, name: string) returns (r: Outcome)
    ensures r == Removed(doc, name)
    ensures r.BadInput? <==> name == ""
    ensures r.BadTree? <==> name != "" && RolesPath(doc).None?
    ensures !r.RoleExists?
  {
    if name == "" {
      return BadInput;
    }
    var roles := NavigateRoles(doc);
    if roles.None? {
      return BadTree;
    }
    var content := roles.value.content;
    var a := new Node[|content|](i requires 0 <= i < |content| => content[i]);
    assert a[..] == content;
    var kept := Compact(a, name);
    return Patched(WithEntries(doc, a[..kept]));
  }

  function ListRoles(doc: Node): seq<Role>
    requires RolesPath(doc).Some?
  {
    RolesOf(Entries(doc))
  }

  function RolesOf(entries: seq<Node>): seq<Role> {
    if entries == [] then [] else [RoleOf(entries[0])] + RolesOf(entries[1..])
  }

  // ----- replacing a node keeps the rest of the tree

  lemma {:induction false} AtPut(n: Node, path: seq<nat>, m: Node)
    requires At(n, path).Some?
    ensures At(Put(n, path, m), path) == Some(m)
    ensures Put(n, path, At(n, path).value) == n
  {
    if path != [] {
      AtPut(n.content[path[0]], path[1..], m);
      assert n.content[path[0] := n.content[path[0]]] == n.content;
    }
  }

  lemma {:induction false} PutPut(n: Node, path: seq<nat>, m: Node, m': Node)
    requires At(n, path).Some?
    ensures At(Put(n, path, m), path).Some?
    ensures Put(Put(n, path, m), path, m') == Put(n, path, m')
  {
    AtPut(n, path, m);
    if path != [] {
      var i := path[0];
      PutPut(n.content[i], path[1..], m, m');
      var c := Put(n.content[i], path[1..], m);
      assert n.content[i := c][i := Put(c, path[1..], m')] == n.content[i := Put(c, path[1..], m')];
    }
  }

  /** Off the path nothing moves; on the way to it only the content of the last step differs. */
  lemma {:induction false} OffPath(n: Node, path: seq<nat>, m: Node, q: seq<nat>)
    requires At(n, path).Some?
    ensures !(path <= q) && !(q <= path) ==> At(Put(n, path, m), q) == At(n, q)
    ensures q < path ==>
      At(n, q).Some? && At(Put(n, path, m), q).Some?
      && var a, b := At(n, q).value, At(Put(n, path, m), q).value;
         |a.content| == |b.content| && a == b.(content := a.content)
    decreases path
  {
    if path != [] && q != [] && path[0] == q[0] {
      OffPath(n.content[path[0]], path[1..], m, q[1..]);
      assert path <= q <==> path[1..] <= q[1..];
      assert q <= path <==> q[1..] <= path[1..];
      assert q < path <==> q[1..] < path[1..];
    }
  }

  lemma {:induction false} ValueIndexIgnoresValues(a: seq<Node>, b: seq<Node>, key: string, i: nat)
    requires |a| == |b| && i % 2 == 0
    requires forall j :: 0 <= j < |a| && j % 2 == 0 ==> a[j].value == b[j].value
    ensures ValueIndex(a, key, i) == ValueIndex(b, key, i)
    decreases |a| - i
  {
    if i + 1 < |a| {
      ValueIndexIgnoresValues(a, b, key, i + 2);
    }
  }

  lemma {:induction false} ValueIndexIsOdd(a: seq<Node>, key: string, i: nat)
    requires i % 2 == 0
    ensures ValueIndex(a, key, i).Some? ==> ValueIndex(a, key, i).value % 2 == 1
    decreases |a| - i
  {
    if i + 1 < |a| {
      ValueIndexIsOdd(a, key, i + 2);
    }
  }

  /** Replacing the value found under one key leaves the lookup of that key where it was. */
  lemma SameLookup(n: Node, key: string, m: Node)
    requires ChildIndex(n, key).Some?
    ensures var i := ChildIndex(n, key).value;
            ChildIndex(n.(content := n.content[i := m]), key) == Some(i)
  {
    var i := ChildIndex(n, key).value;
    ValueIndexIsOdd(n.content, key, 0);
    ValueIndexIgnoresValues(n.content, n.content[i := m], key, 0);
  }

  /** The sequence is found again, at the same place, with the entries that were put there. */
  lemma EntriesOfWith(doc: Node, entries: seq<Node>)
    requires RolesPath(doc).Some?
    ensures RolesPath(WithEntries(doc, entries)) == RolesPath(doc)
    ensures Entries(WithEntries(doc, entries)) == entries
    ensures WithEntries(doc, Entries(doc)) == doc
  {
    RolesPathLeads(doc);
    var p := RolesPath(doc).value;
    var seqNode := RolesNode(doc).(content := entries);
    var root := doc.content[0];
    var spec := root.content[p[1]];
    var managed := spec.content[p[2]];
    assert At(doc, p) == Some(managed.content[p[3]]) by { FourSteps(doc, p); }
    var managed' := managed.(content := managed.content[p[3] := seqNode]);
    var spec' := spec.(content := spec.content[p[2] := managed']);
    var root' := root.(content := root.content[p[1] := spec']);
    PutFour(doc, p, seqNode);
    assert WithEntries(doc, entries) == doc.(content := doc.content[0 := root']);
    SameLookup(root, "spec", spec');
    SameLookup(spec, "managed", managed');
    SameLookup(managed, "roles", seqNode);
    AtPut(doc, p, seqNode);
  }

  lemma PutFour(doc: Node, p: seq<nat>, m: Node)
    requires |p| == 4 && p[0] < |doc.content|
    requires p[1] < |doc.content[p[0]].content|
    requires p[2] < |doc.content[p[0]].content[p[1]].content|
    requires p[3] < |doc.content[p[0]].content[p[1]].content[p[2]].content|
    ensures At(doc, p).Some?
    ensures var n1 := doc.content[p[0]];
            var n2 := n1.content[p[1]];
            var n3 := n2.content[p[2]];
            Put(doc, p, m) == doc.(content := doc.content[p[0] := n1.(content := n1.content[p[1] :=
              n2.(content := n2.content[p[2] := n3.(content := n3.content[p[3] := m])])])])
  {
    var n1 := doc.content[p[0]];
    var n2 := n1.content[p[1]];
    var n3 := n2.content[p[2]];
    FourSteps(doc, p);
    assert p[1..][1..] == [p[2], p[3]];
    assert [p[2], p[3]][1..] == [p[3]];
    assert At(n3, [p[3]]) == At(n3.content[p[3]], [p[3]][1..]);
    assert At(n2, [p[2], p[3]]) == At(n3, [p[3]]);
    assert At(n1, p[1..]) == At(n2, [p[2], p[3]]);
    assert Put(n3, [p[3]], m) == n3.(content := n3.content[p[3] := m]);
    assert Put(n2, [p[2], p[3]], m) == n2.(content := n2.content[p[2] := Put(n3, [p[3]], m)]);
    assert Put(n1, p[1..], m) == n1.(content := n1.content[p[1] := Put(n2, [p[2], p[3]], m)]);
  }

  lemma WithWith(doc: Node, a: seq<Node>, b: seq<Node>)
    requires RolesPath(doc).Some?
    ensures RolesPath(WithEntries(doc, a)).Some?
    ensures WithEntries(WithEntries(doc, a), b) == WithEntries(doc, b)
  {
    EntriesOfWith(doc, a);
    RolesPathLeads(doc);
    var p := RolesPath(doc).value;
    AtPut(doc, p, RolesNode(doc).(content := a));
    PutPut(doc, p, RolesNode(doc).(content := a), RolesNode(doc).(content := b));
  }

  // ----- what an edit promises

  /** The first key of a content, found from any even position before it. */
  lemma {:induction false} FoundFrom(content: seq<Node>, key: string, i: nat, j: nat)
    requires i <= j && i % 2 == 0 && FirstKey(content, key, j)
    ensures ValueIndex(content, key, i) == Some(j + 1)
    decreases j - i
  {
    if i < j {
      FoundFrom(content, key, i + 2, j);
    }
  }

  lemma FoundField(e: Node, key: string, j: nat)
    requires e.kind == MappingNode && FirstKey(e.content, key, j)
    ensures Field(e, key) == Some(e.content[j + 1])
  {
    FoundFrom(e.content, key, 0, j);
  }

  /** What a reader of the appended entry finds under each key. */
  lemma NewEntryIsStandard(role: Role)
    ensures StandardRole(RoleNode(role), role.name, role.comment, role.passwordSecret)
  {
    var e := RoleNode(role);
    KeysOfNewEntry(role);
    FoundField(e, "name", 0);
    FoundField(e, "comment", 2);
    FoundField(e, "ensure", 4);
    FoundField(e, "login", 6);
    FoundField(e, "createdb", 8);
    FoundField(e, "inherit", 10);
    FoundField(e, "connectionLimit", 12);
    FoundField(e, "passwordSecret", 14);
    FoundField(e.content[15], "name", 0);
  }

  lemma KeysOfNewEntry(role: Role)
    ensures var c := RoleNode(role).content;
            && |c| == 16
            && FirstKey(c, "name", 0) && FirstKey(c, "comment", 2) && FirstKey(c, "ensure", 4)
            && FirstKey(c, "login", 6) && FirstKey(c, "createdb", 8) && FirstKey(c, "inherit", 10)
            && FirstKey(c, "connectionLimit", 12) && FirstKey(c, "passwordSecret", 14)
            && FirstKey(c[15].content, "name", 0)
  {
    var c := RoleNode(role).content;
    assert c[0].value == "name" && c[2].value == "comment" && c[4].value == "ensure" && c[6].value == "login";
    assert c[8].value == "createdb" && c[10].value == "inherit" && c[12].value == "connectionLimit";
    assert c[14].value == "passwordSecret";
    assert |"name"| == 4 && |"comment"| == 7 && |"ensure"| == 6 && |"login"| == 5 && |"createdb"| == 8;
    assert |"inherit"| == 7 && |"connectionLimit"| == 15 && |"passwordSecret"| == 14;
    assert "comment"[0] != "inherit"[0];
  }

  lemma NewEntryReadsBack(role: Role)
    ensures RoleOf(RoleNode(role)) == role
  {
    NewEntryIsStandard(role);
  }

  lemma {:induction false} RolesOfAppend(a: seq<Node>, b: seq<Node>)
    ensures RolesOf(a + b) == RolesOf(a) + RolesOf(b)
  {
    if a == [] {
      assert a + b == b;
    } else {
      RolesOfAppend(a[1..], b);
      assert (a + b)[0] == a[0] && (a + b)[1..] == a[1..] + b;
      ConsAppend([RoleOf(a[0])], RolesOf(a[1..]), RolesOf(b));
    }
  }

  function RolesWithout(roles: seq<Role>, name: string): seq<Role> {
    if roles == [] then []
    else if roles[0].name == name then RolesWithout(roles[1..], name)
    else [roles[0]] + RolesWithout(roles[1..], name)
  }

  lemma {:induction false} RolesOfOthers(entries: seq<Node>, name: string)
    ensures RolesOf(Others(entries, name)) == RolesWithout(RolesOf(entries), name)
  {
    if entries != [] {
      RolesOfOthers(entries[1..], name);
      var o := Others(entries[1..], name);
      assert ([entries[0]] + o)[1..] == o;
      var r := RolesOf(entries[1..]);
      assert ([RoleOf(entries[0])] + r)[1..] == r;
    }
  }

  lemma {:induction false} OthersOfAbsent(entries: seq<Node>, name: string)
    ensures Others(entries, name) == entries <==> !Declares(entries, name)
  {
    if entries != [] {
      OthersShrink(entries[1..], name);
      OthersOfAbsent(entries[1..], name);
      assert Declares(entries, name) <==> RoleName(entries[0]) == name || Declares(entries[1..], name) by {
        if Declares(entries[1..], name) {
          var i :| 0 <= i < |entries[1..]| && RoleName(entries[1..][i]) == name;
          assert RoleName(entries[i + 1]) == name;
        }
        if Declares(entries, name) && RoleName(entries[0]) != name {
          var i :| 0 <= i < |entries| && RoleName(entries[i]) == name;
          assert RoleName(entries[1..][i - 1]) == name;
        }
      }
    }
  }

  lemma {:induction false} OthersHaveOtherNames(entries: seq<Node>, name: string)
    ensures !Declares(Others(entries, name), name)
  {
    if entries != [] {
      OthersHaveOtherNames(entries[1..], name);
    }
  }

  /** Appending an absent name lists exactly one more role, last. */
  lemma AppendListsRole(doc: Node, role: Role)
    requires Appended(doc, role).Patched?
    ensures var doc' := Appended(doc, role).doc;
            && RolesPath(doc') == RolesPath(doc) && ListRoles(doc') == ListRoles(doc) + [role]
            && |Entries(doc')| == |Entries(doc)| + 1 && Entries(doc) <= Entries(doc')
            && StandardRole(Entries(doc')[|Entries(doc)|], role.name, role.comment, role.passwordSecret)
  {
    NewEntryIsStandard(role);
    EntriesOfWith(doc, Entries(doc) + [RoleNode(role)]);
    RolesOfAppend(Entries(doc), [RoleNode(role)]);
    assert RolesOf([RoleNode(role)]) == [RoleOf(RoleNode(role))];
    NewEntryReadsBack(role);
  }

  /** Removing lists every role of another name, in order, and none of that name. */
  lemma RemoveListsOthers(doc: Node, name: string)
    requires Removed(doc, name).Patched?
    ensures var doc' := Removed(doc, name).doc;
            RolesPath(doc') == RolesPath(doc)
            && ListRoles(doc') == RolesWithout(ListRoles(doc), name)
            && !Declares(Entries(doc'), name)
  {
    EntriesOfWith(doc, Others(Entries(doc), name));
    RolesOfOthers(Entries(doc), name);
    OthersHaveOtherNames(Entries(doc), name);
  }

  /** Removing what was just appended gives back the very tree. */
  lemma RemoveUndoesAppend(doc: Node, role: Role)
    requires Appended(doc, role).Patched?
    ensures Removed(Appended(doc, role).doc, role.name) == Patched(doc)
  {
    var e := Entries(doc) + [RoleNode(role)];
    EntriesOfWith(doc, e);
    OthersAppend(Entries(doc), [RoleNode(role)], role.name);
    OthersOfAbsent(Entries(doc), role.name);
    NewEntryReadsBack(role);
    assert RoleName(RoleNode(role)) == role.name && [RoleNode(role)][1..] == [];
    assert Others([RoleNode(role)], role.name) == [];
    assert Others(e, role.name) == Entries(doc);
    WithWith(doc, e, Entries(doc));
    EntriesOfWith(doc, Entries(doc));
  }

  /** The only edit that gives back the very tree is the removal of a name that is not declared. */
  lemma SameTreeIff(doc: Node, e: Edit)
    ensures (match e case Append(role) => Appended(doc, role) case Remove(name) => Removed(doc, name)) == Patched(doc)
       <==> e.Remove? && e.name != "" && RolesPath(doc).Some? && !Declares(Entries(doc), e.name)
  {
    if RolesPath(doc).Some? {
      EntriesOfWith(doc, Entries(doc));
      match e
      case Append(role) =>
        EntriesOfWith(doc, Entries(doc) + [RoleNode(role)]);
      case Remove(name) =>
        EntriesOfWith(doc, Others(Entries(doc), name));
        OthersOfAbsent(Entries(doc), name);
    }
  }

  /** Everything off the spec.managed.roles path is untouched by either edit. */
  lemma EditsStayOnPath(doc: Node, entries: seq<Node>, q: seq<nat>)
    requires RolesPath(doc).Some?
    ensures var p := RolesPath(doc).value;
            !(p <= q) && !(q <= p) ==> At(WithEntries(doc, entries), q) == At(doc, q)
    ensures q < RolesPath(doc).value ==>
      At(doc, q).Some? && At(WithEntries(doc, entries), q).Some?
      && var a, b := At(doc, q).value, At(WithEntries(doc, entries), q).value;
         |a.content| == |b.content| && a == b.(content := a.content)
  {
    RolesPathLeads(doc);
    OffPath(doc, RolesPath(doc).value, RolesNode(doc).(content := entries), q);
  }

  // ----- sequences of edits

  datatype Edit = Append(role: Role) | Remove(name: string)

  function Target(e: Edit): string {
    match e case Append(role) => role.name case Remove(name) => name
  }

  /** One edit of the tree; an edit that is refused leaves it as it was. What a failing write does is Cluster's matter. */
  function Apply(doc: Node, e: Edit): Node {
    var r := match e case Append(role) => Appended(doc, role) case Remove(name) => Removed(doc, name);
    if r.Patched? then r.doc else doc
  }

  function ApplyAll(doc: Node, edits: seq<Edit>): Node
    decreases edits
  {
    if edits == [] then doc else ApplyAll(Apply(doc, edits[0]), edits[1..])
  }

  predicate UniqueNames(entries: seq<Node>) {
    forall i, j :: 0 <= i < j < |entries| ==> RoleName(entries[i]) != RoleName(entries[j])
  }

  lemma UniqueCons(e: Node, rest: seq<Node>)
    ensures UniqueNames([e] + rest) <==> UniqueNames(rest) && !Declares(rest, RoleName(e))
  {
    var all := [e] + rest;
    assert forall i :: 0 <= i < |rest| ==> all[i + 1] == rest[i];
    if UniqueNames(all) {
      forall i, j | 0 <= i < j < |rest| ensures RoleName(rest[i]) != RoleName(rest[j]) {
        assert RoleName(all[i + 1]) != RoleName(all[j + 1]);
      }
      forall j | 0 <= j < |rest| ensures RoleName(rest[j]) != RoleName(e) {
        assert RoleName(all[0]) != RoleName(all[j + 1]);
      }
    }
    if UniqueNames(rest) && !Declares(rest, RoleName(e)) {
      forall i, j | 0 <= i < j < |all| ensures RoleName(all[i]) != RoleName(all[j]) {
        assert all[j] == rest[j - 1];
        if i > 0 {
          assert all[i] == rest[i - 1];
        }
      }
    }
  }

  lemma {:induction false} OthersDeclareNoMore(entries: seq<Node>, name: string, r: string)
    requires !Declares(entries, r)
    ensures !Declares(Others(entries, name), r)
  {
    if entries != [] {
      assert !Declares(entries[1..], r) by {
        assert forall i :: 0 <= i < |entries[1..]| ==> entries[1..][i] == entries[i + 1];
      }
      OthersDeclareNoMore(entries[1..], name, r);
      assert RoleName(entries[0]) != r;
    }
  }

  lemma {:induction false} OthersStayUnique(entries: seq<Node>, name: string)
    requires UniqueNames(entries)
    ensures UniqueNames(Others(entries, name))
  {
    if entries != [] {
      assert entries == [entries[0]] + entries[1..];
      UniqueCons(entries[0], entries[1..]);
      OthersStayUnique(entries[1..], name);
      OthersDeclareNoMore(entries[1..], name, RoleName(entries[0]));
      UniqueCons(entries[0], Others(entries[1..], name));
    }
  }

  lemma {:induction false} OthersTwice(entries: seq<Node>, a: string, b: string)
    ensures a == b ==> Others(Others(entries, a), b) == Others(entries, b)
    ensures Others(Others(entries, a), b) == Others(Others(entries, b), a)
  {
    if entries != [] {
      OthersTwice(entries[1..], a, b);
      var x, y := Others(entries[1..], a), Others(entries[1..], b);
      assert ([entries[0]] + x)[1..] == x && ([entries[0]] + y)[1..] == y;
    }
  }

  /** One edit keeps names unique, and keeps the entries of all other names in their order. */
  lemma ApplyKeepsOthers(doc: Node, e: Edit)
    requires RolesPath(doc).Some?
    ensures RolesPath(Apply(doc, e)) == RolesPath(doc)
    ensures Others(Entries(Apply(doc, e)), Target(e)) == Others(Entries(doc), Target(e))
    ensures UniqueNames(Entries(doc)) ==> UniqueNames(Entries(Apply(doc, e)))
  {
    match e
    case Append(role) =>
      if Appended(doc, role).Patched? {
        EntriesOfWith(doc, Entries(doc) + [RoleNode(role)]);
        NewEntryReadsBack(role);
        OthersAppend(Entries(doc), [RoleNode(role)], role.name);
        assert Others([RoleNode(role)], role.name) == [];
      }
    case Remove(name) =>
      if Removed(doc, name).Patched? {
        EntriesOfWith(doc, Others(Entries(doc), name));
        OthersTwice(Entries(doc), name, name);
        if UniqueNames(Entries(doc)) {
          OthersStayUnique(Entries(doc), name);
        }
      }
  }

  /** The entries whose names are outside a set, in order. */
  function Outside(entries: seq<Node>, names: set<string>): seq<Node> {
    if entries == [] then []
    else if RoleName(entries[0]) in names then Outside(entries[1..], names)
    else [entries[0]] + Outside(entries[1..], names)
  }

  lemma {:induction false} OutsideOfOthers(entries: seq<Node>, name: string, names: set<string>)
    requires name in names
    ensures Outside(Others(entries, name), names) == Outside(entries, names)
  {
    if entries != [] {
      OutsideOfOthers(entries[1..], name, names);
      var o := Others(entries[1..], name);
      assert ([entries[0]] + o)[1..] == o;
    }
  }

  /**
   Over every sequence of edits, applied or refused: unique names stay unique, the sequence stays where it is, and the entries of
   names that no edit aims at are the same nodes in the same order.
   */
  lemma {:induction false} EditsKeepOthers(doc: Node, edits: seq<Edit>, names: set<string>)
    requires RolesPath(doc).Some?
    requires forall i :: 0 <= i < |edits| ==> Target(edits[i]) in names
    ensures RolesPath(ApplyAll(doc, edits)) == RolesPath(doc)
    ensures Outside(Entries(ApplyAll(doc, edits)), names) == Outside(Entries(doc), names)
    ensures UniqueNames(Entries(doc)) ==> UniqueNames(Entries(ApplyAll(doc, edits)))
    decreases |edits|
  {
    if edits != [] {
      var t := Target(edits[0]);
      ApplyKeepsOthers(doc, edits[0]);
      EditsKeepOthers(Apply(doc, edits[0]), edits[1..], names);
      OutsideOfOthers(Entries(doc), t, names);
      OutsideOfOthers(Entries(Apply(doc, edits[0])), t, names);
    }
  }
}
