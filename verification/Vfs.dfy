/**
  The sandboxed virtual file system: a tree of named nodes with running totals.

  A node is a value holding its children, and a place in the tree is the list of names that
  leads to it from the root.  Where several children share a name the first one is found, as in
  the program.  Paths are strings; `DirName` and `BaseName` are the POSIX path functions of the
  Zig standard library.
*/
module Vfs {
  import opened Bytes
  import opened Outcomes
  import opened Sequences

  datatype NodeType = File | Directory

  datatype Node = Node(name: string, kind: NodeType, size: nat, data: seq<Byte>, children: seq<Node>)

  datatype VfsError = InvalidPath | PathEscape | FileNotFound | NotAFile | ReadOnly | QuotaExceeded | FileTooLarge

  datatype Config = Config(maxFileSize: nat, maxTotalSize: nat, maxFiles: nat, readOnly: bool)

  /** The totals are integers here; the program's are unsigned and trap below zero. */
  datatype State = State(root: Node, config: Config, totalSize: int, fileCount: int)

  // ----- Nodes by place

  function FindChild(children: seq<Node>, name: string): (r: Option<nat>)
    ensures r.Some? ==> r.value < |children| && children[r.value].name == name
    ensures r.Some? ==> forall i :: 0 <= i < r.value ==> children[i].name != name
    ensures r.None? ==> forall i :: 0 <= i < |children| ==> children[i].name != name
  {
    if children == [] then None
    else if children[0].name == name then Some(0)
    else
      var r := FindChild(children[1..], name);
      if r.Some? then Some(r.value + 1) else None
  }

  function NodeAt(node: Node, place: seq<string>): Option<Node>
    decreases |place|
  {
    if place == [] then Some(node)
    else
      var i := FindChild(node.children, place[0]);
      if i.None? then None else NodeAt(node.children[i.value], place[1..])
  }

  predicate Exists(root: Node, place: seq<string>) {
    NodeAt(root, place).Some?
  }

  /** The tree with new children at a place. */
  function WithChildren(node: Node, place: seq<string>, children: seq<Node>): Node
    requires Exists(node, place)
    decreases |place|
  {
    if place == [] then node.(children := children)
    else
      var i := FindChild(node.children, place[0]).value;
      node.(children := node.children[i := WithChildren(node.children[i], place[1..], children)])
  }

  // ----- Paths

  /** The stretches between slashes. */
  function Split(s: string): seq<string>
    decreases |s|
  {
    if '/' !in s then [s]
    else var i := IndexOf(s, '/'); [s[..i]] + Split(s[i + 1..])
  }

  function Stripped(path: string): string {
    if path != "" && path[|path| - 1] == '/' then Stripped(path[..|path| - 1]) else path
  }

  function LastSlash(s: string): (i: nat)
    requires '/' in s
    ensures i < |s| && s[i] == '/' && '/' !in s[i + 1..]
  {
    var last := |s| - 1;
    if s[last] == '/' then last
    else
      assert s == s[..last] + [s[last]];
      var i := LastSlash(s[..last]);
      assert s[i + 1..] == s[..last][i + 1..] + [s[last]];
      i
  }

  function DirName(path: string): Option<string> {
    var t := Stripped(path);
    if '/' !in t then None
    else var i := LastSlash(t); Some(if i == 0 then "/" else t[..i])
  }

  function BaseName(path: string): string {
    var t := Stripped(path);
    if '/' !in t then t else t[LastSlash(t) + 1..]
  }

  /** One component: skipped, a jump to the root, or a child. */
  function Enter(root: Node, place: seq<string>, component: string): Result<seq<string>, VfsError> {
    if component == "" || component == "." then Ok(place)
    else if component == ".." then (if place == [] then Err(PathEscape) else Ok([]))
    else if Exists(root, place + [component]) then Ok(place + [component])
    else Err(FileNotFound)
  }

  function Walk(root: Node, place: seq<string>, components: seq<string>): Result<seq<string>, VfsError>
    decreases |components|
  {
    if components == [] then Ok(place)
    else
      var r := Enter(root, place, components[0]);
      if r.Err? then r else Walk(root, r.value, components[1..])
  }

  function Resolved(root: Node, path: string): Result<seq<string>, VfsError> {
    if path == "" || path[0] != '/' then Err(InvalidPath) else Walk(root, [], Split(path[1..]))
  }

  function ParentOf(root: Node, path: string): Result<seq<string>, VfsError> {
    var d := DirName(path);
    if d.None? || d.value == "/" then Ok([]) else Resolved(root, d.value)
  }

  // ----- Operations

  function NewFile(name: string, data: seq<Byte>): Node {
    Node(name, File, |data|, data, [])
  }

  function NewDir(name: string): Node {
    Node(name, Directory, 0, [], [])
  }

  /** A new child at the end of the children of a place. */
  function Added(root: Node, place: seq<string>, child: Node): Node
    requires Exists(root, place)
  {
    WithChildren(root, place, NodeAt(root, place).value.children + [child])
  }

  function Removed(root: Node, place: seq<string>, i: nat): Node
    requires Exists(root, place) && i < |NodeAt(root, place).value.children|
  {
    var children := NodeAt(root, place).value.children;
    WithChildren(root, place, children[..i] + children[i + 1..])
  }

  function CreateFileResult(s: State, path: string, data: seq<Byte>): Result<seq<string>, VfsError> {
    if s.config.readOnly then Err(ReadOnly)
    else if s.fileCount >= s.config.maxFiles then Err(QuotaExceeded)
    else if s.totalSize + |data| > s.config.maxTotalSize then Err(QuotaExceeded)
    else if |data| > s.config.maxFileSize then Err(FileTooLarge)
    else ParentOf(s.root, path)
  }

  function CreateDirResult(s: State, path: string): Result<seq<string>, VfsError> {
    if s.config.readOnly then Err(ReadOnly) else ParentOf(s.root, path)
  }

  /** The parent's place and the child's index. */
  function DeleteResult(s: State, path: string): Result<(seq<string>, nat), VfsError> {
    if s.config.readOnly then Err(ReadOnly)
    else
      var p := ParentOf(s.root, path);
      if p.Err? then Err(p.error)
      else if !Exists(s.root, p.value) then Err(FileNotFound)
      else
        var i := FindChild(NodeAt(s.root, p.value).value.children, BaseName(path));
        if i.None? then Err(FileNotFound) else Ok((p.value, i.value))
  }

  function ReadResult(s: State, path: string): Result<seq<Byte>, VfsError> {
    var p := Resolved(s.root, path);
    if p.Err? then Err(p.error)
    else
      var n := NodeAt(s.root, p.value);
      if n.None? then Err(FileNotFound)
      else if n.value.kind != File then Err(NotAFile)
      else Ok(n.value.data)
  }

  // ----- Resolution stays inside the tree

  lemma {:induction false} WalkExists(root: Node, place: seq<string>, components: seq<string>)
    requires Exists(root, place)
    ensures Walk(root, place, components).Ok? ==> Exists(root, Walk(root, place, components).value)
    decreases |components|
  {
    if components != [] {
      var r := Enter(root, place, components[0]);
      if r.Ok? { WalkExists(root, r.value, components[1..]); }
    }
  }

  /** A path that resolves names a node of the tree. */
  lemma ResolvedExists(root: Node, path: string)
    ensures Resolved(root, path).Ok? ==> Exists(root, Resolved(root, path).value)
    ensures ParentOf(root, path).Ok? ==> Exists(root, ParentOf(root, path).value)
  {
    if path != "" { WalkExists(root, [], Split(path[1..])); }
    var d := DirName(path);
    if d.Some? && d.value != "" { WalkExists(root, [], Split(d.value[1..])); }
  }

  // ----- Totals

  /** A node's own share of a total. */
  type Share = (NodeType, nat) -> int

  function SizeShare(kind: NodeType, size: nat): int {
    size
  }

  function FileShare(kind: NodeType, size: nat): int {
    if kind == File then 1 else 0
  }

  function Total(n: Node, share: Share): int
    decreases n, 1
  {
    share(n.kind, n.size) + TotalAll(n.children, share)
  }

  function TotalAll(ns: seq<Node>, share: Share): int
    decreases ns, 0
  {
    if ns == [] then 0 else Total(ns[0], share) + TotalAll(ns[1..], share)
  }

  lemma {:induction false} TotalAllConcat(a: seq<Node>, b: seq<Node>, share: Share)
    ensures TotalAll(a + b, share) == TotalAll(a, share) + TotalAll(b, share)
  {
    if a == [] {
      assert a + b == b;
    } else {
      assert (a + b)[1..] == a[1..] + b;
      TotalAllConcat(a[1..], b, share);
    }
  }

  lemma TotalAllSplit(ns: seq<Node>, i: nat, share: Share)
    requires i < |ns|
    ensures TotalAll(ns, share) == TotalAll(ns[..i] + ns[i + 1..], share) + Total(ns[i], share)
  {
    assert ns == ns[..i] + ns[i..] && ns[i..][1..] == ns[i + 1..];
    TotalAllConcat(ns[..i], ns[i..], share);
    TotalAllConcat(ns[..i], ns[i + 1..], share);
  }

  lemma TotalAllUpdate(ns: seq<Node>, i: nat, n: Node, share: Share)
    requires i < |ns|
    ensures TotalAll(ns[i := n], share) == TotalAll(ns, share) - Total(ns[i], share) + Total(n, share)
  {
    TotalAllSplit(ns, i, share);
    TotalAllSplit(ns[i := n], i, share);
    assert ns[i := n][..i] + ns[i := n][i + 1..] == ns[..i] + ns[i + 1..];
  }

  /** Replacing the children of a place changes a total by just that much. */
  lemma {:induction false} TotalWithChildren(node: Node, place: seq<string>, children: seq<Node>, share: Share)
    requires Exists(node, place)
    ensures Total(WithChildren(node, place, children), share) ==
            Total(node, share) - TotalAll(NodeAt(node, place).value.children, share) + TotalAll(children, share)
    decreases |place|
  {
    if place != [] {
      var i := FindChild(node.children, place[0]).value;
      TotalWithChildren(node.children[i], place[1..], children, share);
      TotalAllUpdate(node.children, i, WithChildren(node.children[i], place[1..], children), share);
    }
  }

  lemma TotalLeaf(n: Node, share: Share)
    requires n.children == []
    ensures Total(n, share) == share(n.kind, n.size) && TotalAll([n], share) == share(n.kind, n.size)
  {
  }

  lemma TotalAdded(root: Node, place: seq<string>, child: Node, share: Share)
    requires Exists(root, place) && child.children == []
    ensures Total(Added(root, place, child), share) == Total(root, share) + share(child.kind, child.size)
  {
    var children := NodeAt(root, place).value.children;
    TotalWithChildren(root, place, children + [child], share);
    TotalAllConcat(children, [child], share);
    TotalLeaf(child, share);
  }

  lemma TotalRemoved(root: Node, place: seq<string>, i: nat, share: Share)
    requires Exists(root, place) && i < |NodeAt(root, place).value.children|
    ensures Total(Removed(root, place, i), share) ==
            Total(root, share) - Total(NodeAt(root, place).value.children[i], share)
  {
    var children := NodeAt(root, place).value.children;
    TotalWithChildren(root, place, children[..i] + children[i + 1..], share);
    TotalAllSplit(children, i, share);
  }

  // ----- Lookups after a change

  /** What a node is, apart from its children. */
  datatype Info = Info(kind: NodeType, size: nat, data: seq<Byte>)

  function InfoAt(root: Node, place: seq<string>): Option<Info> {
    var n := NodeAt(root, place);
    if n.None? then None else Some(Info(n.value.kind, n.value.size, n.value.data))
  }

  /** The node a place leads to among some children. */
  function NodeIn(children: seq<Node>, place: seq<string>): Option<Node>
    requires place != []
  {
    var i := FindChild(children, place[0]);
    if i.None? then None else NodeAt(children[i.value], place[1..])
  }

  lemma {:induction false} FindChildUpdate(children: seq<Node>, name: string, i: nat, n: Node)
    requires i < |children| && n.name == children[i].name
    ensures FindChild(children[i := n], name) == FindChild(children, name)
  {
    if i == 0 {
      assert children[i := n][1..] == children[1..];
    } else {
      assert children[i := n][1..] == children[1..][i - 1 := n];
      FindChildUpdate(children[1..], name, i - 1, n);
    }
  }

  /** Below the changed place, lookups go through the new children. */
  lemma {:induction false} LookupBelow(node: Node, place: seq<string>, children: seq<Node>, rest: seq<string>)
    requires Exists(node, place) && rest != []
    ensures NodeAt(WithChildren(node, place, children), place + rest) == NodeIn(children, rest)
    decreases |place|
  {
    if place == [] {
      assert place + rest == rest;
    } else {
      var i := FindChild(node.children, place[0]).value;
      var child := WithChildren(node.children[i], place[1..], children);
      FindChildUpdate(node.children, place[0], i, child);
      LookupBelow(node.children[i], place[1..], children, rest);
      assert (place + rest)[1..] == place[1..] + rest;
    }
  }

  /** Everywhere else, nothing changes. */
  lemma {:induction false} LookupElsewhere(node: Node, place: seq<string>, children: seq<Node>, q: seq<string>)
    requires Exists(node, place) && !(place < q)
    ensures InfoAt(WithChildren(node, place, children), q) == InfoAt(node, q)
    decreases |place|
  {
    if place != [] && q != [] {
      var i := FindChild(node.children, place[0]).value;
      var child := WithChildren(node.children[i], place[1..], children);
      FindChildUpdate(node.children, q[0], i, child);
      if q[0] == place[0] {
        assert place[1..] < q[1..] ==> place < q by {
          assert place == [place[0]] + place[1..] && q == [q[0]] + q[1..];
        }
        LookupElsewhere(node.children[i], place[1..], children, q[1..]);
      }
    }
  }

  lemma {:induction false} FindChildAppend(children: seq<Node>, child: Node, name: string)
    ensures FindChild(children + [child], name) ==
            if FindChild(children, name).Some? then FindChild(children, name)
            else if child.name == name then Some(|children|) else None
  {
    if children != [] {
      assert (children + [child])[1..] == children[1..] + [child];
      FindChildAppend(children[1..], child, name);
    } else {
      assert [child][1..] == [];
    }
  }

  /** Whether the name is still free at the place. */
  predicate Fresh(root: Node, place: seq<string>, name: string) {
    !Exists(root, place + [name])
  }

  lemma {:induction false} NodeAtConcat(node: Node, place: seq<string>, rest: seq<string>)
    requires Exists(node, place)
    ensures NodeAt(node, place + rest) == NodeAt(NodeAt(node, place).value, rest)
    decreases |place|
  {
    if place == [] {
      assert place + rest == rest;
    } else {
      var i := FindChild(node.children, place[0]).value;
      NodeAtConcat(node.children[i], place[1..], rest);
      assert (place + rest)[1..] == place[1..] + rest;
    }
  }

  /**
    A new leaf changes exactly one lookup, the one for its own place, and only if its name was
    free; an existing child of that name keeps hiding it.
  */
  lemma AddedLookup(root: Node, place: seq<string>, child: Node, q: seq<string>)
    requires Exists(root, place) && child.children == []
    ensures InfoAt(Added(root, place, child), q) ==
            if q == place + [child.name] && Fresh(root, place, child.name)
            then Some(Info(child.kind, child.size, child.data)) else InfoAt(root, q)
  {
    var parent := NodeAt(root, place).value;
    var children := parent.children + [child];
    NodeAtConcat(root, place, [child.name]);
    assert [child.name][1..] == [];
    if place < q {
      var rest := q[|place|..];
      assert q == place + rest;
      LookupBelow(root, place, children, rest);
      NodeAtConcat(root, place, rest);
      FindChildAppend(parent.children, child, rest[0]);
      assert NodeAt(parent, rest) == NodeIn(parent.children, rest);
      if rest[0] == child.name && FindChild(parent.children, rest[0]).None? {
        assert NodeIn(children, rest) == NodeAt(child, rest[1..]);
        assert q == place + [child.name] <==> rest[1..] == [];
      } else {
        assert NodeIn(children, rest) == NodeIn(parent.children, rest);
      }
    } else {
      LookupElsewhere(root, place, children, q);
    }
  }

  // ----- A path is its directory and its last name

  lemma SplitAt(s: string, k: nat)
    requires k < |s| && s[k] == '/' && '/' !in s[..k]
    ensures Split(s) == [s[..k]] + Split(s[k + 1..])
  {
  }

  lemma {:induction false} SplitConcat(x: string, y: string)
    ensures Split(x + "/" + y) == Split(x) + Split(y)
    decreases |x|
  {
    var s := x + "/" + y;
    if '/' !in x {
      assert s[..|x|] == x && s[|x| + 1..] == y && s[|x|] == '/';
      SplitAt(s, |x|);
    } else {
      var k := IndexOf(x, '/');
      assert s[..k] == x[..k] && s[k] == '/' && s[k + 1..] == x[k + 1..] + "/" + y;
      SplitAt(s, k);
      SplitConcat(x[k + 1..], y);
      assert [x[..k]] + (Split(x[k + 1..]) + Split(y)) == ([x[..k]] + Split(x[k + 1..])) + Split(y);
    }
  }

  lemma {:induction false} WalkConcat(root: Node, place: seq<string>, a: seq<string>, b: seq<string>)
    ensures Walk(root, place, a + b) ==
            if Walk(root, place, a).Ok? then Walk(root, Walk(root, place, a).value, b) else Walk(root, place, a)
    decreases |a|
  {
    if a == [] {
      assert a + b == b;
    } else {
      assert (a + b)[1..] == a[1..] + b;
      var r := Enter(root, place, a[0]);
      if r.Ok? { WalkConcat(root, r.value, a[1..], b); }
    }
  }

  /** Trailing slashes do not matter. */
  lemma {:induction false} WalkStripped(root: Node, path: string)
    requires path != "" && path[0] == '/' && Stripped(path) != ""
    ensures Stripped(path)[0] == '/'
    ensures Walk(root, [], Split(path[1..])) == Walk(root, [], Split(Stripped(path)[1..]))
    decreases |path|
  {
    var last := |path| - 1;
    if path[last] == '/' {
      assert last > 0;
      var shorter := path[..last];
      WalkStripped(root, shorter);
      assert path[1..] == shorter[1..] + "/";
      WalkTrailing(root, shorter[1..]);
    }
  }

  lemma WalkOne(root: Node, place: seq<string>, b: string)
    ensures Walk(root, place, [b]) == Enter(root, place, b)
  {
  }

  /** Components of a stripped path: those of the part before the last slash, then the last name. */
  lemma SplitLast(t: string, i: nat)
    requires 0 < i < |t| && t[i] == '/' && '/' !in t[i + 1..]
    ensures Split(t[1..]) == Split(t[1..i]) + [t[i + 1..]]
  {
    assert t[1..] == t[1..i] + "/" + t[i + 1..];
    SplitConcat(t[1..i], t[i + 1..]);
  }

  /** Resolving a path is resolving its directory and entering its last name. */
  lemma ResolveFactors(root: Node, path: string)
    requires path != "" && path[0] == '/' && Stripped(path) != ""
    ensures Resolved(root, path) ==
            var p := ParentOf(root, path); if p.Ok? then Enter(root, p.value, BaseName(path)) else p
  {
    WalkStripped(root, path);
    var t := Stripped(path);
    var i, b := LastSlash(t), BaseName(path);
    if i == 0 {
      assert t[1..] == b && Split(b) == [b];
      WalkOne(root, [], b);
    } else {
      WalkLast(root, t, i);
      assert t[..i][1..] == t[1..i] && t[..i][0] == '/';
      DirectoryWalk(root, t[..i]);
    }
  }

  lemma WalkLast(root: Node, t: string, i: nat)
    requires 0 < i < |t| && t[i] == '/' && '/' !in t[i + 1..]
    ensures Walk(root, [], Split(t[1..])) ==
            var r := Walk(root, [], Split(t[1..i])); if r.Ok? then Enter(root, r.value, t[i + 1..]) else r
  {
    var front := Split(t[1..i]);
    SplitLast(t, i);
    WalkConcat(root, [], front, [t[i + 1..]]);
    if Walk(root, [], front).Ok? { WalkOne(root, Walk(root, [], front).value, t[i + 1..]); }
  }

  /** A slash at the end changes nothing. */
  lemma WalkTrailing(root: Node, s: string)
    ensures Walk(root, [], Split(s + "/")) == Walk(root, [], Split(s))
  {
    assert s + "/" == s + "/" + "";
    SplitConcat(s, "");
    WalkConcat(root, [], Split(s), [""]);
  }

  /** The shortcut for "/" agrees with walking it. */
  lemma DirectoryWalk(root: Node, d: string)
    requires d != "" && d[0] == '/'
    ensures Walk(root, [], Split(d[1..])) == if d == "/" then Ok([]) else Resolved(root, d)
  {
  }

  /** A tree that lost nothing resolves every path it resolved before, to the same place. */
  lemma {:induction false} WalkMonotone(root: Node, root': Node, place: seq<string>, components: seq<string>)
    requires forall q :: Exists(root, q) ==> Exists(root', q)
    ensures Walk(root, place, components).Ok? ==> Walk(root', place, components) == Walk(root, place, components)
    decreases |components|
  {
    if components != [] {
      var r := Enter(root, place, components[0]);
      if r.Ok? { WalkMonotone(root, root', r.value, components[1..]); }
    }
  }

  lemma AddedLosesNothing(root: Node, place: seq<string>, child: Node)
    requires Exists(root, place) && child.children == []
    ensures forall q :: Exists(root, q) ==> Exists(Added(root, place, child), q)
  {
    forall q | Exists(root, q) ensures Exists(Added(root, place, child), q) {
      AddedLookup(root, place, child, q);
    }
  }

  lemma ResolvedMonotone(root: Node, root': Node, path: string)
    requires forall q :: Exists(root, q) ==> Exists(root', q)
    ensures Resolved(root, path).Ok? ==> Resolved(root', path) == Resolved(root, path)
    ensures ParentOf(root, path).Ok? ==> ParentOf(root', path) == ParentOf(root, path)
  {
    if path != "" { WalkMonotone(root, root', [], Split(path[1..])); }
    var d := DirName(path);
    if d.Some? && d.value != "" { WalkMonotone(root, root', [], Split(d.value[1..])); }
  }

  // ----- The state machine

  datatype Op = CreateFile(path: string, data: seq<Byte>) | CreateDir(path: string) | DeleteFile(path: string)

  function Apply(s: State, op: Op): State {
    match op
    case CreateFile(path, data) =>
      var r := CreateFileResult(s, path, data);
      if r.Err? then s
      else
        ResolvedExists(s.root, path);
        s.(root := Added(s.root, r.value, NewFile(BaseName(path), data)),
           fileCount := s.fileCount + 1, totalSize := s.totalSize + |data|)
    case CreateDir(path) =>
      var r := CreateDirResult(s, path);
      if r.Err? then s
      else
        ResolvedExists(s.root, path);
        s.(root := Added(s.root, r.value, NewDir(BaseName(path))))
    case DeleteFile(path) =>
      var r := DeleteResult(s, path);
      if r.Err? then s
      else
        var (place, i) := r.value;
        s.(root := Removed(s.root, place, i),
           fileCount := s.fileCount - 1, totalSize := s.totalSize - NodeAt(s.root, place).value.children[i].size)
  }

  /** A last name that resolution neither skips nor treats specially. */
  predicate Plain(name: string) {
    name != "" && name != "." && name != ".."
  }

  /**
    Reading a created file gives its data if its last name is plain and was free, and otherwise what
    it gave before.  A relative path can be created, in the root, and never be read.
  */
  lemma ReadAfterCreate(s: State, path: string, data: seq<Byte>)
    requires CreateFileResult(s, path, data).Ok?
    ensures ReadResult(Apply(s, CreateFile(path, data)), path) ==
            if path == "" || path[0] != '/' then Err(InvalidPath)
            else if Plain(BaseName(path)) && Fresh(s.root, CreateFileResult(s, path, data).value, BaseName(path))
            then Ok(data)
            else ReadResult(s, path)
  {
    ResolvedExists(s.root, path);
    var p, b := ParentOf(s.root, path).value, BaseName(path);
    var child := NewFile(b, data);
    var t := Apply(s, CreateFile(path, data));
    if path != "" && path[0] == '/' {
      if Resolved(s.root, path).Ok? {
        AddKeepsReads(s, t, p, child, path);
      }
      if Stripped(path) == "" {
        SlashesResolve(s.root, path);
      } else {
        AddedLosesNothing(s.root, p, child);
        ResolvedMonotone(s.root, t.root, path);
        ResolveFactors(s.root, path);
        ResolveFactors(t.root, path);
        AddedLookup(s.root, p, child, p + [b]);
      }
    }
  }

  /** A path of slashes is the root. */
  lemma {:induction false} SlashesResolve(root: Node, path: string)
    requires path != "" && Stripped(path) == ""
    ensures path[0] == '/' && Resolved(root, path) == Ok([])
    decreases |path|
  {
    var last := |path| - 1;
    assert path[last] == '/';
    if last == 0 {
      assert Split(path[1..]) == [""];
      WalkOne(root, [], "");
    } else {
      var shorter := path[..last];
      SlashesResolve(root, shorter);
      assert path[1..] == shorter[1..] + "/";
      WalkTrailing(root, shorter[1..]);
    }
  }

  lemma AddKeepsReads(s: State, t: State, place: seq<string>, child: Node, path: string)
    requires Exists(s.root, place) && child.children == [] && t.root == Added(s.root, place, child)
    requires Resolved(s.root, path).Ok?
    ensures ReadResult(t, path) == ReadResult(s, path)
  {
    ResolvedExists(s.root, path);
    AddedLosesNothing(s.root, place, child);
    ResolvedMonotone(s.root, t.root, path);
    AddedLookup(s.root, place, child, Resolved(s.root, path).value);
  }

  /** Creating a file or directory changes no other path: whatever resolved before reads as before. */
  lemma CreateKeepsOthers(s: State, op: Op, path: string)
    requires !op.DeleteFile? && Resolved(s.root, path).Ok?
    ensures ReadResult(Apply(s, op), path) == ReadResult(s, path)
  {
    var t := Apply(s, op);
    if t != s {
      ResolvedExists(s.root, op.path);
      var child := if op.CreateFile? then NewFile(BaseName(op.path), op.data) else NewDir(BaseName(op.path));
      AddKeepsReads(s, t, ParentOf(s.root, op.path).value, child, path);
    }
  }

  lemma {:induction false} WithChildrenSame(node: Node, place: seq<string>)
    requires Exists(node, place)
    ensures WithChildren(node, place, NodeAt(node, place).value.children) == node
    decreases |place|
  {
    if place != [] {
      var i := FindChild(node.children, place[0]).value;
      WithChildrenSame(node.children[i], place[1..]);
      assert node.children[i := node.children[i]] == node.children;
    }
  }

  lemma {:induction false} WithChildrenTwice(node: Node, place: seq<string>, a: seq<Node>, b: seq<Node>)
    requires Exists(node, place)
    ensures var once := WithChildren(node, place, a);
            && Exists(once, place) && NodeAt(once, place).value.children == a
            && WithChildren(once, place, b) == WithChildren(node, place, b)
    decreases |place|
  {
    if place != [] {
      var i := FindChild(node.children, place[0]).value;
      var child := WithChildren(node.children[i], place[1..], a);
      FindChildUpdate(node.children, place[0], i, child);
      WithChildrenTwice(node.children[i], place[1..], a, b);
      assert node.children[i := child][i := WithChildren(child, place[1..], b)] ==
             node.children[i := WithChildren(node.children[i], place[1..], b)];
    }
  }

  /** Adding a child of a new name and removing it again gives the same tree. */
  lemma AddThenRemove(root: Node, place: seq<string>, child: Node)
    requires Exists(root, place) && Fresh(root, place, child.name)
    ensures var children := NodeAt(root, place).value.children;
            var added := Added(root, place, child);
            && Exists(added, place) && NodeAt(added, place).value.children == children + [child]
            && FindChild(children + [child], child.name) == Some(|children|)
            && Removed(added, place, |children|) == root
  {
    var children := NodeAt(root, place).value.children;
    var all := children + [child];
    WithChildrenTwice(root, place, all, children);
    WithChildrenSame(root, place);
    NodeAtConcat(root, place, [child.name]);
    FindChildAppend(children, child, child.name);
    assert all[..|children|] + all[|children| + 1..] == children;
  }

  /** Deleting a file just created under a free name restores the whole state. */
  lemma CreateThenDelete(s: State, path: string, data: seq<Byte>)
    requires CreateFileResult(s, path, data).Ok?
    requires Fresh(s.root, CreateFileResult(s, path, data).value, BaseName(path))
    ensures Apply(Apply(s, CreateFile(path, data)), DeleteFile(path)) == s
  {
    ResolvedExists(s.root, path);
    var p := ParentOf(s.root, path).value;
    var child := NewFile(BaseName(path), data);
    var t := Apply(s, CreateFile(path, data));
    AddedLosesNothing(s.root, p, child);
    ResolvedMonotone(s.root, t.root, path);
    AddThenRemove(s.root, p, child);
    assert DeleteResult(t, path) == Ok((p, |NodeAt(s.root, p).value.children|));
  }

  lemma FindChildIs(children: seq<Node>, name: string, k: nat)
    requires k < |children| && children[k].name == name && forall j :: 0 <= j < k ==> children[j].name != name
    ensures FindChild(children, name) == Some(k)
  {
  }

  /** Removing a child leaves the first child of every other name. */
  lemma FindChildRemove(children: seq<Node>, i: nat, name: string)
    requires i < |children| && children[i].name != name
    ensures var rest := children[..i] + children[i + 1..];
            && FindChild(rest, name).Some? == FindChild(children, name).Some?
            && (FindChild(rest, name).Some? ==>
                  rest[FindChild(rest, name).value] == children[FindChild(children, name).value])
  {
    var rest := children[..i] + children[i + 1..];
    assert forall j :: 0 <= j < |rest| ==> rest[j] == children[if j < i then j else j + 1];
    var found := FindChild(children, name);
    if found.Some? {
      var k := if found.value < i then found.value else found.value - 1;
      assert rest[k] == children[found.value];
      FindChildIs(rest, name, k);
    }
  }

  /** Deleting a node changes nothing outside its own place and what was below it. */
  lemma RemovedLookup(root: Node, place: seq<string>, i: nat, q: seq<string>)
    requires Exists(root, place) && i < |NodeAt(root, place).value.children|
    requires !(place + [NodeAt(root, place).value.children[i].name] <= q)
    ensures InfoAt(Removed(root, place, i), q) == InfoAt(root, q)
  {
    var parent := NodeAt(root, place).value;
    var children := parent.children;
    var rest := children[..i] + children[i + 1..];
    if place < q {
      var below := q[|place|..];
      assert q == place + below;
      assert q[..|place| + 1] == place + [below[0]];
      LookupBelow(root, place, rest, below);
      NodeAtConcat(root, place, below);
      FindChildRemove(children, i, below[0]);
      assert NodeAt(parent, below) == NodeIn(children, below);
    } else {
      LookupElsewhere(root, place, rest, q);
    }
  }

  // ----- What a deletion leaves

  /** Where a component leads from a place, if it leads anywhere. */
  function Stepped(place: seq<string>, component: string): seq<string> {
    if component == "" || component == "." then place else if component == ".." then [] else place + [component]
  }

  /** The places a walk passes, in order; the last is where it ends. */
  function Way(place: seq<string>, components: seq<string>): (w: seq<seq<string>>)
    ensures w != [] && w[0] == place
    decreases |components|
  {
    if components == [] then [place] else [place] + Way(Stepped(place, components[0]), components[1..])
  }

  function WayOf(path: string): seq<seq<string>> {
    if path == "" then [] else Way([], Split(path[1..]))
  }

  /** A walk goes alike in a tree that still has the places it passes. */
  lemma {:induction false} SameWalk(root: Node, root': Node, place: seq<string>, components: seq<string>)
    requires Walk(root, place, components).Ok?
    requires forall q :: q in Way(place, components) && Exists(root, q) ==> Exists(root', q)
    ensures Walk(root', place, components) == Walk(root, place, components)
    ensures Walk(root, place, components).value in Way(place, components)
    decreases |components|
  {
    if components != [] {
      var next := Stepped(place, components[0]);
      assert Enter(root, place, components[0]) == Ok(next);
      assert next == Way(next, components[1..])[0] && next in Way(place, components);
      SameWalk(root, root', next, components[1..]);
    }
  }

  /** The operation deletes no place the path passes, nor anything above one. */
  predicate Spares(s: State, op: Op, path: string) {
    op.DeleteFile? && DeleteResult(s, op.path).Ok? ==>
      forall q :: q in WayOf(path) ==> !(DeleteResult(s, op.path).value.0 + [BaseName(op.path)] <= q)
  }

  /** A deletion changes no other path: one that passes no deleted place resolves and reads as before. */
  lemma DeleteKeepsOthers(s: State, target: string, path: string)
    requires Resolved(s.root, path).Ok? && Spares(s, DeleteFile(target), path)
    ensures Resolved(Apply(s, DeleteFile(target)).root, path) == Resolved(s.root, path)
    ensures ReadResult(Apply(s, DeleteFile(target)), path) == ReadResult(s, path)
  {
    if DeleteResult(s, target).Ok? {
      var (place, i) := DeleteResult(s, target).value;
      RemovedKeepsReads(s, Apply(s, DeleteFile(target)), place, i, path);
    }
  }

  lemma RemovedKeepsReads(s: State, t: State, place: seq<string>, i: nat, path: string)
    requires Exists(s.root, place) && i < |NodeAt(s.root, place).value.children| && t.root == Removed(s.root, place, i)
    requires Resolved(s.root, path).Ok?
    requires forall q :: q in WayOf(path) ==> !(place + [NodeAt(s.root, place).value.children[i].name] <= q)
    ensures Resolved(t.root, path) == Resolved(s.root, path) && ReadResult(t, path) == ReadResult(s, path)
  {
    ResolvedExists(s.root, path);
    forall q | q in WayOf(path) ensures InfoAt(t.root, q) == InfoAt(s.root, q) {
      RemovedLookup(s.root, place, i, q);
    }
    forall q | q in WayOf(path) && Exists(s.root, q) ensures Exists(t.root, q) {
      assert InfoAt(t.root, q) == InfoAt(s.root, q);
    }
    SameWalk(s.root, t.root, [], Split(path[1..]));
  }

  /** No operation of the run deletes a place the path passes or anything above one. */
  ghost predicate SparesAll(s: State, run: seq<Op>, path: string)
    decreases |run|
  {
    run == [] || (Spares(s, run[0], path) && SparesAll(Apply(s, run[0]), run[1..], path))
  }

  lemma CreateKeepsPlaces(s: State, op: Op, path: string)
    requires !op.DeleteFile? && Resolved(s.root, path).Ok?
    ensures Resolved(Apply(s, op).root, path) == Resolved(s.root, path)
  {
    if Apply(s, op) != s {
      ResolvedExists(s.root, op.path);
      var child := if op.CreateFile? then NewFile(BaseName(op.path), op.data) else NewDir(BaseName(op.path));
      AddedLosesNothing(s.root, ParentOf(s.root, op.path).value, child);
      ResolvedMonotone(s.root, Apply(s, op).root, path);
    }
  }

  /**
    Over every run a path that resolves keeps reading as it does, whatever is created and deleted
    around it, until a place on its way is deleted or a directory above one.
  */
  lemma {:induction false} ReadsLast(s: State, run: seq<Op>, path: string)
    requires Resolved(s.root, path).Ok? && SparesAll(s, run, path)
    ensures Resolved(After(s, run).root, path) == Resolved(s.root, path)
    ensures ReadResult(After(s, run), path) == ReadResult(s, path)
    decreases |run|
  {
    if run != [] {
      if run[0].DeleteFile? {
        DeleteKeepsOthers(s, run[0].path, path);
      } else {
        CreateKeepsOthers(s, run[0], path);
        CreateKeepsPlaces(s, run[0], path);
      }
      ReadsLast(Apply(s, run[0]), run[1..], path);
    }
  }

  /** A deleted name is gone, if no other child of its parent has it. */
  lemma RemovedIsGone(root: Node, place: seq<string>, i: nat)
    requires Exists(root, place) && i < |NodeAt(root, place).value.children|
    requires var children := NodeAt(root, place).value.children;
             forall j :: 0 <= j < |children| && j != i ==> children[j].name != children[i].name
    ensures !Exists(Removed(root, place, i), place + [NodeAt(root, place).value.children[i].name])
  {
    var children := NodeAt(root, place).value.children;
    var rest := children[..i] + children[i + 1..];
    assert forall j :: 0 <= j < |rest| ==> rest[j] == children[if j < i then j else j + 1];
    LookupBelow(root, place, rest, [children[i].name]);
  }

  // ----- Accounting

  /** The running totals are what the tree holds. */
  ghost predicate Accurate(s: State) {
    s.totalSize == Total(s.root, SizeShare) && s.fileCount == Total(s.root, FileShare)
  }

  ghost predicate WithinQuotas(s: State) {
    s.totalSize <= s.config.maxTotalSize && s.fileCount <= s.config.maxFiles
  }

  /** A deletion hits a subtree that holds one file and no more bytes than its top node. */
  ghost predicate Clean(s: State, op: Op) {
    op.DeleteFile? && DeleteResult(s, op.path).Ok? ==>
      var (place, i) := DeleteResult(s, op.path).value;
      var child := NodeAt(s.root, place).value.children[i];
      Total(child, SizeShare) == child.size && Total(child, FileShare) == 1
  }

  lemma CreateFileAccurate(s: State, path: string, data: seq<Byte>)
    requires Accurate(s)
    ensures Accurate(Apply(s, CreateFile(path, data)))
  {
    var r := CreateFileResult(s, path, data);
    if r.Ok? {
      ResolvedExists(s.root, path);
      TotalAdded(s.root, r.value, NewFile(BaseName(path), data), SizeShare);
      TotalAdded(s.root, r.value, NewFile(BaseName(path), data), FileShare);
    }
  }

  lemma CreateDirAccurate(s: State, path: string)
    requires Accurate(s)
    ensures Accurate(Apply(s, CreateDir(path)))
  {
    var r := CreateDirResult(s, path);
    if r.Ok? {
      ResolvedExists(s.root, path);
      TotalAdded(s.root, r.value, NewDir(BaseName(path)), SizeShare);
      TotalAdded(s.root, r.value, NewDir(BaseName(path)), FileShare);
    }
  }

  /** Exactly when an operation keeps the totals true: a deletion must hit a single file. */
  lemma AccurateIffClean(s: State, op: Op)
    requires Accurate(s)
    ensures Accurate(Apply(s, op)) <==> Clean(s, op)
  {
    match op
    case CreateFile(path, data) => CreateFileAccurate(s, path, data);
    case CreateDir(path) => CreateDirAccurate(s, path);
    case DeleteFile(path) =>
      var r := DeleteResult(s, path);
      if r.Ok? {
        TotalRemoved(s.root, r.value.0, r.value.1, SizeShare);
        TotalRemoved(s.root, r.value.0, r.value.1, FileShare);
      }
  }

  function After(s: State, run: seq<Op>): State
    decreases |run|
  {
    if run == [] then s else After(Apply(s, run[0]), run[1..])
  }

  /** Only directories have children. */
  predicate FilesAreLeaves(n: Node)
    decreases n
  {
    && (n.kind == File ==> n.children == [])
    && forall i :: 0 <= i < |n.children| ==> FilesAreLeaves(n.children[i])
  }

  /** Creations go into directories and deletions hit files. */
  predicate Proper(s: State, op: Op) {
    ResolvedExists(s.root, op.path);
    if op.DeleteFile? then
      DeleteResult(s, op.path).Ok? ==>
        var (place, i) := DeleteResult(s, op.path).value; NodeAt(s.root, place).value.children[i].kind == File
    else
      var p := ParentOf(s.root, op.path);
      p.Ok? ==> NodeAt(s.root, p.value).value.kind == Directory
  }

  predicate ProperRun(s: State, run: seq<Op>)
    decreases |run|
  {
    run == [] || (Proper(s, run[0]) && ProperRun(Apply(s, run[0]), run[1..]))
  }

  lemma {:induction false} LeavesAt(node: Node, place: seq<string>)
    requires FilesAreLeaves(node) && Exists(node, place)
    ensures FilesAreLeaves(NodeAt(node, place).value)
    decreases |place|
  {
    if place != [] {
      LeavesAt(node.children[FindChild(node.children, place[0]).value], place[1..]);
    }
  }

  lemma {:induction false} LeavesWithChildren(node: Node, place: seq<string>, children: seq<Node>)
    requires FilesAreLeaves(node) && Exists(node, place) && NodeAt(node, place).value.kind == Directory
    requires forall i :: 0 <= i < |children| ==> FilesAreLeaves(children[i])
    ensures FilesAreLeaves(WithChildren(node, place, children))
    decreases |place|
  {
    if place != [] {
      LeavesWithChildren(node.children[FindChild(node.children, place[0]).value], place[1..], children);
    }
  }

  lemma LeavesAdded(root: Node, place: seq<string>, child: Node)
    requires FilesAreLeaves(root) && Exists(root, place) && NodeAt(root, place).value.kind == Directory
    requires child.children == []
    ensures FilesAreLeaves(Added(root, place, child))
  {
    LeavesAt(root, place);
    LeavesWithChildren(root, place, NodeAt(root, place).value.children + [child]);
  }

  /** Only a directory has a child to remove. */
  lemma LeavesRemoved(root: Node, place: seq<string>, i: nat)
    requires FilesAreLeaves(root) && Exists(root, place) && i < |NodeAt(root, place).value.children|
    ensures FilesAreLeaves(NodeAt(root, place).value.children[i])
    ensures FilesAreLeaves(Removed(root, place, i))
  {
    LeavesAt(root, place);
    var children := NodeAt(root, place).value.children;
    LeavesWithChildren(root, place, children[..i] + children[i + 1..]);
  }

  /** In a tree whose files are leaves a proper operation is clean, and files stay leaves. */
  lemma ProperStep(s: State, op: Op)
    requires FilesAreLeaves(s.root) && Proper(s, op)
    ensures Clean(s, op) && FilesAreLeaves(Apply(s, op).root)
  {
    ResolvedExists(s.root, op.path);
    match op
    case CreateFile(path, data) =>
      var r := CreateFileResult(s, path, data);
      if r.Ok? { LeavesAdded(s.root, r.value, NewFile(BaseName(path), data)); }
    case CreateDir(path) =>
      var r := CreateDirResult(s, path);
      if r.Ok? { LeavesAdded(s.root, r.value, NewDir(BaseName(path))); }
    case DeleteFile(path) =>
      var r := DeleteResult(s, path);
      if r.Ok? {
        LeavesRemoved(s.root, r.value.0, r.value.1);
        var child := NodeAt(s.root, r.value.0).value.children[r.value.1];
        TotalLeaf(child, SizeShare);
        TotalLeaf(child, FileShare);
      }
  }

  const EMPTY_ROOT: Node := Node("/", Directory, 0, [], [])

  function InitialState(config: Config): State {
    State(EMPTY_ROOT, config, 0, 0)
  }

  lemma InitialAccurate(config: Config)
    ensures Accurate(InitialState(config)) && WithinQuotas(InitialState(config))
  {
  }

  lemma {:induction false} ProperRunKeeps(s: State, run: seq<Op>)
    requires Accurate(s) && FilesAreLeaves(s.root) && ProperRun(s, run)
    ensures Accurate(After(s, run)) && FilesAreLeaves(After(s, run).root)
    decreases |run|
  {
    if run != [] {
      ProperStep(s, run[0]);
      AccurateIffClean(s, run[0]);
      ProperRunKeeps(Apply(s, run[0]), run[1..]);
    }
  }

  /** The running totals respect the quotas over every run whatever. */
  lemma {:induction false} QuotasHold(s: State, run: seq<Op>)
    requires WithinQuotas(s)
    ensures WithinQuotas(After(s, run)) && After(s, run).config == s.config
    decreases |run|
  {
    if run != [] { QuotasHold(Apply(s, run[0]), run[1..]); }
  }

  /**
    Over every run from the empty tree that creates under directories and deletes files, the totals
    are the sizes and the number of the files in the tree, so what the tree holds respects the quotas.
  */
  lemma TotalsMatchTree(config: Config, run: seq<Op>)
    requires ProperRun(InitialState(config), run)
    ensures var s := After(InitialState(config), run);
            && Accurate(s)
            && Total(s.root, SizeShare) <= config.maxTotalSize && Total(s.root, FileShare) <= config.maxFiles
  {
    InitialAccurate(config);
    ProperRunKeeps(InitialState(config), run);
    QuotasHold(InitialState(config), run);
  }

  /** No node of the tree is larger than the limit. */
  predicate Small(n: Node, limit: nat)
    decreases n
  {
    n.size <= limit && forall i :: 0 <= i < |n.children| ==> Small(n.children[i], limit)
  }

  lemma {:induction false} SmallAt(node: Node, place: seq<string>, limit: nat)
    requires Small(node, limit) && Exists(node, place)
    ensures Small(NodeAt(node, place).value, limit)
    decreases |place|
  {
    if place != [] {
      SmallAt(node.children[FindChild(node.children, place[0]).value], place[1..], limit);
    }
  }

  lemma {:induction false} SmallWithChildren(node: Node, place: seq<string>, children: seq<Node>, limit: nat)
    requires Small(node, limit) && Exists(node, place)
    requires forall i :: 0 <= i < |children| ==> Small(children[i], limit)
    ensures Small(WithChildren(node, place, children), limit)
    decreases |place|
  {
    if place != [] {
      SmallWithChildren(node.children[FindChild(node.children, place[0]).value], place[1..], children, limit);
    }
  }

  lemma SmallAdded(root: Node, place: seq<string>, child: Node, limit: nat)
    requires Small(root, limit) && Exists(root, place) && Small(child, limit)
    ensures Small(Added(root, place, child), limit)
  {
    SmallAt(root, place, limit);
    SmallWithChildren(root, place, NodeAt(root, place).value.children + [child], limit);
  }

  lemma SmallRemoved(root: Node, place: seq<string>, i: nat, limit: nat)
    requires Small(root, limit) && Exists(root, place) && i < |NodeAt(root, place).value.children|
    ensures Small(Removed(root, place, i), limit)
  {
    SmallAt(root, place, limit);
    var children := NodeAt(root, place).value.children;
    SmallWithChildren(root, place, children[..i] + children[i + 1..], limit);
  }

  lemma SmallStep(s: State, op: Op)
    requires Small(s.root, s.config.maxFileSize)
    ensures Small(Apply(s, op).root, s.config.maxFileSize) && Apply(s, op).config == s.config
  {
    ResolvedExists(s.root, op.path);
    var limit := s.config.maxFileSize;
    match op
    case CreateFile(path, data) =>
      var r := CreateFileResult(s, path, data);
      if r.Ok? { SmallAdded(s.root, r.value, NewFile(BaseName(path), data), limit); }
    case CreateDir(path) =>
      var r := CreateDirResult(s, path);
      if r.Ok? { SmallAdded(s.root, r.value, NewDir(BaseName(path)), limit); }
    case DeleteFile(path) =>
      var r := DeleteResult(s, path);
      if r.Ok? { SmallRemoved(s.root, r.value.0, r.value.1, limit); }
  }

  /** Over every run whatever, no file exceeds the size limit, and a read-only file system never changes. */
  lemma {:induction false} LimitsHold(s: State, run: seq<Op>)
    requires Small(s.root, s.config.maxFileSize)
    ensures Small(After(s, run).root, s.config.maxFileSize)
    ensures s.config.readOnly ==> After(s, run) == s
    decreases |run|
  {
    if run != [] {
      SmallStep(s, run[0]);
      LimitsHold(Apply(s, run[0]), run[1..]);
    }
  }

  /** Deleting a directory drops the file count below what the tree holds. */
  lemma DeletingDirectoryMiscounts(config: Config)
    requires !config.readOnly
    ensures var s := Apply(InitialState(config), CreateDir("/d"));
            Accurate(s) && !Accurate(Apply(s, DeleteFile("/d"))) && Apply(s, DeleteFile("/d")).fileCount == -1
  {
    var s0 := InitialState(config);
    var s := Apply(s0, CreateDir("/d"));
    InitialAccurate(config);
    AccurateIffClean(s0, CreateDir("/d"));
    assert Stripped("/d") == "/d" && LastSlash("/d") == 0 && BaseName("/d") == "d" && DirName("/d") == Some("/");
    var d := NewDir("d");
    assert s.root.children == [d];
    assert FindChild([d], "d") == Some(0);
    assert DeleteResult(s, "/d") == Ok(([], 0));
    TotalLeaf(d, FileShare);
    assert !Clean(s, DeleteFile("/d"));
    AccurateIffClean(s, DeleteFile("/d"));
  }

  // ----- When operations succeed

  /** The directory part of a path is the root or resolves. */
  predicate ParentResolves(root: Node, path: string) {
    DirName(path) == None || DirName(path) == Some("/") || Resolved(root, DirName(path).value).Ok?
  }

  /**
    With totals that match the tree, a file is created exactly when the file system is writable, holds
    fewer files than allowed, has room for the data, the data is not too large for one file, and the
    directory part resolves; otherwise the first of these that fails, in this order, is reported.
  */
  lemma CreateSucceedsIff(s: State, path: string, data: seq<Byte>)
    requires Accurate(s)
    ensures CreateFileResult(s, path, data).Ok? <==>
            && !s.config.readOnly && Total(s.root, FileShare) < s.config.maxFiles
            && Total(s.root, SizeShare) + |data| <= s.config.maxTotalSize && |data| <= s.config.maxFileSize
            && ParentResolves(s.root, path)
    ensures s.config.readOnly ==> CreateFileResult(s, path, data) == Err(ReadOnly)
    ensures !s.config.readOnly && (Total(s.root, FileShare) >= s.config.maxFiles ||
                                   Total(s.root, SizeShare) + |data| > s.config.maxTotalSize) ==>
              CreateFileResult(s, path, data) == Err(QuotaExceeded)
    ensures !s.config.readOnly && Total(s.root, FileShare) < s.config.maxFiles &&
            Total(s.root, SizeShare) + |data| <= s.config.maxTotalSize && |data| > s.config.maxFileSize ==>
              CreateFileResult(s, path, data) == Err(FileTooLarge)
    ensures !s.config.readOnly ==> (CreateDirResult(s, path).Ok? <==> ParentResolves(s.root, path))
  {
  }

  /** A deletion succeeds exactly when its parent resolves and has a child of the name, the first of which it takes. */
  lemma DeleteSucceedsIff(s: State, path: string)
    ensures DeleteResult(s, path).Ok? <==>
            && !s.config.readOnly && ParentResolves(s.root, path)
            && Exists(s.root, ParentOf(s.root, path).value + [BaseName(path)])
  {
    ResolvedExists(s.root, path);
    if ParentOf(s.root, path).Ok? {
      NodeAtConcat(s.root, ParentOf(s.root, path).value, [BaseName(path)]);
      assert [BaseName(path)][1..] == [];
    }
  }

  /** A read succeeds exactly on a path that resolves to a file, and gives its data. */
  lemma ReadSucceedsIff(s: State, path: string, data: seq<Byte>)
    ensures ReadResult(s, path) == Ok(data) <==>
            Resolved(s.root, path).Ok? &&
            exists size :: InfoAt(s.root, Resolved(s.root, path).value) == Some(Info(File, size, data))
    ensures Resolved(s.root, path).Err? ==> ReadResult(s, path) == Err(Resolved(s.root, path).error)
  {
    ResolvedExists(s.root, path);
    if Resolved(s.root, path).Ok? {
      var n := NodeAt(s.root, Resolved(s.root, path).value).value;
      assert InfoAt(s.root, Resolved(s.root, path).value) == Some(Info(n.kind, n.size, n.data));
    }
  }

  /** At the end of an absolute path "." changes nothing, and ".." jumps to the root but not from the root. */
  lemma DotsAtTheEnd(root: Node, path: string)
    requires path != "" && path[0] == '/'
    ensures Resolved(root, path + "/.") == Resolved(root, path)
    ensures Resolved(root, path).Ok? ==>
              Resolved(root, path + "/..") == if Resolved(root, path).value == [] then Err(PathEscape) else Ok([])
  {
    assert path + "/" + "." == path + "/." && path + "/" + ".." == path + "/..";
    EndsWith(root, path, ".");
    EndsWith(root, path, "..");
  }

  lemma EndsWith(root: Node, path: string, last: string)
    requires path != "" && path[0] == '/' && '/' !in last
    ensures Resolved(root, path + "/" + last) ==
            if Resolved(root, path).Ok? then Enter(root, Resolved(root, path).value, last) else Resolved(root, path)
  {
    assert (path + "/" + last)[1..] == path[1..] + "/" + last;
    SplitConcat(path[1..], last);
    assert Split(last) == [last];
    WalkConcat(root, [], Split(path[1..]), [last]);
    if Walk(root, [], Split(path[1..])).Ok? { WalkOne(root, Walk(root, [], Split(path[1..])).value, last); }
  }

  // ----- The adapter as it runs

  class VfsAdapter {
    var root: Node
    const config: Config
    var totalSize: int
    var fileCount: int

    ghost function View(): State
      reads this
    {
      State(root, config, totalSize, fileCount)
    }

    constructor (config: Config)
      ensures View() == InitialState(config) && Accurate(View()) && WithinQuotas(View())
    {
      this.config := config;
      root, totalSize, fileCount := EMPTY_ROOT, 0, 0;
      new;
      InitialAccurate(config);
    }

    /** The loop over the components; `place` is the current node. */
    method Resolve(path: string) returns (r: Result<seq<string>, VfsError>)
      ensures r == Resolved(root, path)
      ensures r.Ok? ==> Exists(root, r.value)
    {
      ResolvedExists(root, path);
      if path == "" || path[0] != '/' { return Err(InvalidPath); }
      var components := Split(path[1..]);
      var place: seq<string> := [];
      var i := 0;
      while i < |components|
        invariant 0 <= i <= |components|
        invariant Resolved(root, path) == Walk(root, place, components[i..])
      {
        var component := components[i];
        assert components[i..][0] == component && components[i..][1..] == components[i + 1..];
        i := i + 1;
        if component == "" || component == "." { continue; }
        if component == ".." {
          if place == [] { return Err(PathEscape); }
          place := [];
          continue;
        }
        if !Exists(root, place + [component]) { return Err(FileNotFound); }
        place := place + [component];
      }
      return Ok(place);
    }

    /** The node that will hold, or holds, the last name of a path. */
    method ResolveParent(path: string) returns (r: Result<seq<string>, VfsError>)
      ensures r == ParentOf(root, path)
      ensures r.Ok? ==> Exists(root, r.value)
    {
      ResolvedExists(root, path);
      var d := DirName(path);
      if d.None? || d.value == "/" { return Ok([]); }
      r := Resolve(d.value);
    }

    method CreateFile(path: string, data: seq<Byte>) returns (r: Result<seq<string>, VfsError>)
      modifies this
      ensures View() == Apply(old(View()), Op.CreateFile(path, data))
      ensures r == CreateFileResult(old(View()), path, data)
    {
      if config.readOnly { return Err(ReadOnly); }
      if fileCount >= config.maxFiles { return Err(QuotaExceeded); }
      if totalSize + |data| > config.maxTotalSize { return Err(QuotaExceeded); }
      if |data| > config.maxFileSize { return Err(FileTooLarge); }
      r := ResolveParent(path);
      if r.Ok? {
        root := Added(root, r.value, NewFile(BaseName(path), data));
        fileCount := fileCount + 1;
        totalSize := totalSize + |data|;
      }
    }

    method CreateDir(path: string) returns (r: Result<seq<string>, VfsError>)
      modifies this
      ensures View() == Apply(old(View()), Op.CreateDir(path))
      ensures r == CreateDirResult(old(View()), path)
    {
      if config.readOnly { return Err(ReadOnly); }
      r := ResolveParent(path);
      if r.Ok? { root := Added(root, r.value, NewDir(BaseName(path))); }
    }

    method ReadFile(path: string) returns (r: Result<seq<Byte>, VfsError>)
      ensures r == ReadResult(View(), path)
    {
      var p := Resolve(path);
      if p.Err? { return Err(p.error); }
      var node := NodeAt(root, p.value).value;
      if node.kind != File { return Err(NotAFile); }
      return Ok(node.data);
    }

    method DeleteFile(path: string) returns (r: Result<(seq<string>, nat), VfsError>)
      modifies this
      ensures View() == Apply(old(View()), Op.DeleteFile(path))
      ensures r == DeleteResult(old(View()), path)
    {
      if config.readOnly { return Err(ReadOnly); }
      var p := ResolveParent(path);
      if p.Err? { return Err(p.error); }
      var children, name := NodeAt(root, p.value).value.children, BaseName(path);
      var i := 0;
      while i < |children|
        invariant 0 <= i <= |children|
        invariant forall j :: 0 <= j < i ==> children[j].name != name
      {
        if children[i].name == name {
          totalSize := totalSize - children[i].size;
          fileCount := fileCount - 1;
          root := Removed(root, p.value, i);
          return Ok((p.value, i));
        }
        i := i + 1;
      }
      return Err(FileNotFound);
    }
  }
}
