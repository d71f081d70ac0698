/** The folder tree of `views.py`, and what it takes to undo it: flat names with a separator in them, nested and
    flattened again.  `as_tree` finds the node of a path through a dictionary; the tree here is walked down instead,
    which finds the same node because siblings never share a label. */
module FolderTree {
  import opened Common

  type Path = seq<string>

  datatype Folder = Folder(id: nat, name: string)

  datatype Node = Node(title: string, folder: Option<Folder>, children: seq<Node>)

  datatype Row = Row(title: string, folder: Option<Folder>, depth: nat)

  // ------------------------------------------------------------------ names and levels

  function SplitOn(name: string, delimiter: char, word: string): (path: Path)
    ensures path != []
    decreases |name|
  {
    if name == "" then [word]
    else if name[0] == delimiter then [word] + SplitOn(name[1..], delimiter, "")
    else SplitOn(name[1..], delimiter, word + [name[0]])
  }

  function JoinOn(path: Path, delimiter: char): string
    requires path != []
  {
    if |path| == 1 then path[0] else path[0] + [delimiter] + JoinOn(path[1..], delimiter)
  }

  function Levels(name: string, delimiter: Option<char>): (path: Path)
    ensures path != []
  {
    if delimiter.Some? then SplitOn(name, delimiter.value, "") else [name]
  }

  function NameOf(path: Path, delimiter: Option<char>): string
    requires path != []
  {
    if delimiter.Some? then JoinOn(path, delimiter.value) else path[0]
  }

  lemma {:induction false} JoinUndoesSplit(name: string, delimiter: char, word: string)
    ensures JoinOn(SplitOn(name, delimiter, word), delimiter) == word + name
    decreases |name|
  {
    if name != "" {
      if name[0] == delimiter {
        JoinUndoesSplit(name[1..], delimiter, "");
        var rest := SplitOn(name[1..], delimiter, "");
        assert ([word] + rest)[1..] == rest;
        assert word + [delimiter] + name[1..] == word + name;
      } else {
        JoinUndoesSplit(name[1..], delimiter, word + [name[0]]);
      }
    }
  }

  lemma {:induction false} SplitCuts(name: string, delimiter: char, word: string)
    requires delimiter !in word
    ensures forall k :: 0 <= k < |SplitOn(name, delimiter, word)| ==> delimiter !in SplitOn(name, delimiter, word)[k]
    ensures |SplitOn(name, delimiter, word)| == Count(name, delimiter) + 1
    decreases |name|
  {
    if name != "" {
      if name[0] == delimiter {
        SplitCuts(name[1..], delimiter, "");
      } else {
        SplitCuts(name[1..], delimiter, word + [name[0]]);
      }
    }
  }

  /** How deep a folder of this name is: as many levels above it as there are separators in the name. */
  function DepthOf(name: string, delimiter: Option<char>): nat { if delimiter.Some? then Count(name, delimiter.value) else 0 }

  predicate Unseparated(title: string, delimiter: Option<char>) { delimiter.Some? ==> delimiter.value !in title }

  /** The levels of a name are cut at every separator and nowhere else. */
  lemma LevelsExactly(name: string, delimiter: Option<char>)
    ensures NameOf(Levels(name, delimiter), delimiter) == name
    ensures |Levels(name, delimiter)| == DepthOf(name, delimiter) + 1
    ensures forall k :: 0 <= k < |Levels(name, delimiter)| ==> Unseparated(Levels(name, delimiter)[k], delimiter)
  {
    if delimiter.Some? {
      JoinUndoesSplit(name, delimiter.value, "");
      SplitCuts(name, delimiter.value, "");
    }
  }

  lemma LevelsNameTheFolder(name: string, delimiter: Option<char>)
    ensures NameOf(Levels(name, delimiter), delimiter) == name
  {
    if delimiter.Some? {
      JoinUndoesSplit(name, delimiter.value, "");
    }
  }

  // ------------------------------------------------------------------ sorting siblings

  function Upper(s: string): string {
    seq(|s|, i requires 0 <= i < |s| => if 'a' <= s[i] <= 'z' then s[i] - 'a' + 'A' else s[i])
  }

  function Folded(s: string): string {
    seq(|s|, i requires 0 <= i < |s| => if 'A' <= s[i] <= 'Z' then s[i] - 'A' + 'a' else s[i])
  }

  predicate IsInbox(title: string) { Upper(title) == "INBOX" }

  predicate StringLeq(a: string, b: string) {
    a == "" || (b != "" && (a[0] < b[0] || (a[0] == b[0] && StringLeq(a[1..], b[1..]))))
  }

  /** The sort key of one label against another's: INBOX first, then alphabetical without case. */
  predicate Leq(a: string, b: string) {
    if IsInbox(a) != IsInbox(b) then IsInbox(a) else StringLeq(Folded(a), Folded(b))
  }

  lemma StringLeqTotal(a: string, b: string)
    ensures StringLeq(a, b) || StringLeq(b, a)
  {}

  lemma StringLeqTransitive(a: string, b: string, c: string)
    requires StringLeq(a, b) && StringLeq(b, c)
    ensures StringLeq(a, c)
  {}

  lemma LeqTransitive(a: string, b: string, c: string)
    requires Leq(a, b) && Leq(b, c)
    ensures Leq(a, c)
  {
    if IsInbox(a) == IsInbox(b) == IsInbox(c) {
      StringLeqTransitive(Folded(a), Folded(b), Folded(c));
    }
  }

  ghost predicate Ordered(nodes: seq<Node>) {
    forall i, j :: 0 <= i < j < |nodes| ==> Leq(nodes[i].title, nodes[j].title)
  }

  predicate Distinct<T(==)>(s: seq<T>) { forall i, j :: 0 <= i < j < |s| ==> s[i] != s[j] }

  predicate Titled(nodes: seq<Node>, title: string) { exists n <- nodes :: n.title == title }

  /** No two siblings share a label. */
  predicate Unmixed(nodes: seq<Node>) {
    nodes == [] || (!Titled(nodes[1..], nodes[0].title) && Unmixed(nodes[1..]))
  }

  function Place(node: Node, sorted: seq<Node>): (r: seq<Node>)
    requires Ordered(sorted)
    ensures forall n :: n in r <==> n == node || n in sorted
    ensures Unmixed(sorted) && !Titled(sorted, node.title) ==> Unmixed(r)
    ensures Ordered(r)
  {
    if sorted == [] then [node]
    else if Leq(node.title, sorted[0].title) then
      PlaceInFront(node, sorted);
      [node] + sorted
    else
      var rest := Place(node, sorted[1..]);
      StringLeqTotal(Folded(node.title), Folded(sorted[0].title));
      assert forall i :: 0 <= i < |rest| ==> rest[i] in rest;
      [sorted[0]] + rest
  }

  lemma PlaceInFront(node: Node, sorted: seq<Node>)
    requires Ordered(sorted) && sorted != [] && Leq(node.title, sorted[0].title)
    ensures Ordered([node] + sorted)
  {
    forall j | 0 < j < |sorted| ensures Leq(node.title, sorted[j].title) {
      LeqTransitive(node.title, sorted[0].title, sorted[j].title);
    }
  }

  /** Python's stable sort on the key of `as_tree`. */
  function Sorted(nodes: seq<Node>): (r: seq<Node>)
    ensures forall n :: n in r <==> n in nodes
    ensures Unmixed(nodes) ==> Unmixed(r)
    ensures Ordered(r)
  {
    if nodes == [] then [] else Place(nodes[0], Sorted(nodes[1..]))
  }

  // ------------------------------------------------------------------ building the tree

  /** `node_for` and the assignment after it: the node at a path is given its folder, and made, with
      every level above it, if it is not there. */
  function WithFolder(nodes: seq<Node>, path: Path, folder: Folder): seq<Node>
    requires path != []
    decreases |path|, |nodes| + 1
  {
    if nodes == [] then [Fill(Node(path[0], None, []), path, folder)]
    else if nodes[0].title == path[0] then [Fill(nodes[0], path, folder)] + nodes[1..]
    else [nodes[0]] + WithFolder(nodes[1..], path, folder)
  }

  function Fill(node: Node, path: Path, folder: Folder): Node
    requires path != []
    decreases |path|, 0
  {
    if |path| == 1 then node.(folder := Some(folder))
    else node.(children := WithFolder(node.children, path[1..], folder))
  }

  /** `sorted_in_place`, on every list of the tree. */
  function Arranged(nodes: seq<Node>): seq<Node>
  {
    Sorted(Within(nodes))
  }

  function Within(nodes: seq<Node>): (r: seq<Node>)
    ensures |r| == |nodes|
  {
    if nodes == [] then []
    else [Node(nodes[0].title, nodes[0].folder, Sorted(Within(nodes[0].children)))] + Within(nodes[1..])
  }

  function Unsorted(folders: seq<Folder>, delimiter: Option<char>): seq<Node> {
    if folders == [] then []
    else WithFolder(Unsorted(folders[..|folders| - 1], delimiter), Levels(Last(folders).name, delimiter), Last(folders))
  }

  function Tree(folders: seq<Folder>, delimiter: Option<char>): seq<Node> {
    Arranged(Unsorted(folders, delimiter))
  }

  /** `as_tree`. */
  method AsTree(folders: seq<Folder>, delimiter: Option<char>) returns (roots: seq<Node>)
    ensures roots == Tree(folders, delimiter)
  {
    roots := [];
    for i := 0 to |folders|
      invariant roots == Unsorted(folders[..i], delimiter)
    {
      assert folders[..i + 1][..i] == folders[..i];
      roots := WithFolder(roots, Levels(folders[i].name, delimiter), folders[i]);
    }
    assert folders[..|folders|] == folders;
    roots := Arranged(roots);
  }

  function Rows(tree: seq<Node>, depth: nat): seq<Row> {
    if tree == [] then []
    else [Row(tree[0].title, tree[0].folder, depth)] + Rows(tree[0].children, depth + 1) + Rows(tree[1..], depth)
  }

  /** `flattened`. */
  method Flattened(tree: seq<Node>, depth: nat) returns (rows: seq<Row>)
    ensures rows == Rows(tree, depth)
    decreases tree
  {
    rows := [];
    for i := 0 to |tree|
      invariant rows + Rows(tree[i..], depth) == Rows(tree, depth)
    {
      rows := rows + [Row(tree[i].title, tree[i].folder, depth)];
      var below := Flattened(tree[i].children, depth + 1);
      rows := rows + below;
    }
  }

  // ------------------------------------------------------------------ what the tree holds

  /** The tree has a node at this path, and this folder is on it. */
  predicate Files(nodes: seq<Node>, path: Path, folder: Option<Folder>)
    requires path != []
    decreases |path|
  {
    exists n <- nodes :: n.title == path[0] && FilesIn(n, path, folder)
  }

  predicate FilesIn(node: Node, path: Path, folder: Option<Folder>)
    requires path != []
    decreases |path|, 0
  {
    if |path| == 1 then node.folder == folder else Files(node.children, path[1..], folder)
  }

  predicate Has(nodes: seq<Node>, path: Path)
    requires path != []
    decreases |path|
  {
    exists n <- nodes :: n.title == path[0] && HasIn(n, path)
  }

  predicate HasIn(node: Node, path: Path)
    requires path != []
    decreases |path|, 0
  {
    |path| == 1 || Has(node.children, path[1..])
  }

  predicate Tidy(nodes: seq<Node>) { Unmixed(nodes) && forall n <- nodes :: Tidy(n.children) }

  /** `q` is `path` or a level above it. */
  predicate Covers(q: Path, path: Path) {
    q != [] && path != [] && q[0] == path[0] && (|q| == 1 || Covers(q[1..], path[1..]))
  }

  lemma {:induction false} WithFolderFiles(nodes: seq<Node>, path: Path, folder: Folder, q: Path, held: Option<Folder>)
    requires path != [] && q != [] && Tidy(nodes)
    ensures Files(WithFolder(nodes, path, folder), q, held) <==>
              if q == path then held == Some(folder)
              else Files(nodes, q, held) || (held == None && Covers(q, path) && !Has(nodes, q))
    ensures Has(WithFolder(nodes, path, folder), q) <==> Has(nodes, q) || Covers(q, path)
    decreases |path|, |nodes| + 1
  {
    var grown := WithFolder(nodes, path, folder);
    if nodes == [] {
      FillFiles(Node(path[0], None, []), path, folder, q, held);
    } else if nodes[0].title == path[0] {
      assert nodes == [nodes[0]] + nodes[1..];
      assert !Titled(nodes[1..], path[0]);
      FillFiles(nodes[0], path, folder, q, held);
    } else {
      assert nodes == [nodes[0]] + nodes[1..];
      assert !Titled(nodes[1..], nodes[0].title);
      WithFolderFiles(nodes[1..], path, folder, q, held);
      if q[0] == nodes[0].title {
        WithFolderTitles(nodes[1..], path, folder, q[0]);
      }
    }
  }

  lemma {:induction false} FillFiles(node: Node, path: Path, folder: Folder, q: Path, held: Option<Folder>)
    requires path != [] && q != [] && Tidy(node.children)
    ensures Fill(node, path, folder).title == node.title
    ensures q[0] == path[0] ==>
              && (FilesIn(Fill(node, path, folder), q, held) <==>
                    if q == path then held == Some(folder)
                    else FilesIn(node, q, held) || (held == None && Covers(q, path) && !HasIn(node, q)))
              && (HasIn(Fill(node, path, folder), q) <==> HasIn(node, q) || Covers(q, path))
    decreases |path|, 0
  {
    if |path| > 1 && |q| > 1 {
      WithFolderFiles(node.children, path[1..], folder, q[1..], held);
      assert q == [q[0]] + q[1..] && path == [path[0]] + path[1..];
    }
  }

  lemma WithFolderTitles(nodes: seq<Node>, path: Path, folder: Folder, title: string)
    requires path != []
    ensures Titled(WithFolder(nodes, path, folder), title) <==> Titled(nodes, title) || title == path[0]
  {
    var grown := WithFolder(nodes, path, folder);
    if nodes == [] {
      assert grown[0] in grown;
    } else {
      assert nodes == [nodes[0]] + nodes[1..] && grown == [grown[0]] + grown[1..] && grown[0] in grown;
      if nodes[0].title != path[0] {
        WithFolderTitles(nodes[1..], path, folder, title);
      }
    }
  }

  lemma {:induction false} WithFolderStaysTidy(nodes: seq<Node>, path: Path, folder: Folder)
    requires path != [] && Tidy(nodes)
    ensures Tidy(WithFolder(nodes, path, folder))
    decreases |path|, |nodes|
  {
    var grown := WithFolder(nodes, path, folder);
    if nodes == [] {
      if |path| > 1 {
        WithFolderStaysTidy([], path[1..], folder);
      }
    } else {
      assert nodes == [nodes[0]] + nodes[1..] && grown == [grown[0]] + grown[1..];
      if nodes[0].title == path[0] {
        if |path| > 1 {
          WithFolderStaysTidy(nodes[0].children, path[1..], folder);
        }
      } else {
        WithFolderStaysTidy(nodes[1..], path, folder);
        WithFolderTitles(nodes[1..], path, folder, nodes[0].title);
      }
    }
  }

  /** Sorting every list moves no folder. */
  lemma {:induction false} ArrangedFiles(nodes: seq<Node>, q: Path, held: Option<Folder>)
    requires q != []
    ensures Files(Arranged(nodes), q, held) <==> Files(nodes, q, held)
    decreases nodes
  {
    WithinFiles(nodes, q, held);
  }

  lemma {:induction false} WithinFiles(nodes: seq<Node>, q: Path, held: Option<Folder>)
    requires q != []
    ensures Files(Within(nodes), q, held) <==> Files(nodes, q, held)
    decreases nodes
  {
    if nodes != [] {
      var inner := Within(nodes);
      assert nodes == [nodes[0]] + nodes[1..] && inner == [inner[0]] + inner[1..];
      WithinFiles(nodes[1..], q, held);
      if |q| > 1 {
        WithinFiles(nodes[0].children, q[1..], held);
      }
      assert FilesIn(inner[0], q, held) <==> FilesIn(nodes[0], q, held);
      assert inner[1..] == Within(nodes[1..]);
    }
  }

  ghost predicate InOrder(nodes: seq<Node>) {
    Ordered(nodes) && forall n <- nodes :: InOrder(n.children)
  }

  lemma {:induction false} WithinKeepsTitles(nodes: seq<Node>, title: string)
    ensures Titled(Within(nodes), title) <==> Titled(nodes, title)
    decreases nodes
  {
    if nodes != [] {
      var inner := Within(nodes);
      assert nodes == [nodes[0]] + nodes[1..] && inner == [inner[0]] + inner[1..];
      WithinKeepsTitles(nodes[1..], title);
      assert nodes[0] in nodes && inner[0] in inner;
    }
  }

  lemma {:induction false} WithinIsInOrder(nodes: seq<Node>)
    requires Tidy(nodes)
    ensures Tidy(Within(nodes)) && forall n <- Within(nodes) :: InOrder(n.children)
    decreases nodes
  {
    if nodes != [] {
      var inner := Within(nodes);
      assert nodes[0] in nodes && nodes == [nodes[0]] + nodes[1..];
      WithinIsInOrder(nodes[1..]);
      WithinIsInOrder(nodes[0].children);
      WithinKeepsTitles(nodes[1..], nodes[0].title);
      assert inner[1..] == Within(nodes[1..]);
      forall n | n in inner ensures Tidy(n.children) && InOrder(n.children) {
        assert n == inner[0] || n in inner[1..];
      }
    }
  }

  ghost predicate DistinctlyNamed(folders: seq<Folder>) {
    forall i, j :: 0 <= i < j < |folders| ==> folders[i].name != folders[j].name
  }

  /** The folders with this one's path, or below it. */
  ghost predicate Spelled(folders: seq<Folder>, delimiter: Option<char>, q: Path) {
    exists f <- folders :: Covers(q, Levels(f.name, delimiter))
  }

  ghost predicate Filed(folders: seq<Folder>, delimiter: Option<char>, q: Path, held: Option<Folder>) {
    && Spelled(folders, delimiter, q)
    && forall f :: held == Some(f) <==> f in folders && Levels(f.name, delimiter) == q
  }

  lemma CoversItself(path: Path)
    ensures path != [] ==> Covers(path, path)
  {}

  lemma SpelledStep(before: seq<Folder>, folder: Folder, delimiter: Option<char>, q: Path)
    ensures Spelled(before + [folder], delimiter, q) <==> Spelled(before, delimiter, q) || Covers(q, Levels(folder.name, delimiter))
  {
    assert folder in before + [folder];
    if Spelled(before, delimiter, q) {
      var f :| f in before && Covers(q, Levels(f.name, delimiter));
      assert f in before + [folder];
    }
  }

  lemma FiledStep(before: seq<Folder>, folder: Folder, delimiter: Option<char>, q: Path, held: Option<Folder>)
    requires q != [] && forall f <- before :: f.name != folder.name
    ensures var path := Levels(folder.name, delimiter);
            Filed(before + [folder], delimiter, q, held) <==>
              if q == path then held == Some(folder)
              else Filed(before, delimiter, q, held) || (held == None && Covers(q, path) && !Spelled(before, delimiter, q))
  {
    var path := Levels(folder.name, delimiter);
    SpelledStep(before, folder, delimiter, q);
    forall f | f in before ensures Levels(f.name, delimiter) != path {
      LevelsNameTheFolder(f.name, delimiter);
      LevelsNameTheFolder(folder.name, delimiter);
    }
    CoversItself(q);
    assert forall f :: f in before + [folder] <==> f in before || f == folder;
    assert forall f <- before :: Levels(f.name, delimiter) == q ==> Spelled(before, delimiter, q);
  }

  /** The tree holds exactly the levels the names spell, and each folder where its name says. */
  lemma {:induction false} UnsortedFiles(folders: seq<Folder>, delimiter: Option<char>, q: Path, held: Option<Folder>)
    requires DistinctlyNamed(folders) && q != []
    ensures Tidy(Unsorted(folders, delimiter))
    ensures Has(Unsorted(folders, delimiter), q) <==> Spelled(folders, delimiter, q)
    ensures Files(Unsorted(folders, delimiter), q, held) <==> Filed(folders, delimiter, q, held)
  {
    if folders != [] {
      var before, folder := folders[..|folders| - 1], Last(folders);
      var path := Levels(folder.name, delimiter);
      assert folders == before + [folder];
      UnsortedFiles(before, delimiter, q, held);
      WithFolderStaysTidy(Unsorted(before, delimiter), path, folder);
      WithFolderFiles(Unsorted(before, delimiter), path, folder, q, held);
      SpelledStep(before, folder, delimiter, q);
      FiledStep(before, folder, delimiter, q, held);
    }
  }

  // ------------------------------------------------------------------ flattening

  /** The nodes in the order they are listed, each with the path down to it. */
  function Walk(nodes: seq<Node>, above: Path): seq<(Path, Option<Folder>)> {
    if nodes == [] then []
    else
      var path := above + [nodes[0].title];
      [(path, nodes[0].folder)] + Walk(nodes[0].children, path) + Walk(nodes[1..], above)
  }

  lemma {:induction false} WalkIsWhatIsFiled(nodes: seq<Node>, above: Path, q: Path, held: Option<Folder>)
    ensures (q, held) in Walk(nodes, above) <==> |q| > |above| && q[..|above|] == above && Files(nodes, q[|above|..], held)
    decreases nodes
  {
    if nodes != [] {
      assert nodes == [nodes[0]] + nodes[1..];
      var path := above + [nodes[0].title];
      WalkIsWhatIsFiled(nodes[0].children, path, q, held);
      WalkIsWhatIsFiled(nodes[1..], above, q, held);
      if |q| > |above| && q[..|above|] == above {
        var rest := q[|above|..];
        assert q == above + rest && rest == [rest[0]] + rest[1..];
        if rest[0] == nodes[0].title {
          assert q[..|path|] == path && q[|path|..] == rest[1..];
          assert |rest| == 1 ==> q == path;
        } else {
          assert q[|above|] != path[|above|];
        }
      }
    }
  }

  ghost predicate PathsDistinct(listed: seq<(Path, Option<Folder>)>) {
    forall i, j :: 0 <= i < j < |listed| ==> listed[i].0 != listed[j].0
  }

  lemma PathsDistinctAppend(a: seq<(Path, Option<Folder>)>, b: seq<(Path, Option<Folder>)>)
    requires PathsDistinct(a) && PathsDistinct(b) && forall x <- a, y <- b :: x.0 != y.0
    ensures PathsDistinct(a + b)
  {
    var c := a + b;
    forall i, j | 0 <= i < j < |c| ensures c[i].0 != c[j].0 {
      if i < |a| <= j {
        assert a[i] in a && b[j - |a|] in b;
      }
    }
  }

  lemma {:induction false} WalkRepeatsNothing(nodes: seq<Node>, above: Path)
    requires Tidy(nodes)
    ensures PathsDistinct(Walk(nodes, above))
    decreases nodes
  {
    if nodes != [] {
      assert nodes == [nodes[0]] + nodes[1..];
      var path := above + [nodes[0].title];
      var below, beside := Walk(nodes[0].children, path), Walk(nodes[1..], above);
      WalkRepeatsNothing(nodes[0].children, path);
      WalkRepeatsNothing(nodes[1..], above);
      forall x | x in below ensures |x.0| > |path| && x.0[..|path|] == path {
        WalkIsWhatIsFiled(nodes[0].children, path, x.0, x.1);
      }
      forall y | y in beside ensures |y.0| > |above| && y.0[|above|] != nodes[0].title {
        WalkIsWhatIsFiled(nodes[1..], above, y.0, y.1);
        assert y.0[|above|..][0] == y.0[|above|];
      }
      var head := [(path, nodes[0].folder)];
      forall x, y | x in head + below && y in beside ensures x.0 != y.0 {
        assert x.0[..|path|][|above|] == nodes[0].title;
      }
      PathsDistinctAppend(head, below);
      PathsDistinctAppend(head + below, beside);
    }
  }

  function TrailOf(row: Row, trail: Path): Path {
    (if row.depth <= |trail| then trail[..row.depth] else trail) + [row.title]
  }

  /** The paths of the rows, from nothing but their labels and depths. */
  function PathsFrom(rows: seq<Row>, trail: Path): (paths: seq<Path>)
    ensures |paths| == |rows|
  {
    if rows == [] then []
    else
      [TrailOf(rows[0], trail)] + PathsFrom(rows[1..], TrailOf(rows[0], trail))
  }

  function TrailAfter(rows: seq<Row>, trail: Path): Path {
    if rows == [] then trail else Last(PathsFrom(rows, trail))
  }

  lemma PathsUnfold(row: Row, rest: seq<Row>, trail: Path)
    ensures PathsFrom([row] + rest, trail) == [TrailOf(row, trail)] + PathsFrom(rest, TrailOf(row, trail))
    ensures TrailAfter([row] + rest, trail) == TrailAfter(rest, TrailOf(row, trail))
  {
    assert ([row] + rest)[1..] == rest;
  }

  lemma {:induction false} PathsFromAppend(a: seq<Row>, b: seq<Row>, trail: Path)
    ensures PathsFrom(a + b, trail) == PathsFrom(a, trail) + PathsFrom(b, TrailAfter(a, trail))
    ensures TrailAfter(a + b, trail) == TrailAfter(b, TrailAfter(a, trail))
    decreases a
  {
    if a == [] {
      assert a + b == b;
    } else {
      var rest, path := a[1..], TrailOf(a[0], trail);
      PathsFromAppend(rest, b, path);
      PathsUnfold(a[0], rest, trail);
      PathsUnfold(a[0], rest + b, trail);
      assert a == [a[0]] + rest && a + b == [a[0]] + (rest + b);
    }
  }

  function Described(listed: seq<(Path, Option<Folder>)>): seq<Row>
    requires forall x <- listed :: x.0 != []
  {
    seq(|listed|, i requires 0 <= i < |listed| =>
      assert listed[i] in listed; Row(Last(listed[i].0), listed[i].1, |listed[i].0| - 1))
  }

  lemma DescribedThree(first: (Path, Option<Folder>), a: seq<(Path, Option<Folder>)>, b: seq<(Path, Option<Folder>)>)
    requires first.0 != [] && (forall x <- a :: x.0 != []) && (forall x <- b :: x.0 != [])
    ensures forall x <- [first] + a + b :: x.0 != []
    ensures Described([first] + a + b) == [Row(Last(first.0), first.1, |first.0| - 1)] + Described(a) + Described(b)
  {}

  lemma {:induction false} RowsDescribeTheWalk(nodes: seq<Node>, above: Path)
    ensures forall x <- Walk(nodes, above) :: x.0 != []
    ensures Rows(nodes, |above|) == Described(Walk(nodes, above))
    decreases nodes
  {
    if nodes != [] {
      var path := above + [nodes[0].title];
      RowsDescribeTheWalk(nodes[0].children, path);
      RowsDescribeTheWalk(nodes[1..], above);
      DescribedThree((path, nodes[0].folder), Walk(nodes[0].children, path), Walk(nodes[1..], above));
    }
  }

  function PathsOf(listed: seq<(Path, Option<Folder>)>): seq<Path> {
    seq(|listed|, i requires 0 <= i < |listed| => listed[i].0)
  }

  lemma PathsFromThree(head: Row, below: seq<Row>, beside: seq<Row>, above: Path, trail: Path)
    requires head.depth == |above| && |trail| >= |above| && trail[..|above|] == above
    ensures var path := above + [head.title];
            var turn := TrailAfter(below, path);
            && PathsFrom([head] + below + beside, trail) == [path] + PathsFrom(below, path) + PathsFrom(beside, turn)
            && TrailAfter([head] + below + beside, trail) == TrailAfter(beside, turn)
  {
    assert [head][1..] == [] && PathsFrom([head], trail) == [above + [head.title]];
    PathsFromAppend([head], below, trail);
    PathsFromAppend([head] + below, beside, trail);
  }

  lemma PathsOfThree(first: (Path, Option<Folder>), a: seq<(Path, Option<Folder>)>, b: seq<(Path, Option<Folder>)>)
    ensures PathsOf([first] + a + b) == [first.0] + PathsOf(a) + PathsOf(b)
  {}

  /** Labels and depths alone tell where every row sits. */
  lemma {:induction false} RowsTellTheirPaths(nodes: seq<Node>, above: Path, trail: Path)
    requires |trail| >= |above| && trail[..|above|] == above
    ensures PathsFrom(Rows(nodes, |above|), trail) == PathsOf(Walk(nodes, above))
    ensures var turn := TrailAfter(Rows(nodes, |above|), trail); |turn| >= |above| && turn[..|above|] == above
    decreases nodes
  {
    if nodes != [] {
      var path := above + [nodes[0].title];
      var below, beside := Rows(nodes[0].children, |path|), Rows(nodes[1..], |above|);
      RowsTellTheirPaths(nodes[0].children, path, path);
      var turn := TrailAfter(below, path);
      RowsTellTheirPaths(nodes[1..], above, turn);
      PathsFromThree(Row(nodes[0].title, nodes[0].folder, |above|), below, beside, above, trail);
      PathsOfThree((path, nodes[0].folder), Walk(nodes[0].children, path), Walk(nodes[1..], above));
    }
  }

  /** What is listed is what is filed. */
  lemma ListedIsFiled(folders: seq<Folder>, delimiter: Option<char>, q: Path, held: Option<Folder>)
    requires DistinctlyNamed(folders)
    ensures (q, held) in Walk(Tree(folders, delimiter), []) <==> q != [] && Filed(folders, delimiter, q, held)
  {
    WalkIsWhatIsFiled(Tree(folders, delimiter), [], q, held);
    if q != [] {
      ArrangedFiles(Unsorted(folders, delimiter), q, held);
      UnsortedFiles(folders, delimiter, q, held);
      assert q[0..] == q;
    }
  }

  lemma FolderAt(folders: seq<Folder>, delimiter: Option<char>, q: Path) returns (held: Option<Folder>)
    requires DistinctlyNamed(folders) && Spelled(folders, delimiter, q)
    ensures Filed(folders, delimiter, q, held)
  {
    if f :| f in folders && Levels(f.name, delimiter) == q {
      held := Some(f);
      LevelsNameTheFolder(f.name, delimiter);
      forall g | g in folders && Levels(g.name, delimiter) == q ensures g == f {
        LevelsNameTheFolder(g.name, delimiter);
      }
    } else {
      held := None;
    }
  }

  /** One row, by its place in the list. */
  ghost predicate RowTells(folders: seq<Folder>, delimiter: Option<char>, path: Path, row: Row) {
    && path != [] && row.title == Last(path) && row.depth == |path| - 1
    && Filed(folders, delimiter, path, row.folder)
  }

  lemma RowsTell(folders: seq<Folder>, delimiter: Option<char>, i: nat)
    requires DistinctlyNamed(folders)
    requires i < |Rows(Tree(folders, delimiter), 0)|
    ensures var rows := Rows(Tree(folders, delimiter), 0); RowTells(folders, delimiter, PathsFrom(rows, [])[i], rows[i])
  {
    var tree := Tree(folders, delimiter);
    var rows, listed := Rows(tree, 0), Walk(tree, []);
    RowsDescribeTheWalk(tree, []);
    RowsTellTheirPaths(tree, [], []);
    assert rows == Described(listed) && listed[i] in listed && PathsOf(listed)[i] == listed[i].0;
    ListedIsFiled(folders, delimiter, listed[i].0, listed[i].1);
  }

  lemma SpelledIsListed(folders: seq<Folder>, delimiter: Option<char>, q: Path)
    requires DistinctlyNamed(folders) && Spelled(folders, delimiter, q)
    ensures q in PathsFrom(Rows(Tree(folders, delimiter), 0), [])
  {
    RowsTellTheirPaths(Tree(folders, delimiter), [], []);
    var listed := Walk(Tree(folders, delimiter), []);
    var held := FolderAt(folders, delimiter, q);
    ListedIsFiled(folders, delimiter, q, held);
    var i :| 0 <= i < |listed| && listed[i] == (q, held);
    assert PathsOf(listed)[i] == q;
  }

  lemma {:induction false} CoveredIsPrefix(q: Path, path: Path)
    requires Covers(q, path)
    ensures |q| <= |path| && q == path[..|q|]
    decreases |q|
  {
    if |q| > 1 {
      CoveredIsPrefix(q[1..], path[1..]);
      assert q == [q[0]] + q[1..] && path == [path[0]] + path[1..];
    }
  }

  /** A row's label is one level, and a folder's row is as deep as its name has separators. */
  predicate RowLies(delimiter: Option<char>, row: Row) {
    Unseparated(row.title, delimiter) && (row.folder.Some? ==> row.depth == DepthOf(row.folder.value.name, delimiter))
  }

  lemma RowsLie(folders: seq<Folder>, delimiter: Option<char>, path: Path, row: Row)
    requires RowTells(folders, delimiter, path, row)
    ensures RowLies(delimiter, row)
  {
    var f :| f in folders && Covers(path, Levels(f.name, delimiter));
    CoveredIsPrefix(path, Levels(f.name, delimiter));
    LevelsExactly(f.name, delimiter);
    if row.folder.Some? {
      LevelsExactly(row.folder.value.name, delimiter);
    }
  }

  /** The tree and its flattening lose nothing: the paths the rows spell are the levels of the names,
      each once; a row says its own label and depth, and carries the folder of that name if there is
      one, so every folder is listed exactly once, as deep as there are separators in its name. */
  lemma TreeRoundTrip(folders: seq<Folder>, delimiter: Option<char>)
    requires DistinctlyNamed(folders)
    ensures var rows := Rows(Tree(folders, delimiter), 0);
            var paths := PathsFrom(rows, []);
            && Distinct(paths)
            && (forall q :: q in paths <==> Spelled(folders, delimiter, q))
            && (forall i :: 0 <= i < |rows| ==> RowTells(folders, delimiter, paths[i], rows[i]) && RowLies(delimiter, rows[i]))
  {
    var rows := Rows(Tree(folders, delimiter), 0);
    var paths := PathsFrom(rows, []);
    assert Distinct(paths) by {
      TreeIsTidy(folders, delimiter);
      WalkRepeatsNothing(Tree(folders, delimiter), []);
      RowsTellTheirPaths(Tree(folders, delimiter), [], []);
    }
    forall i | 0 <= i < |rows| ensures RowTells(folders, delimiter, paths[i], rows[i]) && RowLies(delimiter, rows[i]) {
      RowsTell(folders, delimiter, i);
      RowsLie(folders, delimiter, paths[i], rows[i]);
    }
    forall q | Spelled(folders, delimiter, q) ensures q in paths {
      SpelledIsListed(folders, delimiter, q);
    }
  }

  /** The levels of a folder's own name are among the paths, and spell the name again when joined. */
  lemma NamesRoundTrip(folders: seq<Folder>, delimiter: Option<char>, folder: Folder)
    requires DistinctlyNamed(folders) && folder in folders
    ensures Levels(folder.name, delimiter) in PathsFrom(Rows(Tree(folders, delimiter), 0), [])
    ensures NameOf(Levels(folder.name, delimiter), delimiter) == folder.name
  {
    TreeRoundTrip(folders, delimiter);
    CoversItself(Levels(folder.name, delimiter));
    assert Spelled(folders, delimiter, Levels(folder.name, delimiter));
    LevelsNameTheFolder(folder.name, delimiter);
  }

  lemma TreeIsTidy(folders: seq<Folder>, delimiter: Option<char>)
    requires DistinctlyNamed(folders)
    ensures Tidy(Tree(folders, delimiter)) && InOrder(Tree(folders, delimiter))
  {
    UnsortedFiles(folders, delimiter, [""], None);
    WithinIsInOrder(Unsorted(folders, delimiter));
  }

  /** Siblings are in the order of their labels everywhere, so INBOX is first wherever it appears. */
  lemma InboxComesFirst(nodes: seq<Node>, i: nat)
    requires InOrder(nodes) && i < |nodes| && IsInbox(nodes[i].title)
    ensures IsInbox(nodes[0].title)
  {
    if i > 0 {
      assert Leq(nodes[0].title, nodes[i].title);
    }
  }

  /** The first `k` letters are the same but for case, and then the one ends, or has the earlier letter. */
  predicate PrecedesAt(a: string, b: string, k: nat) {
    && k <= |a| && k <= |b| && (forall i :: 0 <= i < k ==> SameLetter(a[i], b[i]))
    && (k == |a| || (k < |b| && Lower(a[k]) < Lower(b[k])))
  }

  ghost predicate Precedes(a: string, b: string) { exists k: nat :: PrecedesAt(a, b, k) }

  function Lower(c: char): char { if 'A' <= c <= 'Z' then c + ' ' else c }

  predicate SameLetter(a: char, b: char) { Lower(a) == Lower(b) }

  lemma {:induction false} LeqIsPrecedes(a: string, b: string)
    ensures StringLeq(Folded(a), Folded(b)) <==> Precedes(a, b)
    decreases |a|
  {
    if a != "" && b != "" {
      assert Folded(a)[0] == Lower(a[0]) && Folded(b)[0] == Lower(b[0]);
      assert Folded(a)[1..] == Folded(a[1..]) && Folded(b)[1..] == Folded(b[1..]);
      LeqIsPrecedes(a[1..], b[1..]);
      PrecedesNext(a, b);
    } else if a == "" {
      assert PrecedesAt(a, b, 0);
    }
  }

  lemma PrecedesNext(a: string, b: string)
    requires a != "" && b != ""
    ensures Precedes(a, b) <==> Lower(a[0]) < Lower(b[0]) || (SameLetter(a[0], b[0]) && Precedes(a[1..], b[1..]))
  {
    if Precedes(a, b) {
      var k: nat :| PrecedesAt(a, b, k);
      if k > 0 {
        assert SameLetter(a[0], b[0]) && PrecedesAt(a[1..], b[1..], k - 1);
      }
    }
    if Lower(a[0]) < Lower(b[0]) {
      assert PrecedesAt(a, b, 0);
    }
    if SameLetter(a[0], b[0]) && Precedes(a[1..], b[1..]) {
      var k: nat :| PrecedesAt(a[1..], b[1..], k);
      assert PrecedesAt(a, b, k + 1);
    }
  }

  /** Of two siblings the one listed first is INBOX, or the other is not and its label comes first in the
      alphabet, whatever the case. */
  lemma SiblingsAreAlphabetical(nodes: seq<Node>, i: nat, j: nat)
    requires InOrder(nodes) && i < j < |nodes|
    ensures var a, b := nodes[i].title, nodes[j].title;
            IsInbox(b) ==> IsInbox(a)
    ensures var a, b := nodes[i].title, nodes[j].title;
            IsInbox(a) || Precedes(a, b)
    ensures IsInbox(nodes[i].title) <==> |nodes[i].title| == 5 && forall k :: 0 <= k < 5 ==> SameLetter(nodes[i].title[k], "inbox"[k])
  {
    assert Leq(nodes[i].title, nodes[j].title);
    LeqIsPrecedes(nodes[i].title, nodes[j].title);
    InboxInAnyCase(nodes[i].title);
  }

  lemma InboxInAnyCase(title: string)
    ensures IsInbox(title) <==> |title| == 5 && forall k :: 0 <= k < 5 ==> SameLetter(title[k], "inbox"[k])
  {
    if |title| == 5 {
      var up := Upper(title);
      assert up == [up[0], up[1], up[2], up[3], up[4]];
    }
  }
}
