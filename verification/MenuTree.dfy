/** Building the menu forest from rows that name their parents, possibly in cycles. */
module MenuTree {

  /** A row of admin_menu: `rest` stands for the columns the tree only copies. */
  datatype Menu = Menu(id: int, parent: int, rest: string)

  datatype Node = Node(menu: Menu, children: seq<Node>)

  /** Primary keys: distinct, and never the root's number. */
  predicate KeysOk(menus: seq<Menu>) {
    && (forall i | 0 <= i < |menus| :: menus[i].id != 0)
    && (forall i, j | 0 <= i < j < |menus| :: menus[i].id != menus[j].id)
  }

  function Last(path: seq<int>): int {
    if |path| == 0 then 0 else path[|path| - 1]
  }

  predicate Linked(menus: seq<Menu>, id: int, parent: int) {
    exists k | 0 <= k < |menus| :: menus[k].id == id && menus[k].parent == parent
  }

  /** A line of descent from the root: each id belongs to a row whose parent is the id before. */
  predicate Chain(menus: seq<Menu>, path: seq<int>) {
    |path| > 0 ==>
      Chain(menus, path[..|path| - 1]) && Linked(menus, path[|path| - 1], Last(path[..|path| - 1]))
  }

  /** A row is in the tree when a line of descent from the root ends at it. */
  ghost predicate Rooted(menus: seq<Menu>, id: int) {
    exists path :: Chain(menus, path) && |path| > 0 && Last(path) == id
  }

  // ---- lines of descent never repeat ----

  lemma ChainExtend(menus: seq<Menu>, path: seq<int>, id: int)
    requires Chain(menus, path) && Linked(menus, id, Last(path))
    ensures Chain(menus, path + [id])
  {
    assert (path + [id])[..|path|] == path;
  }

  /** There is at most one line of descent to an id. */
  lemma {:induction false} ChainUnique(menus: seq<Menu>, p: seq<int>, q: seq<int>)
    requires KeysOk(menus) && Chain(menus, p) && Chain(menus, q) && Last(p) == Last(q)
    ensures p == q
    decreases |p|
  {
    if |p| > 0 {
      if |q| > 0 {
        ChainUnique(menus, p[..|p| - 1], q[..|q| - 1]);
        assert p == p[..|p| - 1] + [Last(p)] && q == q[..|q| - 1] + [Last(q)];
      }
    }
  }

  lemma {:induction false} ChainTake(menus: seq<Menu>, path: seq<int>, n: nat)
    requires Chain(menus, path) && n <= |path|
    ensures Chain(menus, path[..n])
    decreases |path| - n
  {
    if n == |path| {
      assert path[..n] == path;
    } else {
      ChainTake(menus, path, n + 1);
      assert path[..n + 1][..n] == path[..n];
    }
  }

  lemma ChainLink(menus: seq<Menu>, path: seq<int>, n: nat)
    requires Chain(menus, path) && n < |path|
    ensures Linked(menus, path[n], Last(path[..n]))
  {
    ChainTake(menus, path, n + 1);
    assert path[..n + 1][..n] == path[..n];
  }

  lemma ChainPairDistinct(menus: seq<Menu>, path: seq<int>, i: nat, j: nat)
    requires KeysOk(menus) && Chain(menus, path) && i < j < |path|
    ensures path[i] != path[j]
  {
    ChainTake(menus, path, i + 1);
    ChainTake(menus, path, j + 1);
    var p, q := path[..i + 1], path[..j + 1];
    assert Last(p) == path[i] && Last(q) == path[j] && p != q;
    if path[i] == path[j] {
      ChainUnique(menus, p, q);
    }
  }

  lemma ChainDistinct(menus: seq<Menu>, path: seq<int>)
    requires KeysOk(menus) && Chain(menus, path)
    ensures forall i, j | 0 <= i < j < |path| :: path[i] != path[j]
  {
    forall i, j | 0 <= i < j < |path|
      ensures path[i] != path[j]
    {
      ChainPairDistinct(menus, path, i, j);
    }
  }

  function Ids(menus: seq<Menu>): set<int> {
    set k | 0 <= k < |menus| :: menus[k].id
  }

  lemma {:induction false} IdsSize(menus: seq<Menu>)
    ensures |Ids(menus)| <= |menus|
    decreases |menus|
  {
    if |menus| > 0 {
      var n := |menus| - 1;
      IdsSize(menus[..n]);
      assert Ids(menus) == Ids(menus[..n]) + {menus[n].id};
    }
  }

  lemma {:induction false} DistinctFits(path: seq<int>, ids: set<int>)
    requires forall i, j | 0 <= i < j < |path| :: path[i] != path[j]
    requires forall i | 0 <= i < |path| :: path[i] in ids
    ensures |path| <= |ids|
    decreases |path|
  {
    if |path| > 0 {
      var n := |path| - 1;
      DistinctFits(path[..n], ids - {path[n]});
    }
  }

  /** So descending from the root stops: a line of descent has at most as many ids as there are rows. */
  lemma ChainShort(menus: seq<Menu>, path: seq<int>)
    requires KeysOk(menus) && Chain(menus, path)
    ensures |path| <= |menus|
  {
    ChainDistinct(menus, path);
    forall i | 0 <= i < |path|
      ensures path[i] in Ids(menus)
    {
      ChainLink(menus, path, i);
    }
    DistinctFits(path, Ids(menus));
    IdsSize(menus);
  }

  // ---- the forest ----

  /** The nodes made from the first `n` rows under the end of `path`. */
  function Level(menus: seq<Menu>, path: seq<int>, n: nat): seq<Node>
    requires KeysOk(menus) && Chain(menus, path) && n <= |menus|
    decreases |menus| - |path|, n
  {
    if n == 0 then []
    else
      var m := menus[n - 1];
      var before := Level(menus, path, n - 1);
      if m.parent != Last(path) then before
      else
        assert Linked(menus, m.id, Last(path));
        ChainExtend(menus, path, m.id);
        ChainShort(menus, path + [m.id]);
        before + [Node(m, Level(menus, path + [m.id], |menus|))]
  }

  /** _build_tree_recursive. It always returns: `path` is the line of calls above this one. */
  method BuildTreeRecursive(menus: seq<Menu>, parent: int, ghost path: seq<int>) returns (tree: seq<Node>)
    requires KeysOk(menus) && Chain(menus, path) && parent == Last(path)
    ensures tree == Level(menus, path, |menus|)
    decreases |menus| - |path|
  {
    tree := [];
    for i := 0 to |menus|
      invariant tree == Level(menus, path, i)
    {
      var menu := menus[i];
      if menu.parent == parent {
        assert Linked(menus, menu.id, parent);
        ChainExtend(menus, path, menu.id);
        ChainShort(menus, path + [menu.id]);
        var children := BuildTreeRecursive(menus, menu.id, path + [menu.id]);
        tree := tree + [Node(menu, children)];
      }
    }
  }

  method BuildTree(menus: seq<Menu>) returns (tree: seq<Node>)
    requires KeysOk(menus)
    ensures WellPlaced(menus, tree, 0)
    ensures forall id :: Occurrences(tree, id) == if Rooted(menus, id) then 1 else 0
  {
    tree := BuildTreeRecursive(menus, 0, []);
    LevelWellPlaced(menus, [], |menus|);
    assert AllRowsUnder(menus, 0, |menus|) == Tops(tree);
    forall id
      ensures Occurrences(tree, id) == if Rooted(menus, id) then 1 else 0
    {
      OccurrenceIsRooted(menus, id);
    }
  }

  // ---- what the tree looks like ----

  /** The rows under `parent` among the first `n`, in input order. */
  function AllRowsUnder(menus: seq<Menu>, parent: int, n: nat): seq<Menu>
    requires n <= |menus|
  {
    if n == 0 then []
    else AllRowsUnder(menus, parent, n - 1) + if menus[n - 1].parent == parent then [menus[n - 1]] else []
  }

  function Tops(nodes: seq<Node>): seq<Menu> {
    seq(|nodes|, i requires 0 <= i < |nodes| => nodes[i].menu)
  }

  /** Every node's children are exactly the rows naming it as parent, in input order. */
  predicate WellPlaced(menus: seq<Menu>, nodes: seq<Node>, parent: int)
    decreases nodes
  {
    && Tops(nodes) == AllRowsUnder(menus, parent, |menus|)
    && forall i | 0 <= i < |nodes| :: WellPlaced(menus, nodes[i].children, nodes[i].menu.id)
  }

  lemma {:induction false} LevelWellPlaced(menus: seq<Menu>, path: seq<int>, n: nat)
    requires KeysOk(menus) && Chain(menus, path) && n <= |menus|
    ensures var nodes := Level(menus, path, n);
            && Tops(nodes) == AllRowsUnder(menus, Last(path), n)
            && forall i | 0 <= i < |nodes| :: WellPlaced(menus, nodes[i].children, nodes[i].menu.id)
    decreases |menus| - |path|, n
  {
    if n > 0 {
      var m := menus[n - 1];
      LevelWellPlaced(menus, path, n - 1);
      if m.parent == Last(path) {
        assert Linked(menus, m.id, Last(path));
        ChainExtend(menus, path, m.id);
        ChainShort(menus, path + [m.id]);
        LevelWellPlaced(menus, path + [m.id], |menus|);
        var before := Level(menus, path, n - 1);
        var node := Node(m, Level(menus, path + [m.id], |menus|));
        assert Tops(before + [node]) == Tops(before) + [m];
      }
    }
  }

  /** How often an id occurs anywhere in a forest. */
  function Occurrences(nodes: seq<Node>, id: int): nat
    decreases nodes
  {
    if |nodes| == 0 then 0
    else
      var n := nodes[|nodes| - 1];
      Occurrences(nodes[..|nodes| - 1], id) + (if n.menu.id == id then 1 else 0) + Occurrences(n.children, id)
  }

  lemma OccurrencesAppend(nodes: seq<Node>, n: Node, id: int)
    ensures Occurrences(nodes + [n], id)
            == Occurrences(nodes, id) + (if n.menu.id == id then 1 else 0) + Occurrences(n.children, id)
  {
    assert (nodes + [n])[..|nodes|] == nodes;
  }

  lemma IdsTake(menus: seq<Menu>, n: nat)
    requires 0 < n <= |menus|
    ensures Ids(menus[..n]) == Ids(menus[..n - 1]) + {menus[n - 1].id}
  {
    assert forall k | 0 <= k < n - 1 :: menus[..n][k] == menus[..n - 1][k];
    assert menus[..n][n - 1] == menus[n - 1];
  }

  /** A line of descent `line` goes on from `path` through one of the first `n` rows. */
  predicate Through(menus: seq<Menu>, path: seq<int>, n: nat, line: seq<int>)
    requires n <= |menus|
  {
    |path| < |line| && path == line[..|path|] && line[|path|] in Ids(menus[..n])
  }

  /** The end of a line of descent occurs once below each point of that line, and nowhere else. */
  lemma {:induction false} OccursOnLine(menus: seq<Menu>, path: seq<int>, n: nat, line: seq<int>)
    requires KeysOk(menus) && Chain(menus, path) && n <= |menus| && Chain(menus, line) && |line| > 0
    ensures Occurrences(Level(menus, path, n), Last(line)) == if Through(menus, path, n, line) then 1 else 0
    decreases |menus| - |path|, n
  {
    if n > 0 {
      var m := menus[n - 1];
      OccursOnLine(menus, path, n - 1, line);
      ThroughNext(menus, path, n, line);
      if m.parent == Last(path) {
        assert Linked(menus, m.id, Last(path));
        ChainExtend(menus, path, m.id);
        ChainShort(menus, path + [m.id]);
        OccursOnLine(menus, path + [m.id], |menus|, line);
        OccurrencesAppend(Level(menus, path, n - 1), Node(m, Level(menus, path + [m.id], |menus|)), Last(line));
        OneMoreStep(menus, path, m, line);
      }
    }
  }

  predicate Enters(path: seq<int>, id: int, line: seq<int>) {
    |path| < |line| && path == line[..|path|] && line[|path|] == id
  }

  /** Counting in one more row adds the line that enters it, if the row hangs under `path` at all. */
  lemma ThroughNext(menus: seq<Menu>, path: seq<int>, n: nat, line: seq<int>)
    requires KeysOk(menus) && Chain(menus, line) && 0 < n <= |menus|
    ensures var m := menus[n - 1];
            && (Through(menus, path, n, line) <==> Through(menus, path, n - 1, line) || Enters(path, m.id, line))
            && !(Through(menus, path, n - 1, line) && Enters(path, m.id, line))
            && (m.parent != Last(path) ==> !Enters(path, m.id, line))
  {
    IdsTake(menus, n);
    var m := menus[n - 1];
    assert m.id !in Ids(menus[..n - 1]);
    if Enters(path, m.id, line) {
      ChainLink(menus, line, |path|);
    }
  }

  /** Below `path`, through row `m`: either the line ends there or it goes on. */
  lemma OneMoreStep(menus: seq<Menu>, path: seq<int>, m: Menu, line: seq<int>)
    requires KeysOk(menus) && Chain(menus, path + [m.id]) && Chain(menus, line) && |line| > 0
    ensures (if m.id == Last(line) then 1 else 0) + (if Through(menus, path + [m.id], |menus|, line) then 1 else 0)
            == if Enters(path, m.id, line) then 1 else 0
  {
    var longer := path + [m.id];
    if m.id == Last(line) {
      ChainUnique(menus, longer, line);
    }
    assert menus[..|menus|] == menus;
    if |longer| < |line| && longer == line[..|longer|] {
      assert path == longer[..|path|] == line[..|path|];
      assert longer[|path|] == line[|path|];
      ChainLink(menus, line, |longer|);
    }
    if Enters(path, m.id, line) {
      assert line[..|longer|] == longer;
      if |line| == |longer| {
        assert line == longer;
      } else {
        ChainLink(menus, line, |longer|);
      }
    }
  }

  /** What occurs in the tree descends from the root. */
  lemma {:induction false} OccurringIsRooted(menus: seq<Menu>, path: seq<int>, n: nat, id: int)
    requires KeysOk(menus) && Chain(menus, path) && n <= |menus|
    requires Occurrences(Level(menus, path, n), id) > 0
    ensures Rooted(menus, id)
    decreases |menus| - |path|, n
  {
    if n > 0 {
      var m := menus[n - 1];
      if Occurrences(Level(menus, path, n - 1), id) > 0 {
        OccurringIsRooted(menus, path, n - 1, id);
      } else {
        assert Linked(menus, m.id, Last(path));
        ChainExtend(menus, path, m.id);
        ChainShort(menus, path + [m.id]);
        OccurrencesAppend(Level(menus, path, n - 1), Node(m, Level(menus, path + [m.id], |menus|)), id);
        if m.id == id {
          assert Last(path + [m.id]) == id;
        } else {
          OccurringIsRooted(menus, path + [m.id], |menus|, id);
        }
      }
    }
  }

  /** A row occurs exactly once when it descends from the root inside the list, and otherwise never:
      rows on parent cycles, under missing parents, or below either are left out. */
  lemma OccurrenceIsRooted(menus: seq<Menu>, id: int)
    requires KeysOk(menus)
    ensures Occurrences(Level(menus, [], |menus|), id) == if Rooted(menus, id) then 1 else 0
  {
    if Rooted(menus, id) {
      var line :| Chain(menus, line) && |line| > 0 && Last(line) == id;
      OccursOnLine(menus, [], |menus|, line);
      assert menus[..|menus|] == menus && line[..0] == [];
      ChainLink(menus, line, 0);
    } else if Occurrences(Level(menus, [], |menus|), id) > 0 {
      OccurringIsRooted(menus, [], |menus|, id);
    }
  }
}
