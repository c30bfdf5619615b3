/**
 Trees whose nodes are numbered blocks and whose edges are numbers stored in the blocks:
 the shape shared by ext2 block maps (blocks of 32-bit pointers) and x86-64 page tables
 (frames of 64-bit entries). A node is named by the path of slot indices that leads to it
 from the root, and `0` means "no node here".
 */
module RadixTree {

  /** `child(n, i)` is the number held in slot `i` of node `n`. */
  type Links = (int, nat) -> int

  type Path = seq<nat>

  function Parent(path: Path): (r: Path)
    requires path != []
    ensures |r| == |path| - 1
    ensures r + [Last(path)] == path
  {
    path[..|path| - 1]
  }

  function Last(path: Path): nat
    requires path != []
  {
    path[|path| - 1]
  }

  /** The node that `path` leads to. */
  function Node(child: Links, root: int, path: Path): int
    decreases |path|
  {
    if path == [] then root else
      var p := Node(child, root, Parent(path));
      if p == 0 then 0 else child(p, Last(path))
  }

  ghost predicate PrefixClosed(dom: iset<Path>) {
    [] in dom && forall p :: p in dom && p != [] ==> Parent(p) in dom
  }

  /** Every node hangs from exactly one slot: no number is reached by two paths. */
  ghost predicate Separated(child: Links, root: int, dom: iset<Path>) {
    forall p, q :: p in dom && q in dom && Node(child, root, p) == Node(child, root, q) != 0 ==> p == q
  }

  /** `b` is not a node of the tree. */
  ghost predicate Fresh(child: Links, root: int, dom: iset<Path>, b: int) {
    b != 0 && forall x :: x in dom ==> Node(child, root, x) != b
  }

  /** `child'` is `child` with the empty node `b` hung from slot `i` of the node at `a`. */
  ghost predicate Hangs(child: Links, child': Links, root: int, dom: iset<Path>, a: Path, i: nat, b: int) {
    && child'(Node(child, root, a), i) == b
    && (forall j: nat :: a + [i] + [j] in dom ==> child'(b, j) == 0)
    && (forall x, j: nat :: x in dom && x + [j] in dom && Node(child, root, x) != 0
          && (Node(child, root, x) != Node(child, root, a) || j != i)
          ==> child'(Node(child, root, x), j) == child(Node(child, root, x), j))
  }

  /** Hanging a fresh empty node from an empty slot adds that node and changes no other. */
  lemma {:induction false} HangAt(child: Links, child': Links, root: int, dom: iset<Path>, a: Path, i: nat, b: int,
                                  x: Path)
    requires PrefixClosed(dom) && Separated(child, root, dom) && Fresh(child, root, dom, b)
    requires a in dom && a + [i] in dom && Node(child, root, a) != 0 && Node(child, root, a + [i]) == 0
    requires Hangs(child, child', root, dom, a, i, b)
    requires x in dom
    ensures Node(child', root, x) == if x == a + [i] then b else Node(child, root, x)
    decreases |x|
  {
    assert Parent(a + [i]) == a;
    if x != [] {
      var px, j := Parent(x), Last(x);
      HangAt(child, child', root, dom, a, i, b, px);
      if px == a + [i] {
        assert x == a + [i] + [j];
      } else if Node(child, root, px) != 0 {
        assert px + [j] in dom;
      }
    }
  }

  lemma Hang(child: Links, child': Links, root: int, dom: iset<Path>, a: Path, i: nat, b: int)
    requires PrefixClosed(dom) && Separated(child, root, dom) && Fresh(child, root, dom, b)
    requires a in dom && a + [i] in dom && Node(child, root, a) != 0 && Node(child, root, a + [i]) == 0
    requires Hangs(child, child', root, dom, a, i, b)
    ensures forall x :: x in dom ==> Node(child', root, x) == if x == a + [i] then b else Node(child, root, x)
    ensures Separated(child', root, dom)
  {
    forall x | x in dom ensures Node(child', root, x) == if x == a + [i] then b else Node(child, root, x) {
      HangAt(child, child', root, dom, a, i, b, x);
    }
  }

  /** Stores that leave every slot of every node alone leave the tree alone. */
  lemma {:induction false} SameNode(child: Links, child': Links, root: int, dom: iset<Path>, x: Path)
    requires PrefixClosed(dom) && x in dom
    requires forall y, j: nat :: y in dom && y + [j] in dom && Node(child, root, y) != 0
               ==> child'(Node(child, root, y), j) == child(Node(child, root, y), j)
    ensures Node(child', root, x) == Node(child, root, x)
    decreases |x|
  {
    if x != [] {
      SameNode(child, child', root, dom, Parent(x));
      assert Parent(x) + [Last(x)] in dom;
    }
  }

  lemma SameTree(child: Links, child': Links, root: int, dom: iset<Path>)
    requires PrefixClosed(dom)
    requires forall y, j: nat :: y in dom && y + [j] in dom && Node(child, root, y) != 0
               ==> child'(Node(child, root, y), j) == child(Node(child, root, y), j)
    ensures forall x :: x in dom ==> Node(child', root, x) == Node(child, root, x)
    ensures Separated(child, root, dom) ==> Separated(child', root, dom)
  {
    forall x | x in dom ensures Node(child', root, x) == Node(child, root, x) {
      SameNode(child, child', root, dom, x);
    }
  }
}
