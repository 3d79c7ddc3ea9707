/** The union-find of theme discovery: a parent table rewritten in place, with path halving and no ranks. */
module UnionFinding {

  /** Opaque object identifiers. */
  type Node = int

  type Links = set<(Node, Node)>

  // ---------------------------------------------------------------- what the partition must be

  predicate Adjacent(links: Links, a: Node, b: Node) {
    (a, b) in links || (b, a) in links
  }

  predicate IsPath(links: Links, path: seq<Node>, a: Node, b: Node) {
    && |path| > 0 && path[0] == a && path[|path| - 1] == b
    && forall i :: 0 <= i < |path| - 1 ==> Adjacent(links, path[i], path[i + 1])
  }

  ghost predicate Connected(links: Links, a: Node, b: Node) {
    exists path :: IsPath(links, path, a, b)
  }

  lemma ConnectedRefl(links: Links, a: Node)
    ensures Connected(links, a, a)
  {
    assert IsPath(links, [a], a, a);
  }

  lemma ConnectedTrans(links: Links, a: Node, b: Node, c: Node)
    requires Connected(links, a, b) && Connected(links, b, c)
    ensures Connected(links, a, c)
  {
    var p :| IsPath(links, p, a, b);
    var q :| IsPath(links, q, b, c);
    var r := p + q[1..];
    assert forall i :: 0 <= i < |q| - 1 ==> Adjacent(links, q[i], q[i + 1]);
    forall i | 0 <= i < |r| - 1 ensures Adjacent(links, r[i], r[i + 1]) {
      if i >= |p| - 1 {
        assert r[i] == q[i - (|p| - 1)] && r[i + 1] == q[i - (|p| - 1) + 1];
      }
    }
    assert IsPath(links, r, a, c);
  }

  lemma ConnectedSym(links: Links, a: Node, b: Node)
    requires Connected(links, a, b)
    ensures Connected(links, b, a)
  {
    var p :| IsPath(links, p, a, b);
    var r := seq(|p|, i requires 0 <= i < |p| => p[|p| - 1 - i]);
    forall i | 0 <= i < |r| - 1 ensures Adjacent(links, r[i], r[i + 1]) {
      var j := |p| - 2 - i;
      assert Adjacent(links, p[j], p[j + 1]);
    }
    assert IsPath(links, r, b, a);
  }

  lemma ConnectedMore(links: Links, more: Links, a: Node, b: Node)
    requires Connected(links, a, b) && links <= more
    ensures Connected(more, a, b)
  {
    var p :| IsPath(links, p, a, b);
    assert IsPath(more, p, a, b);
  }

  /** A labelling of nodes is the partition into components: linked nodes share a rep, equal labels are connected. */
  ghost predicate Separates(rep: map<Node, Node>, links: Links) {
    && (forall a, b :: (a, b) in links ==> a in rep && b in rep && rep[a] == rep[b])
    && (forall a, b {:trigger Connected(links, a, b)} ::
          a in rep && b in rep && rep[a] == rep[b] ==> Connected(links, a, b))
  }

  lemma {:induction false} LabelAlongPath(rep: map<Node, Node>, links: Links, path: seq<Node>, a: Node, b: Node)
    requires Separates(rep, links) && IsPath(links, path, a, b) && a in rep
    ensures b in rep && rep[a] == rep[b]
    decreases |path|
  {
    if |path| > 1 {
      assert Adjacent(links, path[0], path[1]);
      var rest := path[1..];
      forall i | 0 <= i < |rest| - 1 ensures Adjacent(links, rest[i], rest[i + 1]) {
        assert Adjacent(links, path[i + 1], path[i + 2]);
      }
      LabelAlongPath(rep, links, rest, path[1], b);
    }
  }

  /** Labels decide connectivity, both ways. */
  lemma LabelsDecide(rep: map<Node, Node>, links: Links, a: Node, b: Node)
    requires Separates(rep, links) && a in rep && b in rep
    ensures rep[a] == rep[b] <==> Connected(links, a, b)
  {
    if Connected(links, a, b) {
      var path :| IsPath(links, path, a, b);
      LabelAlongPath(rep, links, path, a, b);
    }
  }

  function Merge(rep: map<Node, Node>, from: Node, into: Node): (merged: map<Node, Node>)
    ensures merged.Keys == rep.Keys
    ensures from == into ==> merged == rep
  {
    map n | n in rep :: if rep[n] == from then into else rep[n]
  }

  lemma MergeSeparates(rep: map<Node, Node>, links: Links, l: Node, r: Node)
    requires Separates(rep, links) && l in rep && r in rep
    ensures Separates(Merge(rep, rep[r], rep[l]), links + {(l, r)})
  {
    var more, merged := links + {(l, r)}, Merge(rep, rep[r], rep[l]);
    assert IsPath(more, [l, r], l, r);
    ConnectedSym(more, l, r);
    forall a, b | a in merged && b in merged && merged[a] == merged[b] ensures Connected(more, a, b) {
      if rep[a] == rep[b] {
        ConnectedMore(links, more, a, b);
      } else if rep[a] == rep[r] {
        ConnectedMore(links, more, a, r);
        ConnectedMore(links, more, l, b);
        ConnectedTrans(more, a, r, l);
        ConnectedTrans(more, a, l, b);
      } else {
        ConnectedMore(links, more, a, l);
        ConnectedMore(links, more, r, b);
        ConnectedTrans(more, a, l, r);
        ConnectedTrans(more, a, r, b);
      }
    }
  }

  lemma NewNodeSeparates(rep: map<Node, Node>, links: Links, n: Node)
    requires Separates(rep, links) && n !in rep
    requires forall k :: k in rep ==> rep[k] != n
    ensures Separates(rep[n := n], links)
  {
    ConnectedRefl(links, n);
  }

  // ---------------------------------------------------------------- the parent table

  /** How one node stands in the table: its parent is nearer its root, which is a fixed point. */
  predicate Placed(parents: map<Node, Node>, root: map<Node, Node>, height: map<Node, nat>, n: Node) {
    && n in parents && n in root && n in height
    && parents[n] in parents && parents[n] in root && parents[n] in height
    && root[n] in parents && parents[root[n]] == root[n]
    && root[parents[n]] == root[n]
    && (parents[n] == n ==> root[n] == n)
    && (parents[n] != n ==> height[parents[n]] < height[n])
  }

  ghost predicate Forest(parents: map<Node, Node>, root: map<Node, Node>, height: map<Node, nat>) {
    && parents.Keys == root.Keys == height.Keys
    && forall n {:trigger Placed(parents, root, height, n)} :: n in parents ==> Placed(parents, root, height, n)
  }

  lemma NewNodeKeepsForest(parents: map<Node, Node>, root: map<Node, Node>, height: map<Node, nat>, n: Node)
    requires Forest(parents, root, height) && n !in parents
    ensures Forest(parents[n := n], root[n := n], height[n := 0])
  {
    var after, rooted, raised := parents[n := n], root[n := n], height[n := 0];
    forall m | m in after ensures Placed(after, rooted, raised, m) {
      assert m in parents ==> Placed(parents, root, height, m);
    }
  }

  /** Pointing a node at its grandparent moves no root. */
  lemma HalvingKeepsForest(parents: map<Node, Node>, root: map<Node, Node>, height: map<Node, nat>, n: Node)
    requires Forest(parents, root, height) && n in parents
    ensures Placed(parents, root, height, n) && Placed(parents, root, height, parents[n])
    ensures Forest(parents[n := parents[parents[n]]], root, height)
  {
    assert Placed(parents, root, height, n);
    assert Placed(parents, root, height, parents[n]);
    var after := parents[n := parents[parents[n]]];
    forall m | m in after ensures Placed(after, root, height, m) {
      assert Placed(parents, root, height, m);
    }
  }

  function Raised(root: map<Node, Node>, height: map<Node, nat>, from: Node, lift: nat): map<Node, nat>
    requires root.Keys == height.Keys
  {
    map n | n in root :: if root[n] == from then height[n] + lift else height[n]
  }

  /** Hanging one root under another redirects exactly its component. */
  lemma JoinKeepsForest(parents: map<Node, Node>, root: map<Node, Node>, height: map<Node, nat>, l: Node, r: Node)
    requires Forest(parents, root, height) && l in parents && r in parents && l != r
    requires parents[l] == l && parents[r] == r
    ensures Forest(parents[r := l], Merge(root, r, l), Raised(root, height, r, height[l] + 1))
  {
    var after, merged, raised := parents[r := l], Merge(root, r, l), Raised(root, height, r, height[l] + 1);
    assert Placed(parents, root, height, l) && Placed(parents, root, height, r);
    forall m | m in after ensures Placed(after, merged, raised, m) {
      assert Placed(parents, root, height, m);
    }
  }

  class UnionFind {
    /** The `parents` dictionary. */
    var parents: map<Node, Node>
    /** The root every node leads to, a bound on the steps to it, and the links united so far. */
    ghost var root: map<Node, Node>
    ghost var height: map<Node, nat>
    ghost var links: Links

    ghost predicate Valid()
      reads this
    {
      Forest(parents, root, height) && Separates(root, links)
    }

    constructor ()
      ensures Valid() && parents == map[] && links == {} && root == map[]
    {
      parents, root, height, links := map[], map[], map[], {};
    }

    /**
     * The root of `node`, entering it first if it is new. The walk shortens the chain it follows and
     * leaves the partition as it was.
     */
    method Find(node: Node) returns (r: Node)
      requires Valid()
      modifies this
      ensures Valid()
      ensures links == old(links)
      ensures root == if node in old(root) then old(root) else old(root)[node := node]
      ensures node in root && r == root[node]
      ensures r in parents && parents[r] == r
    {
      if node !in parents {
        NewNodeKeepsForest(parents, root, height, node);
        assert forall k :: k in root ==> Placed(parents, root, height, k);
        NewNodeSeparates(root, links, node);
        parents, root, height := parents[node := node], root[node := node], height[node := 0];
      }
      ghost var started := root;
      r := node;
      while parents[r] != r
        invariant Forest(parents, root, height) && root == started && links == old(links)
        invariant r in parents && root[r] == root[node]
        decreases height[r]
      {
        HalvingKeepsForest(parents, root, height, r);
        parents := parents[r := parents[parents[r]]];
        r := parents[r];
      }
      assert Placed(parents, root, height, r);
    }

    /** Hang one root under another. */
    method Hang(leftRoot: Node, rightRoot: Node)
      requires Forest(parents, root, height) && leftRoot in parents && rightRoot in parents && leftRoot != rightRoot
      requires parents[leftRoot] == leftRoot && parents[rightRoot] == rightRoot
      modifies this`parents, this`root, this`height
      ensures Forest(parents, root, height)
      ensures parents == old(parents)[rightRoot := leftRoot]
      ensures root == Merge(old(root), rightRoot, leftRoot)
    {
      JoinKeepsForest(parents, root, height, leftRoot, rightRoot);
      height := Raised(root, height, rightRoot, height[leftRoot] + 1);
      root := Merge(root, rightRoot, leftRoot);
      parents := parents[rightRoot := leftRoot];
    }

    /** Record a link between two nodes whose roots are known. */
    method Link(left: Node, right: Node, leftRoot: Node, rightRoot: Node)
      requires Valid() && left in root && right in root && leftRoot == root[left] && rightRoot == root[right]
      requires leftRoot in parents && parents[leftRoot] == leftRoot && rightRoot in parents
               && parents[rightRoot] == rightRoot
      modifies this
      ensures Valid()
      ensures links == old(links) + {(left, right)} && root.Keys == old(root).Keys
    {
      MergeSeparates(root, links, left, right);
      if leftRoot != rightRoot {
        Hang(leftRoot, rightRoot);
      }
      links := links + {(left, right)};
    }

    /** Join the components of two nodes: `left`'s root becomes the root of both. */
    method Union(left: Node, right: Node)
      requires Valid()
      modifies this
      ensures Valid()
      ensures links == old(links) + {(left, right)}
      ensures root.Keys == old(root).Keys + {left, right}
    {
      var leftRoot := Find(left);
      var rightRoot := Find(right);
      assert Placed(parents, root, height, left);
      Link(left, right, leftRoot, rightRoot);
    }
  }
}
