/**
 * The main window's component tree (yapfc/mainWindow.py): the rows of the
 * tree, the pre-order listing of them, the context menu decision table, and
 * the add and remove operations that keep the `components` list beside the
 * tree.
 */
module Editor {
  import opened Writers
  import opened Seqs

  // ---------------------------------------------------------------------------
  // The tree
  // ---------------------------------------------------------------------------

  /** A row of the tree: a category label or a writer. Rows are objects, compared by identity. */
  datatype TreeItem = LabelItem(category: Label) | WriterItem(writer: CcxWriter)

  /** `getTextLabel()` of a row. */
  function TextLabel(item: TreeItem): string
  {
    match item
    case LabelItem(l) => l.GetTextLabel()
    case WriterItem(w) => w.GetTextLabel()
  }

  /** A row with the rows below it, in row order. */
  datatype Node = Node(item: TreeItem, children: seq<Node>)

  /** A row's position: its row number at the top level, then in each row below. */
  type Path = seq<nat>

  /** The exceptions the window's operations can raise. */
  datatype Error = UnboundLocalError | ValueError | AttributeError

  datatype Outcome = Pass | Fail(error: Error)

  datatype Option<T> = None | Some(value: T)

  datatype Result<T> = Success(value: T) | Failure(error: Error)

  // ---------------------------------------------------------------------------
  // The pre-order listing of a forest
  // ---------------------------------------------------------------------------

  /** Every row of a forest, each directly followed by the rows below it. */
  function Flatten(f: seq<Node>): seq<TreeItem>
  {
    if f == [] then [] else [f[0].item] + Flatten(f[0].children) + Flatten(f[1..])
  }

  lemma {:induction false} FlattenConcat(a: seq<Node>, b: seq<Node>)
    ensures Flatten(a + b) == Flatten(a) + Flatten(b)
  {
    if a == [] {
      assert a + b == b;
    } else {
      assert (a + b)[0] == a[0];
      assert (a + b)[1..] == a[1..] + b;
      FlattenConcat(a[1..], b);
    }
  }

  /** Where the `i`th tree of a forest starts in the forest's listing. */
  function Offset(f: seq<Node>, i: nat): nat
    requires i <= |f|
  {
    |Flatten(f[..i])|
  }

  /** The listing of a forest is its trees' listings one after another. */
  lemma {:induction false} FlattenAround(f: seq<Node>, i: nat)
    requires i < |f|
    ensures Flatten(f) == Flatten(f[..i]) + [f[i].item] + Flatten(f[i].children) + Flatten(f[i + 1..])
    ensures Offset(f, i + 1) == Offset(f, i) + 1 + |Flatten(f[i].children)|
  {
    assert f == f[..i] + ([f[i]] + f[i + 1..]);
    FlattenConcat(f[..i], [f[i]] + f[i + 1..]);
    assert ([f[i]] + f[i + 1..])[1..] == f[i + 1..];
    assert f[..i + 1] == f[..i] + [f[i]];
    FlattenConcat(f[..i], [f[i]]);
    assert [f[i]][1..] == [];
  }

  /** One more tree of the forest adds its row and the rows below it to the listing. */
  lemma FlattenPrefixStep(f: seq<Node>, i: nat)
    requires i < |f|
    ensures Flatten(f[..i + 1]) == Flatten(f[..i]) + [f[i].item] + Flatten(f[i].children)
  {
    assert f[..i + 1] == f[..i] + [f[i]];
    FlattenConcat(f[..i], [f[i]]);
    FlattenSingle(f[i]);
  }

  /** Tree starts move forward with the tree number. */
  lemma {:induction false} OffsetMonotone(f: seq<Node>, i: nat, j: nat)
    requires i <= j <= |f|
    ensures Offset(f, i) <= Offset(f, j)
  {
    assert f[..j] == f[..i] + f[i..j];
    FlattenConcat(f[..i], f[i..j]);
  }

  // ---------------------------------------------------------------------------
  // Paths
  // ---------------------------------------------------------------------------

  predicate ValidPath(f: seq<Node>, p: Path)
    decreases p
  {
    |p| > 0 && p[0] < |f| && (|p| > 1 ==> ValidPath(f[p[0]].children, p[1..]))
  }

  /** The tree rooted at the row a path leads to. */
  function At(f: seq<Node>, p: Path): Node
    requires ValidPath(f, p)
    decreases p
  {
    if |p| == 1 then f[p[0]] else At(f[p[0]].children, p[1..])
  }

  /** Where the row a path leads to sits in the forest's listing. */
  function Pos(f: seq<Node>, p: Path): nat
    requires ValidPath(f, p)
    decreases p
  {
    Offset(f, p[0]) + if |p| == 1 then 0 else 1 + Pos(f[p[0]].children, p[1..])
  }

  /** A row lies inside its top-level tree's stretch of the listing, and the listing shows it there. */
  lemma {:induction false} PosAt(f: seq<Node>, p: Path)
    requires ValidPath(f, p)
    ensures Offset(f, p[0]) <= Pos(f, p) < Offset(f, p[0] + 1)
    ensures Pos(f, p) < |Flatten(f)| && Flatten(f)[Pos(f, p)] == At(f, p).item
    decreases p
  {
    var i := p[0];
    FlattenAround(f, i);
    if |p| > 1 {
      PosAt(f[i].children, p[1..]);
    }
  }

  /** The tree whose stretch of the listing holds position `k`. */
  function TreeIndex(f: seq<Node>, k: nat, i: nat): (r: nat)
    requires i < |f| && Offset(f, i) <= k < |Flatten(f)|
    ensures i <= r < |f| && Offset(f, r) <= k < Offset(f, r + 1)
    decreases |f| - i
  {
    FlattenAround(f, i);
    assert f[..|f|] == f;
    if k < Offset(f, i + 1) then i else TreeIndex(f, k, i + 1)
  }

  /** The stretches of the listing do not overlap: a position has one tree. */
  lemma {:induction false} TreeIndexUnique(f: seq<Node>, k: nat, i: nat, j: nat)
    requires i < |f| && j < |f|
    requires Offset(f, i) <= k < Offset(f, i + 1)
    requires Offset(f, j) <= k < Offset(f, j + 1)
    ensures i == j
  {
    if i < j {
      OffsetMonotone(f, i + 1, j);
    } else if j < i {
      OffsetMonotone(f, j + 1, i);
    }
  }

  /** The path of the row listed at position `k`. */
  function PathOf(f: seq<Node>, k: nat): (p: Path)
    requires k < |Flatten(f)|
    ensures |p| > 0
    decreases |Flatten(f)|
  {
    assert f != [];
    assert Offset(f, 0) == 0 by { assert f[..0] == []; }
    var i := TreeIndex(f, k, 0);
    FlattenAround(f, i);
    if k == Offset(f, i) then [i]
    else [i] + PathOf(f[i].children, k - Offset(f, i) - 1)
  }

  /** The path of position `k` starts with the tree whose stretch holds `k`. */
  lemma PathOfStep(f: seq<Node>, k: nat, i: nat)
    requires i < |f| && Offset(f, i) <= k < Offset(f, i + 1)
    ensures k < |Flatten(f)| && |Flatten(f[i].children)| < |Flatten(f)|
    ensures k == Offset(f, i) ==> PathOf(f, k) == [i]
    ensures k != Offset(f, i) ==>
      (k - Offset(f, i) - 1 < |Flatten(f[i].children)| &&
       PathOf(f, k) == [i] + PathOf(f[i].children, k - Offset(f, i) - 1))
  {
    FlattenAround(f, i);
    assert f[..0] == [];
    TreeIndexUnique(f, k, TreeIndex(f, k, 0), i);
  }

  /** Every position of the listing is the position of a row. */
  lemma {:induction false} PathOfPos(f: seq<Node>, k: nat)
    requires k < |Flatten(f)|
    ensures ValidPath(f, PathOf(f, k)) && Pos(f, PathOf(f, k)) == k
    decreases |Flatten(f)|
  {
    assert f != [];
    assert f[..0] == [];
    var i := TreeIndex(f, k, 0);
    PathOfStep(f, k, i);
    if k != Offset(f, i) {
      var k' := k - Offset(f, i) - 1;
      PathOfPos(f[i].children, k');
      assert PathOf(f, k)[1..] == PathOf(f[i].children, k');
    }
  }

  /** A row's position lies in its top-level tree's stretch of the listing. */
  lemma PosInStretch(f: seq<Node>, p: Path)
    requires ValidPath(f, p)
    ensures Offset(f, p[0]) <= Pos(f, p) < Offset(f, p[0] + 1)
  {
    PosAt(f, p);
  }

  /** Every row has its own position: the path can be read back from it. */
  lemma {:induction false} PosPathOf(f: seq<Node>, p: Path)
    requires ValidPath(f, p)
    ensures Pos(f, p) < |Flatten(f)|
    ensures PathOf(f, Pos(f, p)) == p
    decreases p
  {
    var i, k := p[0], Pos(f, p);
    PosInStretch(f, p);
    PathOfStep(f, k, i);
    if |p| == 1 {
      assert k == Offset(f, i) && p == [i];
    } else {
      var rest := p[1..];
      PosPathOf(f[i].children, rest);
      assert k - Offset(f, i) - 1 == Pos(f[i].children, rest);
      assert PathOf(f[i].children, k - Offset(f, i) - 1) == rest;
      assert PathOf(f, k) == [i] + rest;
      assert p == [i] + rest;
    }
  }

  /**
   * The order of the listing: a row comes before the rows below it, and
   * before every row of a later sibling's tree.
   */
  predicate ListedBefore(p: Path, q: Path)
    decreases p
  {
    |p| > 0 && |q| > 0 &&
    (p[0] < q[0] ||
     (p[0] == q[0] && |q| > 1 && (|p| == 1 || ListedBefore(p[1..], q[1..]))))
  }

  lemma {:induction false} ListedBeforePos(f: seq<Node>, p: Path, q: Path)
    requires ValidPath(f, p) && ValidPath(f, q) && ListedBefore(p, q)
    ensures Pos(f, p) < Pos(f, q)
    decreases p
  {
    PosAt(f, p);
    PosAt(f, q);
    if p[0] < q[0] {
      OffsetMonotone(f, p[0] + 1, q[0]);
    } else if |p| > 1 {
      ListedBeforePos(f[p[0]].children, p[1..], q[1..]);
    }
  }

  /**
   * The listing is the pre-order of the forest: it shows each row exactly
   * once, at the row's position, and in the order `ListedBefore`.
   */
  lemma PreOrder(f: seq<Node>)
    ensures forall p :: ValidPath(f, p) ==> Pos(f, p) < |Flatten(f)| && Flatten(f)[Pos(f, p)] == At(f, p).item
    ensures forall k :: 0 <= k < |Flatten(f)| ==> ValidPath(f, PathOf(f, k)) && Pos(f, PathOf(f, k)) == k
    ensures forall p, q :: ValidPath(f, p) && ValidPath(f, q) && Pos(f, p) == Pos(f, q) ==> p == q
    ensures forall p, q :: ValidPath(f, p) && ValidPath(f, q) && ListedBefore(p, q) ==> Pos(f, p) < Pos(f, q)
  {
    forall p | ValidPath(f, p)
      ensures Pos(f, p) < |Flatten(f)| && Flatten(f)[Pos(f, p)] == At(f, p).item
    {
      PosAt(f, p);
    }
    forall k | 0 <= k < |Flatten(f)|
      ensures ValidPath(f, PathOf(f, k)) && Pos(f, PathOf(f, k)) == k
    {
      PathOfPos(f, k);
    }
    forall p, q | ValidPath(f, p) && ValidPath(f, q) && Pos(f, p) == Pos(f, q)
      ensures p == q
    {
      PosPathOf(f, p);
      PosPathOf(f, q);
    }
    forall p, q | ValidPath(f, p) && ValidPath(f, q) && ListedBefore(p, q)
      ensures Pos(f, p) < Pos(f, q)
    {
      ListedBeforePos(f, p, q);
    }
  }

  // ---------------------------------------------------------------------------
  // list_children and list_model_children
  // ---------------------------------------------------------------------------

  /** `list_children`: every row below `n`, in pre-order. */
  method ListChildren(n: Node) returns (children: seq<TreeItem>)
    ensures children == Flatten(n.children)
    decreases n, 0
  {
    children := ListForest(n.children);
  }

  /** `list_model_children`: every row of the model, in pre-order. */
  method ListModelChildren(model: seq<Node>) returns (children: seq<TreeItem>)
    ensures children == Flatten(model)
  {
    children := ListForest(model);
  }

  /** The loop both listings share: each row, then the rows below it. */
  method ListForest(f: seq<Node>) returns (children: seq<TreeItem>)
    ensures children == Flatten(f)
    decreases f, 1
  {
    children := [];
    var row := 0;
    while row < |f|
      invariant 0 <= row <= |f|
      invariant children == Flatten(f[..row])
    {
      var child := f[row];
      var below := ListChildren(child);
      FlattenPrefixStep(f, row);
      children := children + [child.item] + below;
      row := row + 1;
    }
    assert f[..row] == f;
  }

  // ---------------------------------------------------------------------------
  // Appending and removing rows
  // ---------------------------------------------------------------------------

  /** `appendRow` on the row at `p`: `n` becomes its new last child. */
  function AppendChildAt(f: seq<Node>, p: Path, n: Node): seq<Node>
    requires ValidPath(f, p)
    decreases p
  {
    var t := f[p[0]];
    if |p| == 1 then f[p[0] := Node(t.item, t.children + [n])]
    else f[p[0] := Node(t.item, AppendChildAt(t.children, p[1..], n))]
  }

  /** `removeRow` on the parent of the row at `p` (or on the model for a top-level row). */
  function RemoveAt(f: seq<Node>, p: Path): seq<Node>
    requires ValidPath(f, p)
    decreases p
  {
    var t := f[p[0]];
    if |p| == 1 then f[..p[0]] + f[p[0] + 1..]
    else f[p[0] := Node(t.item, RemoveAt(t.children, p[1..]))]
  }

  lemma FlattenSingle(n: Node)
    ensures Flatten([n]) == [n.item] + Flatten(n.children)
  {
    assert [n][1..] == [];
  }

  /** A forest of childless rows lists just those rows, in order. */
  lemma {:induction false} LeafListing(f: seq<Node>)
    requires forall i :: 0 <= i < |f| ==> f[i].children == []
    ensures |Flatten(f)| == |f|
    ensures forall i :: 0 <= i < |f| ==> Flatten(f)[i] == f[i].item
  {
    if f != [] {
      LeafListing(f[1..]);
    }
  }

  /** Replacing one tree of a forest replaces its stretch of the listing. */
  lemma FlattenUpdate(f: seq<Node>, i: nat, t: Node)
    requires i < |f|
    ensures Flatten(f[i := t]) == Flatten(f[..i]) + [t.item] + Flatten(t.children) + Flatten(f[i + 1..])
  {
    var g := f[i := t];
    FlattenAround(g, i);
    assert g[..i] == f[..i];
    assert g[i + 1..] == f[i + 1..];
  }

  /**
   * Appending a row adds it as the last child of the row at `p`, keeps every
   * row where it was, and adds exactly the new tree's rows to the listing.
   */
  lemma {:induction false} AppendChildAtSpec(f: seq<Node>, p: Path, n: Node)
    requires ValidPath(f, p)
    ensures ValidPath(AppendChildAt(f, p, n), p)
    ensures At(AppendChildAt(f, p, n), p).item == At(f, p).item
    ensures At(AppendChildAt(f, p, n), p).children == At(f, p).children + [n]
    ensures multiset(Flatten(AppendChildAt(f, p, n))) == multiset(Flatten(f)) + multiset(Flatten([n]))
    decreases p
  {
    var i := p[0];
    var t := f[i];
    var r := AppendChildAt(f, p, n);
    FlattenAround(f, i);
    FlattenUpdate(f, i, r[i]);
    if |p| == 1 {
      FlattenConcat(t.children, [n]);
    } else {
      AppendChildAtSpec(t.children, p[1..], n);
    }
    MultisetStretch(Flatten(f[..i]), t.item, Flatten(r[i].children), Flatten(t.children),
      Flatten(f[i + 1..]), multiset(Flatten([n])));
  }

  /** Rows already in the tree keep their paths when a row is appended. */
  lemma {:induction false} AppendKeepsPaths(f: seq<Node>, p: Path, n: Node, q: Path)
    requires ValidPath(f, p) && ValidPath(f, q)
    ensures ValidPath(AppendChildAt(f, p, n), q)
    ensures At(AppendChildAt(f, p, n), q).item == At(f, q).item
    decreases p
  {
    if |q| > 1 && |p| > 1 && p[0] == q[0] {
      AppendKeepsPaths(f[p[0]].children, p[1..], n, q[1..]);
    } else if |q| > 1 && |p| == 1 && p[0] == q[0] {
      AppendKeepsPrefix(f[p[0]].children, n, q[1..]);
    }
  }

  lemma {:induction false} AppendKeepsPrefix(f: seq<Node>, n: Node, q: Path)
    requires ValidPath(f, q)
    ensures ValidPath(f + [n], q) && At(f + [n], q) == At(f, q)
  {
    assert (f + [n])[q[0]] == f[q[0]];
  }

  /** Removing the row at `p` takes exactly its tree's rows out of the listing. */
  lemma {:induction false} RemoveAtSpec(f: seq<Node>, p: Path)
    requires ValidPath(f, p)
    ensures multiset(Flatten(f)) == multiset(Flatten(RemoveAt(f, p))) + multiset(Flatten([At(f, p)]))
    decreases p
  {
    var i := p[0];
    var t := f[i];
    var r := RemoveAt(f, p);
    if |p| == 1 {
      RemoveTreeSpec(f, i);
    } else {
      FlattenAround(f, i);
      FlattenSingle(t);
      FlattenUpdate(f, i, r[i]);
      RemoveAtSpec(t.children, p[1..]);
      MultisetStretch(Flatten(f[..i]), t.item, Flatten(t.children), Flatten(r[i].children),
        Flatten(f[i + 1..]), multiset(Flatten([At(f, p)])));
    }
  }

  /** Dropping a whole tree from a forest takes exactly its rows out of the listing. */
  lemma RemoveTreeSpec(f: seq<Node>, i: nat)
    requires i < |f|
    ensures multiset(Flatten(f)) == multiset(Flatten(f[..i] + f[i + 1..])) + multiset(Flatten([f[i]]))
  {
    FlattenAround(f, i);
    FlattenSingle(f[i]);
    FlattenConcat(f[..i], f[i + 1..]);
  }

  /** Removing rows from the listing below one tree removes them from the whole listing. */
  lemma MultisetStretch<T>(before: seq<T>, x: T, old_below: seq<T>, new_below: seq<T>, after: seq<T>, removed: multiset<T>)
    requires multiset(old_below) == multiset(new_below) + removed
    ensures multiset(before + [x] + old_below + after) == multiset(before + [x] + new_below + after) + removed
  {
  }

  /** Removing a row that has a parent takes it out of the parent's children and changes nothing else there. */
  lemma {:induction false} RemoveAtParent(f: seq<Node>, p: Path)
    requires ValidPath(f, p) && |p| > 1
    ensures ValidPath(f, p[..|p| - 1])
    ensures ValidPath(RemoveAt(f, p), p[..|p| - 1])
    ensures var parent := At(f, p[..|p| - 1]);
      var j := p[|p| - 1];
      j < |parent.children| &&
      At(RemoveAt(f, p), p[..|p| - 1]) == Node(parent.item, parent.children[..j] + parent.children[j + 1..])
    decreases p
  {
    if |p| > 2 {
      RemoveAtParent(f[p[0]].children, p[1..]);
      assert p[1..][..|p| - 2] == p[..|p| - 1][1..];
    } else {
      assert p[1..] == [p[1]];
    }
  }

  // ---------------------------------------------------------------------------
  // The shape the window keeps: only boundaries below writers
  // ---------------------------------------------------------------------------

  predicate IsBoundary(x: TreeItem)
  {
    x.WriterItem? && x.writer.kind == Boundary
  }

  ghost predicate AllBoundaries(items: seq<TreeItem>)
  {
    forall x :: x in items ==> IsBoundary(x)
  }

  /** Categories hold writers; the only rows below a writer are boundaries (added below steps). */
  ghost predicate BoundariesBelowWriters(f: seq<Node>)
  {
    forall i :: 0 <= i < |f| ==>
      (f[i].item.WriterItem? ==> AllBoundaries(Flatten(f[i].children))) &&
      BoundariesBelowWriters(f[i].children)
  }

  lemma {:induction false} BoundariesBelowAt(f: seq<Node>, p: Path)
    requires ValidPath(f, p) && BoundariesBelowWriters(f)
    ensures BoundariesBelowWriters(At(f, p).children)
    ensures At(f, p).item.WriterItem? ==> AllBoundaries(Flatten(At(f, p).children))
    decreases p
  {
    if |p| > 1 {
      BoundariesBelowAt(f[p[0]].children, p[1..]);
    }
  }

  /** A forest keeps the shape when one of its trees is replaced by a tree that has it. */
  lemma ReplaceKeepsShape(f: seq<Node>, i: nat, t: Node)
    requires i < |f| && BoundariesBelowWriters(f)
    requires t.item.WriterItem? ==> AllBoundaries(Flatten(t.children))
    requires BoundariesBelowWriters(t.children)
    ensures BoundariesBelowWriters(f[i := t])
  {
    assert forall j :: 0 <= j < |f| && j != i ==> f[i := t][j] == f[j];
  }

  /** A childless row appended at the end of a forest keeps the shape. */
  lemma AppendLeafShape(c: seq<Node>, n: Node)
    requires BoundariesBelowWriters(c) && n.children == []
    ensures BoundariesBelowWriters(c + [n])
  {
    assert forall j :: 0 <= j < |c| ==> (c + [n])[j] == c[j];
    assert (c + [n])[|c|] == n;
  }

  /** Adding one boundary to a listing of boundaries keeps it a listing of boundaries. */
  lemma AddBoundaryToListing(before: seq<TreeItem>, after: seq<TreeItem>, x: TreeItem)
    requires multiset(after) == multiset(before) + multiset{x}
    requires AllBoundaries(before) && IsBoundary(x)
    ensures AllBoundaries(after)
  {
    forall y | y in after
      ensures IsBoundary(y)
    {
      assert y in multiset(after);
      if y != x {
        assert y in multiset(before);
      }
    }
  }

  /**
   * Appending a childless row keeps the shape when the parent is a category
   * or the new row is a boundary.
   */
  lemma {:induction false} AppendKeepsShape(f: seq<Node>, p: Path, n: Node)
    requires ValidPath(f, p) && BoundariesBelowWriters(f)
    requires n.children == []
    requires At(f, p).item.LabelItem? || IsBoundary(n.item)
    ensures BoundariesBelowWriters(AppendChildAt(f, p, n))
    decreases p
  {
    var i := p[0];
    var t := f[i];
    var r := AppendChildAt(f, p, n);
    AppendChildAtSpec(f, p, n);
    FlattenSingle(n);
    assert multiset(Flatten([n])) == multiset{n.item};
    assert multiset(Flatten(r[i].children)) == multiset(Flatten(t.children)) + multiset{n.item} by {
      if |p| == 1 {
        FlattenConcat(t.children, [n]);
      } else {
        AppendChildAtSpec(t.children, p[1..], n);
      }
    }
    assert BoundariesBelowWriters(r[i].children) by {
      if |p| == 1 {
        AppendLeafShape(t.children, n);
      } else {
        AppendKeepsShape(t.children, p[1..], n);
      }
    }
    if t.item.WriterItem? {
      assert IsBoundary(n.item) by {
        if |p| > 1 {
          PosAt(t.children, p[1..]);
          assert At(t.children, p[1..]).item in Flatten(t.children);
        }
      }
      AddBoundaryToListing(Flatten(t.children), Flatten(r[i].children), n.item);
    }
    ReplaceKeepsShape(f, i, r[i]);
  }

  /** Removing a row keeps the shape. */
  lemma {:induction false} RemoveKeepsShape(f: seq<Node>, p: Path)
    requires ValidPath(f, p) && BoundariesBelowWriters(f)
    ensures BoundariesBelowWriters(RemoveAt(f, p))
    decreases p
  {
    var i := p[0];
    var t := f[i];
    var r := RemoveAt(f, p);
    if |p| == 1 {
      RemoveTreeShape(f, i);
    } else {
      RemoveKeepsShape(t.children, p[1..]);
      RemoveAtSpec(t.children, p[1..]);
      if t.item.WriterItem? {
        FewerBoundaries(Flatten(t.children), Flatten(r[i].children), multiset(Flatten([At(t.children, p[1..])])));
      }
      ReplaceKeepsShape(f, i, r[i]);
    }
  }

  /** Dropping a whole tree from a forest keeps the shape. */
  lemma RemoveTreeShape(f: seq<Node>, i: nat)
    requires i < |f| && BoundariesBelowWriters(f)
    ensures BoundariesBelowWriters(f[..i] + f[i + 1..])
  {
    var r := f[..i] + f[i + 1..];
    assert forall j :: 0 <= j < |r| ==> r[j] == if j < i then f[j] else f[j + 1];
  }

  /** Part of a listing of boundaries is a listing of boundaries. */
  lemma FewerBoundaries(before: seq<TreeItem>, after: seq<TreeItem>, removed: multiset<TreeItem>)
    requires multiset(before) == multiset(after) + removed
    requires AllBoundaries(before)
    ensures AllBoundaries(after)
  {
    forall x | x in after
      ensures IsBoundary(x)
    {
      assert x in multiset(after);
      assert x in multiset(before);
    }
  }

  // ---------------------------------------------------------------------------
  // The context menu and the add-item dispatch
  // ---------------------------------------------------------------------------

  /** The categories below "Model", in the order the window appends them. */
  const ModelCategories: seq<string> :=
    ["Meshes", "Materials", "Sections", "Constraints", "Contacts", "Amplitudes", "Initial Conditions", "Steps"]

  /** The menu entries of the window's context menu. */
  datatype Action = AddItemAction | AddBoundaryAction | RemoveItemAction | RunAnalysisAction

  /**
   * The writer class `addItem` builds below a row with this label; no match
   * leaves the new row unbound.
   */
  function KindFor(category: string): Option<WriterKind>
  {
    match category
    case "Meshes" => Some(Mesh)
    case "Materials" => Some(Material)
    case "Sections" => Some(Section)
    case "Constraints" => Some(Constraint)
    case "Contacts" => Some(Contact)
    case "Amplitudes" => Some(Amplitude)
    case "Initial Conditions" => Some(InitialCondition)
    case "Steps" => Some(Step)
    case "Analyses" => Some(Analysis)
    case _ => None
  }

  /** The entries of the context menu for a row with this label, in menu order. */
  function MenuActions(textLabel: string): seq<Action>
  {
    match textLabel
    case "Meshes" => [AddItemAction]
    case "Materials" => [AddItemAction]
    case "Sections" => [AddItemAction]
    case "Contacts" => [AddItemAction]
    case "Initial Conditions" => [AddItemAction]
    case "Steps" => [AddItemAction]
    case "Analyses" => [AddItemAction]
    case "Mesh" => [RemoveItemAction]
    case "Material" => [RemoveItemAction]
    case "Section" => [RemoveItemAction]
    case "Contact" => [RemoveItemAction]
    case "Initial Condition" => [RemoveItemAction]
    case "Step" => [RemoveItemAction, AddBoundaryAction]
    case "Analysis" => [RemoveItemAction, RunAnalysisAction]
    case _ => []
  }

  /**
   * `addItem` builds a writer exactly below the eight model categories and
   * "Analyses"; it never builds a base writer or a boundary, and it builds an
   * analysis only below "Analyses".
   */
  lemma DispatchTable(category: string)
    ensures KindFor(category).Some? <==> category in ModelCategories || category == "Analyses"
    ensures KindFor(category).Some? ==> KindFor(category).value !in {Base, Boundary}
    ensures KindFor(category) == Some(Analysis) <==> category == "Analyses"
  {
  }

  /**
   * Which rows get which menu entries: "Add Item" on seven categories (not on
   * "Constraints" or "Amplitudes"), "Remove Item" on seven writer labels,
   * "Add Boundary" on "Step" and "Run Analysis" on "Analysis"; at most two
   * entries, and "Add Item" only where `addItem` has a writer class to build.
   */
  lemma MenuTable(textLabel: string)
    ensures AddItemAction in MenuActions(textLabel) <==>
      textLabel in {"Meshes", "Materials", "Sections", "Contacts", "Initial Conditions", "Steps", "Analyses"}
    ensures RemoveItemAction in MenuActions(textLabel) <==>
      textLabel in {"Mesh", "Material", "Section", "Contact", "Initial Condition", "Step", "Analysis"}
    ensures AddBoundaryAction in MenuActions(textLabel) <==> textLabel == "Step"
    ensures RunAnalysisAction in MenuActions(textLabel) <==> textLabel == "Analysis"
    ensures AddItemAction in MenuActions(textLabel) ==> KindFor(textLabel).Some?
    ensures |MenuActions(textLabel)| <= 2
  {
  }

  /**
   * The menus of writer rows: "Remove Item" for six kinds, with "Add
   * Boundary" on steps and "Run Analysis" on analyses. An initial-condition
   * writer is labelled "InitialCondition", not "Initial Condition", and gets
   * no menu; constraint, amplitude, boundary and base writers get none either.
   * No writer row offers "Add Item", and none is a category `addItem` knows.
   */
  lemma WriterMenu(kind: WriterKind)
    ensures RemoveItemAction in MenuActions(ExpectedLabel(kind)) <==>
      kind in {Mesh, Material, Section, Contact, Step, Analysis}
    ensures MenuActions(ExpectedLabel(kind)) == [] <==>
      kind in {Base, Constraint, Amplitude, InitialCondition, Boundary}
    ensures AddBoundaryAction in MenuActions(ExpectedLabel(kind)) <==> kind == Step
    ensures RunAnalysisAction in MenuActions(ExpectedLabel(kind)) <==> kind == Analysis
    ensures AddItemAction !in MenuActions(ExpectedLabel(kind))
  {
    var menu := MenuActions(ExpectedLabel(kind));
    match kind
    case Base =>
      assert ExpectedLabel(kind) == "CcxWriter'>";
      assert menu == [];
    case Mesh =>
      assert ExpectedLabel(kind) == "Mesh";
      assert menu == [RemoveItemAction];
    case Material =>
      assert ExpectedLabel(kind) == "Material";
      assert menu == [RemoveItemAction];
    case Section =>
      assert ExpectedLabel(kind) == "Section";
      assert menu == [RemoveItemAction];
    case Constraint =>
      assert ExpectedLabel(kind) == "Constraint";
      assert menu == [];
    case Contact =>
      assert ExpectedLabel(kind) == "Contact";
      assert menu == [RemoveItemAction];
    case Amplitude =>
      assert ExpectedLabel(kind) == "Amplitude";
      assert menu == [];
    case InitialCondition =>
      assert ExpectedLabel(kind) == "InitialCondition";
      assert menu == [];
    case Step =>
      assert ExpectedLabel(kind) == "Step";
      assert menu == [RemoveItemAction, AddBoundaryAction];
    case Boundary =>
      assert ExpectedLabel(kind) == "Boundary";
      assert menu == [];
    case Analysis =>
      assert ExpectedLabel(kind) == "Analysis";
      assert menu == [RemoveItemAction, RunAnalysisAction];
  }

  /** No writer class's label is a category `addItem` builds below. */
  lemma WriterLabelIsNoCategory(kind: WriterKind)
    ensures KindFor(ExpectedLabel(kind)) == None
  {
  }

  /** A writer row is never a category `addItem` builds below. */
  lemma WriterRowIsNoCategory(item: TreeItem)
    ensures item.WriterItem? ==> KindFor(TextLabel(item)) == None
  {
    if item.WriterItem? {
      assert TextLabel(item) == ExpectedLabel(item.writer.kind);
      WriterLabelIsNoCategory(item.writer.kind);
    }
  }

  /** The default name `addBoundary` proposes: "Boundary" and the parent's row count in decimal. */
  function BoundaryName(rowCount: nat): string
  {
    "Boundary" + Decimal(rowCount)
  }

  predicate IsDigits(s: string)
  {
    forall i :: 0 <= i < |s| ==> '0' <= s[i] <= '9'
  }

  /** `str` of a non-negative int: its decimal digits, without leading zeros. */
  function Decimal(n: nat): (s: string)
    ensures |s| > 0 && IsDigits(s)
    ensures s[0] == '0' ==> n == 0
  {
    if n < 10 then [(48 + n) as char] else Decimal(n / 10) + [(48 + n % 10) as char]
  }

  /** The number a string of decimal digits denotes. */
  function DigitsValue(s: string): nat
    requires IsDigits(s)
  {
    if s == [] then 0
    else
      DigitsValue(s[..|s| - 1]) * 10 + (s[|s| - 1] as int - 48)
  }

  lemma {:induction false} DecimalRoundTrip(n: nat)
    ensures DigitsValue(Decimal(n)) == n
  {
    if n >= 10 {
      DecimalRoundTrip(n / 10);
      var s := Decimal(n);
      assert s[..|s| - 1] == Decimal(n / 10);
    }
  }

  // ---------------------------------------------------------------------------
  // The components list
  // ---------------------------------------------------------------------------

  /** `list.remove`: the first occurrence of `x` is taken out. */
  function RemoveFirst<T(==)>(s: seq<T>, x: T): (r: seq<T>)
    requires x in s
    ensures |r| == |s| - 1
    ensures multiset(r) == multiset(s) - multiset{x}
    ensures r == s[..IndexOf(s, x)] + s[IndexOf(s, x) + 1..]
  {
    var i := IndexOf(s, x);
    assert s == s[..i] + [x] + s[i + 1..];
    s[..i] + s[i + 1..]
  }

  /** Taking `x` out of a list without duplicates leaves a list without duplicates that lacks `x`. */
  lemma RemoveFirstDistinct<T>(s: seq<T>, x: T)
    requires x in s && Distinct(s)
    ensures Distinct(RemoveFirst(s, x))
    ensures x !in RemoveFirst(s, x)
    ensures forall y :: y in RemoveFirst(s, x) ==> y in s
    ensures forall y :: y in s && y != x ==> y in RemoveFirst(s, x)
  {
    var i := IndexOf(s, x);
    var r := RemoveFirst(s, x);
    assert r == s[..i] + s[i + 1..];
    assert forall k :: 0 <= k < |r| ==> r[k] == if k < i then s[k] else s[k + 1];
  }

  // ---------------------------------------------------------------------------
  // The main window
  // ---------------------------------------------------------------------------

  /** The writers `addItem` records in `components`: every kind it builds except analyses. */
  predicate IsComponent(x: TreeItem)
  {
    x.WriterItem? && x.writer.kind !in {Base, Analysis, Boundary}
  }

  /**
   * The window's invariant: `components` keeps in step with the tree. It
   * holds, each once, exactly the component writers that are rows of the
   * tree; every row is in the tree once (an item has one place in a Qt
   * model); and only boundaries sit below writers.
   */
  ghost predicate WindowInvariant(tree: seq<Node>, components: seq<TreeItem>)
  {
    && Distinct(components)
    && (forall x :: x in components ==> IsComponent(x) && x in Flatten(tree))
    && Distinct(Flatten(tree))
    && (forall x :: x in Flatten(tree) && IsComponent(x) ==> x in components)
    && BoundariesBelowWriters(tree)
  }

  /**
   * Appending a new childless row keeps the invariant when the parent is a
   * category or the row is a boundary, and the row joins the components
   * exactly when it is one.
   */
  lemma AppendKeepsInvariant(tree: seq<Node>, components: seq<TreeItem>, p: Path, n: Node, added: seq<TreeItem>)
    requires WindowInvariant(tree, components) && ValidPath(tree, p)
    requires n.children == [] && n.item !in Flatten(tree)
    requires At(tree, p).item.LabelItem? || IsBoundary(n.item)
    requires added == if IsComponent(n.item) then [n.item] else []
    ensures WindowInvariant(AppendChildAt(tree, p, n), components + added)
  {
    AppendKeepsShape(tree, p, n);
    var r := AppendChildAt(tree, p, n);
    AppendListing(tree, p, n);
    DistinctGrows(Flatten(tree), Flatten(r), n.item);
    ComponentsFollowAppend(Flatten(tree), Flatten(r), components, n.item, added);
  }

  /**
   * When the listing gains one new row, `components` stays in step with it
   * by gaining that row exactly when it is a component.
   */
  lemma ComponentsFollowAppend(listing: seq<TreeItem>, grown: seq<TreeItem>, components: seq<TreeItem>,
                               x: TreeItem, added: seq<TreeItem>)
    requires Distinct(components) && x !in listing
    requires forall y :: y in components ==> IsComponent(y) && y in listing
    requires forall y :: y in listing && IsComponent(y) ==> y in components
    requires forall y :: y in grown <==> y in listing || y == x
    requires added == if IsComponent(x) then [x] else []
    ensures Distinct(components + added)
    ensures forall y :: y in components + added ==> IsComponent(y) && y in grown
    ensures forall y :: y in grown && IsComponent(y) ==> y in components + added
  {
    if added == [] {
      assert components + added == components;
    } else {
      DistinctAppend(components, x);
    }
  }

  /**
   * Removing a writer's row keeps the invariant, whether or not the writer
   * was a component: the rows below it are boundaries, which never are, and
   * it was the only place the writer had.
   */
  lemma RemoveKeepsInvariant(tree: seq<Node>, components: seq<TreeItem>, p: Path)
    requires WindowInvariant(tree, components) && ValidPath(tree, p)
    requires At(tree, p).item.WriterItem?
    ensures var item := At(tree, p).item;
      WindowInvariant(RemoveAt(tree, p), if item in components then RemoveFirst(components, item) else components)
  {
    var item := At(tree, p).item;
    var c := if item in components then RemoveFirst(components, item) else components;
    if item in components {
      RemoveFirstDistinct(components, item);
    }
    RemoveKeepsShape(tree, p);
    BoundariesBelowAt(tree, p);
    RemoveListing(tree, p);
    forall x | x in c
      ensures IsComponent(x) && x in Flatten(RemoveAt(tree, p))
    {
      assert x in components && x != item;
      assert !IsBoundary(x);
    }
    forall x | x in Flatten(RemoveAt(tree, p)) && IsComponent(x)
      ensures x in c
    {
      assert x in components && x != item;
    }
  }

  /**
   * After removing a row, the listing still holds every row outside the
   * removed tree and no new one; when every row had one place, every row
   * still has, and the removed row is gone.
   */
  lemma RemoveListing(tree: seq<Node>, p: Path)
    requires ValidPath(tree, p)
    ensures forall x :: x in Flatten(tree) && x != At(tree, p).item && x !in Flatten(At(tree, p).children) ==>
      x in Flatten(RemoveAt(tree, p))
    ensures forall x :: x in Flatten(RemoveAt(tree, p)) ==> x in Flatten(tree)
    ensures Distinct(Flatten(tree)) ==>
      Distinct(Flatten(RemoveAt(tree, p))) && At(tree, p).item !in Flatten(RemoveAt(tree, p))
  {
    var r := RemoveAt(tree, p);
    RemoveAtSpec(tree, p);
    FlattenSingle(At(tree, p));
    MultisetShrinks(Flatten(tree), Flatten(r), Flatten([At(tree, p)]));
    if Distinct(Flatten(tree)) {
      DistinctShrinks(Flatten(tree), Flatten(r), Flatten([At(tree, p)]));
    }
  }

  /** After appending a childless row, the listing holds it, every row it held before, and nothing else. */
  lemma AppendListing(tree: seq<Node>, p: Path, n: Node)
    requires ValidPath(tree, p) && n.children == []
    ensures multiset(Flatten(AppendChildAt(tree, p, n))) == multiset(Flatten(tree)) + multiset{n.item}
    ensures forall x :: x in Flatten(tree) ==> x in Flatten(AppendChildAt(tree, p, n))
    ensures n.item in Flatten(AppendChildAt(tree, p, n))
    ensures forall x :: x in Flatten(AppendChildAt(tree, p, n)) ==> x in Flatten(tree) || x == n.item
  {
    AppendChildAtSpec(tree, p, n);
    FlattenSingle(n);
    assert Flatten([n]) == [n.item];
    MultisetGrows(Flatten(tree), Flatten(AppendChildAt(tree, p, n)), Flatten([n]));
  }

  /** A writer allocated after the rows of a forest is none of its rows. */
  twostate lemma {:induction false} FreshNotListed(f: seq<Node>, new w: CcxWriter)
    requires fresh(w)
    ensures WriterItem(w) !in Flatten(f)
  {
    if f != [] {
      FreshNotListed(f[0].children, w);
      FreshNotListed(f[1..], w);
    }
  }

  /** The last child of the row at `p`: where `appendRow` puts a new row. */
  function LastChild(f: seq<Node>, p: Path): Node
    requires ValidPath(f, p) && At(f, p).children != []
  {
    var c := At(f, p).children;
    c[|c| - 1]
  }

  /**
   * `after` is `before` with a new childless writer row of `kind`, named
   * `text`, appended as the last child of the row at `p`.
   */
  ghost predicate AppendedWriter(before: seq<Node>, after: seq<Node>, p: Path, kind: WriterKind, text: string)
  {
    && ValidPath(before, p) && ValidPath(after, p) && At(after, p).children != []
    && var n := LastChild(after, p);
    && n.children == [] && n.item.WriterItem?
    && n.item.writer.kind == kind && n.item.writer.text == text
    && after == AppendChildAt(before, p, n)
  }

  lemma AppendWriterRow(before: seq<Node>, p: Path, w: CcxWriter)
    requires ValidPath(before, p)
    ensures var after := AppendChildAt(before, p, Node(WriterItem(w), []));
      AppendedWriter(before, after, p, w.kind, w.text) && LastChild(after, p).item.writer == w
  {
    AppendChildAtSpec(before, p, Node(WriterItem(w), []));
  }

  /**
   * Appending a new writer below a category keeps the window's invariant,
   * with the writer joining the components unless it is an analysis.
   */
  lemma AppendItemRow(tree: seq<Node>, components: seq<TreeItem>, p: Path, w: CcxWriter, added: seq<TreeItem>)
    requires ValidPath(tree, p) && KindFor(TextLabel(At(tree, p).item)) == Some(w.kind)
    requires WriterItem(w) !in Flatten(tree)
    requires added == if w.kind == Analysis then [] else [WriterItem(w)]
    ensures var after := AppendChildAt(tree, p, Node(WriterItem(w), []));
      && AppendedWriter(tree, after, p, w.kind, w.text)
      && LastChild(after, p).item.writer == w
      && (WindowInvariant(tree, components) ==> WindowInvariant(after, components + added))
  {
    AppendWriterRow(tree, p, w);
    if WindowInvariant(tree, components) {
      WriterRowIsNoCategory(At(tree, p).item);
      DispatchTable(TextLabel(At(tree, p).item));
      AppendKeepsInvariant(tree, components, p, Node(WriterItem(w), []), added);
    }
  }

  /** Appending a new boundary row keeps the window's invariant. */
  lemma AppendBoundaryRow(tree: seq<Node>, components: seq<TreeItem>, p: Path, w: CcxWriter)
    requires ValidPath(tree, p) && w.kind == Boundary && WriterItem(w) !in Flatten(tree)
    ensures var after := AppendChildAt(tree, p, Node(WriterItem(w), []));
      && AppendedWriter(tree, after, p, Boundary, w.text)
      && LastChild(after, p).item.writer == w
      && (WindowInvariant(tree, components) ==> WindowInvariant(after, components))
  {
    AppendWriterRow(tree, p, w);
    if WindowInvariant(tree, components) {
      AppendKeepsInvariant(tree, components, p, Node(WriterItem(w), []), []);
      assert components + [] == components;
    }
  }

  /** Childless rows for the given labels, in order. */
  function Leaves(labels: seq<Label>): (f: seq<Node>)
    ensures |f| == |labels|
    ensures forall i :: 0 <= i < |f| ==> f[i].item == LabelItem(labels[i]) && f[i].children == []
  {
    seq(|labels|, i requires 0 <= i < |labels| => Node(LabelItem(labels[i]), []))
  }

  /** The tree the window starts with: "Model" over its categories, then "Analyses". */
  function InitialTree(modelItem: Label, categories: seq<Label>, analyses: Label): seq<Node>
  {
    [Node(LabelItem(modelItem), Leaves(categories)), Node(LabelItem(analyses), [])]
  }

  /**
   * The starting tree lists its labels in order, one row each, so with
   * distinct labels it satisfies the invariant with no components.
   */
  lemma InitialInvariant(modelItem: Label, categories: seq<Label>, analyses: Label)
    requires Distinct([modelItem] + categories + [analyses])
    ensures Flatten(InitialTree(modelItem, categories, analyses))
      == seq(|categories| + 2, i requires 0 <= i < |categories| + 2 =>
             LabelItem(([modelItem] + categories + [analyses])[i]))
    ensures WindowInvariant(InitialTree(modelItem, categories, analyses), [])
  {
    var labels := [modelItem] + categories + [analyses];
    var t := InitialTree(modelItem, categories, analyses);
    LeafListing(t[0].children);
    assert t == [t[0]] + [t[1]];
    FlattenConcat([t[0]], [t[1]]);
    FlattenSingle(t[0]);
    FlattenSingle(t[1]);
    var rows := Flatten(t);
    assert |rows| == |labels|;
    assert forall i :: 0 <= i < |rows| ==> rows[i] == LabelItem(labels[i]);
    assert BoundariesBelowWriters(t[0].children);
  }

  class MainWindow {
    /** The rows of the item model. */
    var tree: seq<Node>
    /** The writers added through "Add Item", in the order they were added. */
    var components: seq<TreeItem>

    ghost predicate Valid()
      reads this
    {
      WindowInvariant(tree, components)
    }

    /**
     * The initial tree: "Model" with the eight categories below it in order,
     * then "Analyses"; no components.
     */
    constructor ()
      ensures Valid() && components == []
      ensures |tree| == 2
      ensures TextLabel(tree[0].item) == "Model" && |tree[0].children| == |ModelCategories|
      ensures forall i :: 0 <= i < |ModelCategories| ==>
        TextLabel(tree[0].children[i].item) == ModelCategories[i] && tree[0].children[i].children == []
      ensures TextLabel(tree[1].item) == "Analyses" && tree[1].children == []
    {
      var modelItem := new Label("Model");
      var meshes := new Label("Meshes");
      var materials := new Label("Materials");
      var sections := new Label("Sections");
      var constraints := new Label("Constraints");
      var contacts := new Label("Contacts");
      var amplitudes := new Label("Amplitudes");
      var initialConditions := new Label("Initial Conditions");
      var steps := new Label("Steps");
      var analyses := new Label("Analyses");
      var categories := [meshes, materials, sections, constraints, contacts, amplitudes, initialConditions, steps];
      InitialInvariant(modelItem, categories, analyses);
      tree := InitialTree(modelItem, categories, analyses);
      components := [];
    }

    /**
     * `open_context_menu`: the menu for the selected row. With no selection
     * the window reads `self.root_item`, which it never sets.
     */
    function ContextMenu(selection: Option<Path>): (r: Result<seq<Action>>)
      reads this
      requires selection.Some? ==> ValidPath(tree, selection.value)
      ensures r.Failure? <==> selection.None?
      ensures r.Failure? ==> r.error == AttributeError
      ensures r.Success? ==> r.value == MenuActions(TextLabel(At(tree, selection.value).item))
    {
      match selection
      case None => Failure(AttributeError)
      case Some(p) => Success(MenuActions(TextLabel(At(tree, p).item)))
    }

    /**
     * `addItem` on the row at `p`, given what the name dialog returned. A
     * cancelled dialog or an empty name changes nothing; a row whose label is
     * not a category raises before anything changes; otherwise a new writer
     * of the category's kind becomes the row's last child and, unless it is an
     * analysis, the last component.
     */
    method AddItem(p: Path, ok: bool, text: string) returns (outcome: Outcome)
      requires ValidPath(tree, p)
      modifies this
      ensures var kind := KindFor(TextLabel(At(old(tree), p).item));
        if !ok || text == "" then
          outcome == Pass && tree == old(tree) && components == old(components)
        else if kind.None? then
          outcome == Fail(UnboundLocalError) && tree == old(tree) && components == old(components)
        else
          && outcome == Pass
          && AppendedWriter(old(tree), tree, p, kind.value, text)
          && var w := LastChild(tree, p).item.writer;
          && fresh(w) && w.storedText == Template(kind.value)
          && components == old(components) + (if kind.value == Analysis then [] else [WriterItem(w)])
      ensures old(Valid()) ==> Valid()
    {
      var parentClass := TextLabel(At(tree, p).item);
      if ok && text != "" {
        var kind := KindFor(parentClass);
        if kind.None? {
          return Fail(UnboundLocalError);
        }
        var w := new CcxWriter(kind.value, text);
        FreshNotListed(tree, w);
        var added := if kind.value == Analysis then [] else [WriterItem(w)];
        AppendItemRow(tree, components, p, w, added);
        tree := AppendChildAt(tree, p, Node(WriterItem(w), []));
        components := components + added;
      }
      outcome := Pass;
    }

    /**
     * `addBoundary` on the row at `p`: proposes "Boundary" and the row's
     * child count as the name; unless the dialog is cancelled or the name is
     * empty, a new boundary writer becomes the row's last child. Components
     * are left alone.
     */
    method AddBoundary(p: Path, ok: bool, text: string) returns (proposed: string)
      requires ValidPath(tree, p)
      modifies this
      ensures proposed == BoundaryName(|At(old(tree), p).children|)
      ensures components == old(components)
      ensures if !ok || text == "" then tree == old(tree) else
        && AppendedWriter(old(tree), tree, p, Boundary, text)
        && var w := LastChild(tree, p).item.writer;
        && fresh(w) && w.storedText == Template(Boundary)
      ensures old(Valid()) ==> Valid()
    {
      proposed := BoundaryName(|At(tree, p).children|);
      if ok && text != "" {
        var w := new CcxWriter(Boundary, text);
        FreshNotListed(tree, w);
        AppendBoundaryRow(tree, components, p, w);
        tree := AppendChildAt(tree, p, Node(WriterItem(w), []));
      }
    }

    /**
     * `removeItem` on the row at `p`: the row and the rows below it leave the
     * tree, then the row is taken out of `components`, which raises when it is
     * not there. While the window's invariant holds that is exactly when the
     * row is not a component (a category, an analysis or a boundary).
     */
    method RemoveItem(p: Path) returns (outcome: Outcome)
      requires ValidPath(tree, p)
      modifies this
      ensures tree == RemoveAt(old(tree), p)
      ensures var item := At(old(tree), p).item;
        if item in old(components) then
          outcome == Pass && components == RemoveFirst(old(components), item)
        else
          outcome == Fail(ValueError) && components == old(components)
      ensures old(Valid()) ==> (outcome == Pass <==> IsComponent(At(old(tree), p).item))
      ensures old(Valid()) && At(old(tree), p).item.WriterItem? ==> Valid()
    {
      var item := At(tree, p).item;
      if Valid() {
        PosAt(tree, p);
        if item.WriterItem? {
          RemoveKeepsInvariant(tree, components, p);
        }
      }
      tree := RemoveAt(tree, p);
      if item in components {
        components := RemoveFirst(components, item);
        outcome := Pass;
      } else {
        outcome := Fail(ValueError);
      }
    }
  }
}
