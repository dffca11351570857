/**
 * The abstract portfolio tree shared by both heap representations (the
 * array-of-20-slots node of Main.c and luis.c, and the left/right node of
 * src/luis.c and src/Gabriel.c): node data, the subtree sum that
 * calcular_total_no caches in valor_total, paths into the tree, and the
 * first pre-order match that buscar_no returns.
 */
module PortfolioSpec {

  datatype Option<T> = None | Some(value: T)

  /** RAIZ = 0, CATEGORIA = 1 and ATIVO = 2 in the C sources. */
  datatype Kind = Root | Category | Asset

  /**
   * One node: nome, tipo, percentual_alvo, valor_investido, the cached
   * valor_total, and the children in slot (or left-then-right) order.
   */
  datatype Tree = Tree(name: string, kind: Kind, target: real, invested: real, total: real, children: seq<Tree>)

  // ---------------------------------------------------------------------
  // Sums
  // ---------------------------------------------------------------------

  /** Sum of a sequence, adding from the left as the C loops do. */
  function Sum(xs: seq<real>): real
  {
    if xs == [] then 0.0 else Sum(xs[..|xs| - 1]) + xs[|xs| - 1]
  }

  lemma {:induction false} SumAppend(xs: seq<real>, ys: seq<real>)
    ensures Sum(xs + ys) == Sum(xs) + Sum(ys)
    decreases |ys|
  {
    if ys == [] {
      assert xs + ys == xs;
    } else {
      var n := |ys| - 1;
      assert (xs + ys)[..|xs + ys| - 1] == xs + ys[..n];
      SumAppend(xs, ys[..n]);
    }
  }

  lemma SumSingle(x: real)
    ensures Sum([x]) == x
  {
    assert [x][..0] == [];
  }

  /** Adding the elements left to right, as the C loops do, reaches the same sum. */
  lemma SumPrefixStep(xs: seq<real>, i: nat)
    requires i < |xs|
    ensures Sum(xs[..i + 1]) == Sum(xs[..i]) + xs[i]
  {
    assert xs[..i + 1][..i] == xs[..i];
  }

  /** Replacing one element changes the sum by the difference. */
  lemma {:induction false} SumUpdate(xs: seq<real>, i: nat, y: real)
    requires i < |xs|
    ensures Sum(xs[i := y]) == Sum(xs) - xs[i] + y
  {
    assert xs == xs[..i] + [xs[i]] + xs[i + 1..];
    assert xs[i := y] == xs[..i] + [y] + xs[i + 1..];
    SumAppend(xs[..i] + [xs[i]], xs[i + 1..]);
    SumAppend(xs[..i], [xs[i]]);
    SumAppend(xs[..i] + [y], xs[i + 1..]);
    SumAppend(xs[..i], [y]);
    SumSingle(xs[i]);
    SumSingle(y);
  }

  /** Deleting one element lowers the sum by that element. */
  lemma {:induction false} SumRemove(xs: seq<real>, j: nat)
    requires j < |xs|
    ensures Sum(xs[..j] + xs[j + 1..]) == Sum(xs) - xs[j]
  {
    assert xs == xs[..j] + [xs[j]] + xs[j + 1..];
    SumAppend(xs[..j] + [xs[j]], xs[j + 1..]);
    SumAppend(xs[..j], [xs[j]]);
    SumAppend(xs[..j], xs[j + 1..]);
    SumSingle(xs[j]);
  }

  /** Pointwise addition: the sum grows by the sum of the increments. */
  lemma {:induction false} SumPlus(xs: seq<real>, ds: seq<real>, ys: seq<real>)
    requires |xs| == |ds| == |ys|
    requires forall i :: 0 <= i < |ys| ==> ys[i] == xs[i] + ds[i]
    ensures Sum(ys) == Sum(xs) + Sum(ds)
    decreases |ys|
  {
    if ys != [] {
      var n := |ys| - 1;
      SumPlus(xs[..n], ds[..n], ys[..n]);
    }
  }

  /** Sums over equal-length sequences that agree pointwise are equal. */
  lemma {:induction false} SumExt(xs: seq<real>, ys: seq<real>)
    requires |xs| == |ys|
    requires forall i :: 0 <= i < |xs| ==> xs[i] == ys[i]
    ensures Sum(xs) == Sum(ys)
  {
    assert xs == ys;
  }

  // ---------------------------------------------------------------------
  // Subtree sums and the valor_total cache
  // ---------------------------------------------------------------------

  /** The subtree sums of t's children, in order. */
  function ChildSums(t: Tree): seq<real>
    decreases t, 0
  {
    seq(|t.children|, i requires 0 <= i < |t.children| => SubtreeSum(t.children[i]))
  }

  /** Sum of valor_investido over every node of the subtree. */
  function SubtreeSum(t: Tree): real
    decreases t, 1
  {
    t.invested + Sum(ChildSums(t))
  }

  /** The cached totals of a sequence of nodes. */
  function Totals(cs: seq<Tree>): seq<real>
  {
    seq(|cs|, i requires 0 <= i < |cs| => cs[i].total)
  }

  /** Every cached total equals own value plus the children's cached totals. */
  predicate TotalsOk(t: Tree)
    decreases t
  {
    && t.total == t.invested + Sum(Totals(t.children))
    && forall i :: 0 <= i < |t.children| ==> TotalsOk(t.children[i])
  }

  /** What calcular_total_no leaves in the tree: every total set to its subtree sum. */
  function Recompute(t: Tree): Tree
    decreases t
  {
    Tree(t.name, t.kind, t.target, t.invested, SubtreeSum(t),
         seq(|t.children|, i requires 0 <= i < |t.children| => Recompute(t.children[i])))
  }

  /** The tree with every cached total cleared: everything the cache is derived from. */
  function Data(t: Tree): Tree
    decreases t
  {
    Tree(t.name, t.kind, t.target, t.invested, 0.0,
         seq(|t.children|, i requires 0 <= i < |t.children| => Data(t.children[i])))
  }

  /** A consistent cache holds the subtree sum. */
  lemma {:induction false} TotalsOkSum(t: Tree)
    requires TotalsOk(t)
    ensures t.total == SubtreeSum(t)
    decreases t
  {
    forall i | 0 <= i < |t.children|
      ensures Totals(t.children)[i] == ChildSums(t)[i]
    {
      TotalsOkSum(t.children[i]);
    }
    SumExt(Totals(t.children), ChildSums(t));
  }

  /** Recomputing changes only totals, so the subtree sum is the same. */
  lemma {:induction false} RecomputeSum(t: Tree)
    ensures SubtreeSum(Recompute(t)) == SubtreeSum(t)
    decreases t
  {
    var r := Recompute(t);
    forall i | 0 <= i < |t.children|
      ensures ChildSums(r)[i] == ChildSums(t)[i]
    {
      RecomputeSum(t.children[i]);
    }
    SumExt(ChildSums(r), ChildSums(t));
  }

  /** After recomputing, every node's total is consistent and the root holds the subtree sum. */
  lemma {:induction false} RecomputeConsistent(t: Tree)
    ensures TotalsOk(Recompute(t))
    ensures Recompute(t).total == SubtreeSum(t)
    decreases t
  {
    var r := Recompute(t);
    forall i | 0 <= i < |t.children|
      ensures TotalsOk(r.children[i])
      ensures Totals(r.children)[i] == ChildSums(t)[i]
    {
      RecomputeConsistent(t.children[i]);
    }
    assert Totals(r.children) == ChildSums(t);
  }

  /** A tree whose cache is consistent is a fixpoint of recomputation. */
  lemma {:induction false} TotalsOkFixpoint(t: Tree)
    requires TotalsOk(t)
    ensures Recompute(t) == t
    decreases t
  {
    forall i | 0 <= i < |t.children|
      ensures Recompute(t.children[i]) == t.children[i]
    {
      TotalsOkFixpoint(t.children[i]);
    }
    TotalsOkSum(t);
    assert Recompute(t).children == t.children;
  }

  /** Recomputing twice with no change in between gives the same tree. */
  lemma RecomputeIdempotent(t: Tree)
    ensures Recompute(Recompute(t)) == Recompute(t)
  {
    RecomputeConsistent(t);
    TotalsOkFixpoint(Recompute(t));
  }

  /** Recomputation writes only the cached totals. */
  lemma {:induction false} RecomputeKeepsData(t: Tree)
    ensures Data(Recompute(t)) == Data(t)
    decreases t
  {
    forall i | 0 <= i < |t.children|
      ensures Data(Recompute(t.children[i])) == Data(t.children[i])
    {
      RecomputeKeepsData(t.children[i]);
    }
  }

  /** Recomputation depends only on the data, not on stale totals. */
  lemma {:induction false} RecomputeOfData(a: Tree, b: Tree)
    requires Data(a) == Data(b)
    ensures Recompute(a) == Recompute(b)
    decreases a
  {
    assert |a.children| == |Data(a).children|;
    forall i | 0 <= i < |a.children|
      ensures Recompute(a.children[i]) == Recompute(b.children[i])
      ensures SubtreeSum(a.children[i]) == SubtreeSum(b.children[i])
    {
      assert Data(a).children[i] == Data(a.children[i]);
      assert Data(b).children[i] == Data(b.children[i]);
      RecomputeOfData(a.children[i], b.children[i]);
      RecomputeSum(a.children[i]);
      RecomputeSum(b.children[i]);
    }
    SumExt(ChildSums(a), ChildSums(b));
  }

  // ---------------------------------------------------------------------
  // Paths
  // ---------------------------------------------------------------------

  /** p is a sequence of child indices leading from t to a node of t. */
  predicate ValidPath(t: Tree, p: seq<nat>)
    decreases p
  {
    p == [] || (p[0] < |t.children| && ValidPath(t.children[p[0]], p[1..]))
  }

  function SubtreeAt(t: Tree, p: seq<nat>): Tree
    requires ValidPath(t, p)
    decreases p
  {
    if p == [] then t else SubtreeAt(t.children[p[0]], p[1..])
  }

  /** t with the node at p replaced by s. */
  function ReplaceAt(t: Tree, p: seq<nat>, s: Tree): Tree
    requires ValidPath(t, p)
    decreases p
  {
    if p == [] then s
    else t.(children := t.children[p[0] := ReplaceAt(t.children[p[0]], p[1..], s)])
  }

  /** t with valor_investido of the node at p set to v. */
  function SetInvestedAt(t: Tree, p: seq<nat>, v: real): Tree
    requires ValidPath(t, p)
  {
    ReplaceAt(t, p, SubtreeAt(t, p).(invested := v))
  }

  /** Setting a value one level down is setting it in that child. */
  lemma SetInvestedAtCons(t: Tree, i: nat, q: seq<nat>, v: real)
    requires i < |t.children| && ValidPath(t.children[i], q)
    ensures ValidPath(t, [i] + q)
    ensures SetInvestedAt(t, [i] + q, v) == t.(children := t.children[i := SetInvestedAt(t.children[i], q, v)])
  {
    assert ([i] + q)[0] == i && ([i] + q)[1..] == q;
  }

  /** Replacing a node changes the subtree sum of the whole tree by the difference. */
  lemma {:induction false} ReplaceAtSum(t: Tree, p: seq<nat>, s: Tree)
    requires ValidPath(t, p)
    ensures SubtreeSum(ReplaceAt(t, p, s)) == SubtreeSum(t) - SubtreeSum(SubtreeAt(t, p)) + SubtreeSum(s)
    decreases p
  {
    if p != [] {
      var i := p[0];
      var c := t.children[i];
      var r := ReplaceAt(t, p, s);
      ReplaceAtSum(c, p[1..], s);
      assert ChildSums(r) == ChildSums(t)[i := SubtreeSum(ReplaceAt(c, p[1..], s))];
      SumUpdate(ChildSums(t), i, SubtreeSum(ReplaceAt(c, p[1..], s)));
    }
  }

  /** A market update of one node moves the total by exactly new minus old. */
  lemma SetInvestedSum(t: Tree, p: seq<nat>, v: real)
    requires ValidPath(t, p)
    ensures SubtreeSum(SetInvestedAt(t, p, v)) == SubtreeSum(t) - SubtreeAt(t, p).invested + v
  {
    var s := SubtreeAt(t, p);
    ReplaceAtSum(t, p, s.(invested := v));
    assert ChildSums(s.(invested := v)) == ChildSums(s);
  }

  lemma {:induction false} ReplaceAtPath(t: Tree, p: seq<nat>, s: Tree)
    requires ValidPath(t, p)
    ensures ValidPath(ReplaceAt(t, p, s), p) && SubtreeAt(ReplaceAt(t, p, s), p) == s
    decreases p
  {
    if p != [] {
      ReplaceAtPath(t.children[p[0]], p[1..], s);
    }
  }

  // ---------------------------------------------------------------------
  // Name lookup: buscar_no
  // ---------------------------------------------------------------------

  /** Pre-order search: the node itself, then each child in order; the path of the first match. */
  function FindPath(t: Tree, key: string): (r: Option<seq<nat>>)
    ensures r.Some? ==> ValidPath(t, r.value) && SubtreeAt(t, r.value).name == key
    decreases t, 1
  {
    if t.name == key then Some([]) else FindInChildren(t, key, 0)
  }

  /** The search loop over children i, i+1, ... of t. */
  function FindInChildren(t: Tree, key: string, i: nat): (r: Option<seq<nat>>)
    requires i <= |t.children|
    ensures r.Some? ==> r.value != [] && ValidPath(t, r.value) && SubtreeAt(t, r.value).name == key
    decreases t, 0, |t.children| - i
  {
    if i == |t.children| then None
    else match FindPath(t.children[i], key)
      case Some(p) => assert ([i] + p)[1..] == p; Some([i] + p)
      case None => FindInChildren(t, key, i + 1)
  }

  /** One step of the scan over the children. */
  lemma FindInChildrenStep(t: Tree, key: string, i: nat)
    requires i < |t.children|
    ensures FindPath(t.children[i], key).None? ==> FindInChildren(t, key, i) == FindInChildren(t, key, i + 1)
    ensures FindPath(t.children[i], key).Some? ==> FindInChildren(t, key, i) == Some([i] + FindPath(t.children[i], key).value)
  {
  }

  /** Reference definition: the nodes of t listed in pre-order. */
  function Preorder(t: Tree): seq<Tree>
    decreases t, 1
  {
    [t] + PreorderFrom(t, 0)
  }

  function PreorderFrom(t: Tree, i: nat): seq<Tree>
    requires i <= |t.children|
    decreases t, 0, |t.children| - i
  {
    if i == |t.children| then [] else Preorder(t.children[i]) + PreorderFrom(t, i + 1)
  }

  /** The first node of a list with the given name. */
  function FirstNamed(xs: seq<Tree>, key: string): Option<Tree>
  {
    if xs == [] then None else if xs[0].name == key then Some(xs[0]) else FirstNamed(xs[1..], key)
  }

  lemma {:induction false} FirstNamedAppend(xs: seq<Tree>, ys: seq<Tree>, key: string)
    ensures FirstNamed(xs + ys, key) == if FirstNamed(xs, key).Some? then FirstNamed(xs, key) else FirstNamed(ys, key)
  {
    if xs != [] {
      assert (xs + ys)[1..] == xs[1..] + ys;
      FirstNamedAppend(xs[1..], ys, key);
    } else {
      assert xs + ys == ys;
    }
  }

  /** FirstNamed finds nothing exactly when no element has the name, and otherwise a named element. */
  lemma {:induction false} FirstNamedSpec(xs: seq<Tree>, key: string)
    ensures FirstNamed(xs, key).None? <==> forall i :: 0 <= i < |xs| ==> xs[i].name != key
    ensures FirstNamed(xs, key).Some? ==> FirstNamed(xs, key).value in xs && FirstNamed(xs, key).value.name == key
  {
    if xs != [] {
      FirstNamedSpec(xs[1..], key);
      if xs[0].name != key {
        forall i | 0 <= i < |xs| && FirstNamed(xs[1..], key).None?
          ensures xs[i].name != key
        {
          if i > 0 { assert xs[i] == xs[1..][i - 1]; }
        }
      }
    }
  }

  /**
   * buscar_no's result is the first node in pre-order whose name is the key,
   * and there is none exactly when no node of the tree has that name.
   */
  lemma {:induction false} FindPathIsFirstInPreorder(t: Tree, key: string)
    ensures FindPath(t, key).None? <==> FirstNamed(Preorder(t), key).None?
    ensures FindPath(t, key).Some? ==>
              ValidPath(t, FindPath(t, key).value) &&
              FirstNamed(Preorder(t), key) == Some(SubtreeAt(t, FindPath(t, key).value))
    decreases t, 1
  {
    FirstNamedAppend([t], PreorderFrom(t, 0), key);
    assert FirstNamed([t], key) == if t.name == key then Some(t) else FirstNamed([t][1..], key);
    assert [t][1..] == [];
    if t.name != key {
      FindInChildrenIsFirst(t, key, 0);
    }
  }

  lemma {:induction false} FindInChildrenIsFirst(t: Tree, key: string, i: nat)
    requires i <= |t.children|
    ensures FindInChildren(t, key, i).None? <==> FirstNamed(PreorderFrom(t, i), key).None?
    ensures FindInChildren(t, key, i).Some? ==>
              var p := FindInChildren(t, key, i).value;
              p != [] && ValidPath(t, p) &&
              FirstNamed(PreorderFrom(t, i), key) == Some(SubtreeAt(t, p))
    decreases t, 0, |t.children| - i
  {
    if i < |t.children| {
      var c := t.children[i];
      FindPathIsFirstInPreorder(c, key);
      FirstNamedAppend(Preorder(c), PreorderFrom(t, i + 1), key);
      FindInChildrenIsFirst(t, key, i + 1);
      match FindPath(c, key)
      case Some(q) =>
        var p := [i] + q;
        assert p[0] == i && p[1..] == q;
      case None =>
    }
  }

  /** A found path leads to a node carrying the key. */
  lemma FindPathFindsName(t: Tree, key: string)
    ensures FindPath(t, key).Some? ==>
              ValidPath(t, FindPath(t, key).value) && SubtreeAt(t, FindPath(t, key).value).name == key
  {
    FindPathIsFirstInPreorder(t, key);
    FirstNamedSpec(Preorder(t), key);
  }

  /** No match exactly when no node in pre-order carries the key. */
  lemma FindPathNone(t: Tree, key: string)
    ensures FindPath(t, key).None? <==> forall i :: 0 <= i < |Preorder(t)| ==> Preorder(t)[i].name != key
  {
    FindPathIsFirstInPreorder(t, key);
    FirstNamedSpec(Preorder(t), key);
  }

  // ---------------------------------------------------------------------
  // Shape: names, kinds and child counts, which is all that lookup reads
  // ---------------------------------------------------------------------

  predicate SameShape(a: Tree, b: Tree)
    decreases a
  {
    && a.name == b.name && a.kind == b.kind && |a.children| == |b.children|
    && forall i :: 0 <= i < |a.children| ==> SameShape(a.children[i], b.children[i])
  }

  /** Lookup depends only on the shape. */
  lemma {:induction false} SameShapeFind(a: Tree, b: Tree, key: string)
    requires SameShape(a, b)
    ensures FindPath(a, key) == FindPath(b, key)
    decreases a, 1
  {
    if a.name != key {
      SameShapeFindFrom(a, b, key, 0);
    }
  }

  lemma {:induction false} SameShapeFindFrom(a: Tree, b: Tree, key: string, i: nat)
    requires SameShape(a, b) && i <= |a.children|
    ensures FindInChildren(a, key, i) == FindInChildren(b, key, i)
    decreases a, 0, |a.children| - i
  {
    if i < |a.children| {
      SameShapeFind(a.children[i], b.children[i], key);
      SameShapeFindFrom(a, b, key, i + 1);
    }
  }

  /** Shape-equal trees have the same paths, leading to shape-equal nodes. */
  lemma {:induction false} SameShapePath(a: Tree, b: Tree, p: seq<nat>)
    requires SameShape(a, b) && ValidPath(a, p)
    ensures ValidPath(b, p) && SameShape(SubtreeAt(a, p), SubtreeAt(b, p))
    decreases p
  {
    if p != [] {
      SameShapePath(a.children[p[0]], b.children[p[0]], p[1..]);
    }
  }

  lemma {:induction false} SameShapeRefl(a: Tree)
    ensures SameShape(a, a)
    decreases a
  {
    forall i | 0 <= i < |a.children| ensures SameShape(a.children[i], a.children[i]) {
      SameShapeRefl(a.children[i]);
    }
  }

  lemma {:induction false} SameShapeTrans(a: Tree, b: Tree, c: Tree)
    requires SameShape(a, b) && SameShape(b, c)
    ensures SameShape(a, c)
    decreases a
  {
    forall i | 0 <= i < |a.children| ensures SameShape(a.children[i], c.children[i]) {
      SameShapeTrans(a.children[i], b.children[i], c.children[i]);
    }
  }

  lemma {:induction false} RecomputeShape(t: Tree)
    ensures SameShape(Recompute(t), t)
    decreases t
  {
    forall i | 0 <= i < |t.children| ensures SameShape(Recompute(t.children[i]), t.children[i]) {
      RecomputeShape(t.children[i]);
    }
  }

  /** Replacing a node by one of the same shape keeps the shape. */
  lemma {:induction false} ReplaceAtShape(t: Tree, p: seq<nat>, s: Tree)
    requires ValidPath(t, p) && SameShape(s, SubtreeAt(t, p))
    ensures SameShape(ReplaceAt(t, p, s), t)
    decreases p
  {
    if p != [] {
      var i := p[0];
      ReplaceAtShape(t.children[i], p[1..], s);
      forall k | 0 <= k < |t.children| && k != i
        ensures SameShape(t.children[k], t.children[k])
      {
        SameShapeRefl(t.children[k]);
      }
    }
  }

  lemma SetInvestedShape(t: Tree, p: seq<nat>, v: real)
    requires ValidPath(t, p)
    ensures SameShape(SetInvestedAt(t, p, v), t)
  {
    var s := SubtreeAt(t, p);
    forall i | 0 <= i < |s.children| ensures SameShape(s.children[i], s.children[i]) {
      SameShapeRefl(s.children[i]);
    }
    ReplaceAtShape(t, p, s.(invested := v));
  }
}
