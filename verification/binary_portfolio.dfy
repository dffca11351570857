/**
 * The binary portfolio of src/luis.c and src/Gabriel.c: every node has an
 * esquerda and a direita pointer. A node's children, in the model, are the
 * non-null ones among left and right, in that order, so the analysis
 * functions of PortfolioAnalysis apply to both variants unchanged.
 */
module BinaryPortfolio {
  import opened PortfolioSpec
  import opened PortfolioAnalysis

  /** With at most two children, the subtree sum is 0 + left sum + right sum + the node's own value. */
  lemma TotalOfTwo(m: Tree)
    requires |m.children| <= 2
    ensures SubtreeSum(m) == 0.0 + (if |m.children| >= 1 then SubtreeSum(m.children[0]) else 0.0)
                                 + (if |m.children| == 2 then SubtreeSum(m.children[1]) else 0.0) + m.invested
  {
    if |m.children| == 1 {
      assert ChildSums(m) == [SubtreeSum(m.children[0])];
      SumSingle(SubtreeSum(m.children[0]));
    } else if |m.children| == 2 {
      assert ChildSums(m) == [SubtreeSum(m.children[0]), SubtreeSum(m.children[1])];
      SumOfTwo(SubtreeSum(m.children[0]), SubtreeSum(m.children[1]));
    }
  }

  class BNode {
    const name: string
    const kind: Kind
    const target: real
    var invested: real
    var total: real
    /** esquerda and direita */
    var left: BNode?
    var right: BNode?
    ghost var model: Tree
    ghost var Repr: set<object>

    /** The models of the non-null children, left first. */
    ghost function Kids(): seq<Tree>
      reads this, left, right
    {
      (if left == null then [] else [left.model]) + (if right == null then [] else [right.model])
    }

    ghost predicate Valid()
      reads this, Repr
      decreases Repr
    {
      && this in Repr
      && model.name == name && model.kind == kind && model.target == target
      && model.invested == invested && model.total == total
      && (left != null ==> left in Repr && left.Repr <= Repr && this !in left.Repr && left.Valid())
      && (right != null ==> right in Repr && right.Repr <= Repr && this !in right.Repr && right.Valid())
      && (left != null && right != null ==> left.Repr !! right.Repr)
      && model.children == Kids()
    }

    /** criar_no: the name is cut to 63 characters, both pointers null, total 0. */
    constructor (name: string, kind: Kind, target: real, invested: real)
      ensures Valid() && fresh(Repr) && Repr == {this}
      ensures model == Leaf(Truncate(name, NameCapacity), kind, target, invested)
    {
      this.name := Truncate(name, NameCapacity);
      this.kind := kind;
      this.target := target;
      this.invested := invested;
      this.total := 0.0;
      this.left := null;
      this.right := null;
      model := Leaf(Truncate(name, NameCapacity), kind, target, invested);
      Repr := {this};
    }

    /** no->esquerda = c on a node whose left pointer is still null: c becomes the first child. */
    method LinkLeft(c: BNode)
      requires Valid() && left == null && c.Valid() && Repr !! c.Repr
      modifies this
      ensures Valid() && Repr == old(Repr) + c.Repr && left == c && right == old(right)
      ensures model == old(model).(children := [c.model] + old(model).children)
    {
      left := c;
      model := model.(children := [c.model] + model.children);
      Repr := Repr + c.Repr;
    }

    /** no->direita = c on a node whose right pointer is still null: c becomes the last child. */
    method LinkRight(c: BNode)
      requires Valid() && right == null && c.Valid() && Repr !! c.Repr
      modifies this
      ensures Valid() && Repr == old(Repr) + c.Repr && right == c && left == old(left)
      ensures model == old(model).(children := old(model).children + [c.model])
    {
      right := c;
      model := model.(children := model.children + [c.model]);
      Repr := Repr + c.Repr;
    }

    /**
     * buscar_no: this node if its name is key, else the search of the left
     * subtree, else that of the right subtree; the node found stands for the
     * subtree at the first pre-order path to key.
     */
    method Find(key: string) returns (r: BNode?)
      requires Valid()
      ensures r == null <==> FindPath(model, key).None?
      ensures r != null ==> r in Repr && r.Valid() && r.model == SubtreeAt(model, FindPath(model, key).value)
      decreases Repr
    {
      if name == key {
        return this;
      }
      var i := 0;
      if left != null {
        FindInChildrenStep(model, key, 0);
        r := left.Find(key);
        if r != null {
          ghost var q := FindPath(model.children[0], key).value;
          assert ([0] + q)[0] == 0 && ([0] + q)[1..] == q;
          return;
        }
        i := 1;
      }
      if right != null {
        FindInChildrenStep(model, key, i);
        r := right.Find(key);
        if r != null {
          ghost var q := FindPath(model.children[i], key).value;
          assert ([i] + q)[0] == i && ([i] + q)[1..] == q;
          return;
        }
      }
      return null;
    }

    /**
     * calcular_total_no: a node with no children takes its own value; any
     * other adds the left total, the right total and its own value. Every
     * valor_total in the subtree ends up as its subtree sum.
     */
    method ComputeTotal() returns (s: real)
      requires Valid()
      modifies Repr
      ensures Valid() && Repr == old(Repr) && left == old(left) && right == old(right)
      ensures model == Recompute(old(model))
      ensures s == SubtreeSum(old(model))
      decreases Repr, 1
    {
      ghost var m := model;
      TotalOfTwo(m);
      if left == null && right == null {
        total := invested;
        model := model.(total := invested);
        assert model.children == Recompute(m).children;
        return invested;
      }
      var soma := 0.0;
      if left != null {
        var sub := RecomputeLeft();
        soma := soma + sub;
      }
      if right != null {
        var sub := RecomputeRight();
        soma := soma + sub;
      }
      soma := soma + invested;
      total := soma;
      model := model.(total := soma);
      assert model.children == Recompute(m).children;
      return soma;
    }

    /** The left half of calcular_total_no's sum: the left subtree recomputed. */
    method RecomputeLeft() returns (sub: real)
      requires Valid() && left != null
      modifies Repr
      ensures Valid() && Repr == old(Repr) && left == old(left) && right == old(right)
      ensures model == old(model).(children := old(model).children[0 := Recompute(old(model).children[0])])
      ensures sub == SubtreeSum(old(model).children[0])
      decreases Repr, 0
    {
      sub := left.ComputeTotal();
      model := model.(children := Kids());
    }

    /** The right half of calcular_total_no's sum: the right subtree recomputed. */
    method RecomputeRight() returns (sub: real)
      requires Valid() && right != null
      modifies Repr
      ensures Valid() && Repr == old(Repr) && left == old(left) && right == old(right)
      ensures var i := |old(model).children| - 1;
              model == old(model).(children := old(model).children[i := Recompute(old(model).children[i])])
      ensures sub == SubtreeSum(old(model).children[|old(model).children| - 1])
      decreases Repr, 0
    {
      sub := right.ComputeTotal();
      model := model.(children := Kids());
    }

    /** The store through the pointer buscar_no returned: only valor_investido changes. */
    method SetInvested(v: real)
      requires Valid()
      modifies this
      ensures Valid() && Repr == old(Repr) && left == old(left) && right == old(right)
      ensures model == old(model).(invested := v)
    {
      invested := v;
      model := model.(invested := v);
    }

    /**
     * The search of buscar_no followed by the store through the pointer it
     * returns: valor_investido of the first node named key becomes v.
     */
    method UpdateFirst(key: string, v: real) returns (found: bool)
      requires Valid()
      modifies Repr
      ensures Valid() && Repr == old(Repr) && left == old(left) && right == old(right)
      ensures found <==> FindPath(old(model), key).Some?
      ensures found ==> model == SetInvestedAt(old(model), FindPath(old(model), key).value, v)
      ensures !found ==> model == old(model)
      decreases Repr, 1
    {
      ghost var m := model;
      if name == key {
        SetInvested(v);
        return true;
      }
      var i := 0;
      if left != null {
        FindInChildrenStep(m, key, 0);
        found := UpdateLeft(key, v);
        if found {
          SetInvestedAtCons(m, 0, FindPath(m.children[0], key).value, v);
          return;
        }
        i := 1;
      }
      if right != null {
        FindInChildrenStep(m, key, i);
        found := UpdateRight(key, v);
        if found {
          SetInvestedAtCons(m, i, FindPath(m.children[i], key).value, v);
          return;
        }
      }
      return false;
    }

    /** The search and store carried out in the left subtree. */
    method UpdateLeft(key: string, v: real) returns (found: bool)
      requires Valid() && left != null
      modifies Repr
      ensures Valid() && Repr == old(Repr) && left == old(left) && right == old(right)
      ensures found <==> FindPath(old(model).children[0], key).Some?
      ensures found ==> model == old(model).(children := old(model).children[0 := SetInvestedAt(old(model).children[0], FindPath(old(model).children[0], key).value, v)])
      ensures !found ==> model == old(model)
      decreases Repr, 0
    {
      found := left.UpdateFirst(key, v);
      model := model.(children := Kids());
    }

    /** The search and store carried out in the right subtree. */
    method UpdateRight(key: string, v: real) returns (found: bool)
      requires Valid() && right != null
      modifies Repr
      ensures Valid() && Repr == old(Repr) && left == old(left) && right == old(right)
      ensures var i := |old(model).children| - 1;
              && (found <==> FindPath(old(model).children[i], key).Some?)
              && (found ==> model == old(model).(children := old(model).children[i := SetInvestedAt(old(model).children[i], FindPath(old(model).children[i], key).value, v)]))
              && (!found ==> model == old(model))
      decreases Repr, 0
    {
      found := right.UpdateFirst(key, v);
      model := model.(children := Kids());
    }

    /** A category's share of simular_aporte (src/Gabriel.c): each ATIVO child gets half of it. */
    method CreditHalves(share: real)
      requires Valid()
      modifies Repr
      ensures Valid() && Repr == old(Repr) && left == old(left) && right == old(right)
      ensures model == SpreadHalf(old(model), share)
    {
      ghost var m := model;
      if left != null && left.kind == Asset {
        CreditLeft(share / 2.0);
      }
      if right != null && right.kind == Asset {
        CreditRight(share / 2.0);
      }
      assert model.children == PortfolioAnalysis.CreditAssets(m, share / 2.0).children;
    }

    /** esquerda->valor_investido += x on an ATIVO left child. */
    method CreditLeft(x: real)
      requires Valid() && left != null && left.kind == Asset
      modifies Repr
      ensures Valid() && Repr == old(Repr) && left == old(left) && right == old(right)
      ensures model == old(model).(children := old(model).children[0 := old(model).children[0].(invested := old(model).children[0].invested + x)])
    {
      left.SetInvested(left.invested + x);
      model := model.(children := Kids());
    }

    /** direita->valor_investido += x on an ATIVO right child. */
    method CreditRight(x: real)
      requires Valid() && right != null && right.kind == Asset
      modifies Repr
      ensures Valid() && Repr == old(Repr) && left == old(left) && right == old(right)
      ensures var i := |old(model).children| - 1;
              model == old(model).(children := old(model).children[i := old(model).children[i].(invested := old(model).children[i].invested + x)])
    {
      right.SetInvested(right.invested + x);
      model := model.(children := Kids());
    }

    /**
     * simular_aporte of src/Gabriel.c below the root: each category gets
     * amount * alvo / 100, which CreditHalves hands to its assets.
     */
    method Contribute(amount: real)
      requires Valid()
      modifies Repr
      ensures Valid() && Repr == old(Repr)
      ensures model == ContributeHalf(old(model), amount)
    {
      ghost var m := model;
      if left != null {
        SpreadLeft(amount);
      }
      if right != null {
        SpreadRight(amount);
      }
      assert model.children == ContributeHalf(m, amount).children;
    }

    /** The left category's part of simular_aporte. */
    method SpreadLeft(amount: real)
      requires Valid() && left != null
      modifies Repr
      ensures Valid() && Repr == old(Repr) && left == old(left) && right == old(right)
      ensures model == old(model).(children := old(model).children[0 := SpreadHalf(old(model).children[0], Share(amount, old(model).children[0]))])
    {
      ghost var t := model.children[0];
      var share := amount * (left.target / 100.0);
      assert share == Share(amount, t);
      left.CreditHalves(share);
      model := model.(children := Kids());
    }

    /** The right category's part of simular_aporte. */
    method SpreadRight(amount: real)
      requires Valid() && right != null
      modifies Repr
      ensures Valid() && Repr == old(Repr) && left == old(left) && right == old(right)
      ensures var i := |old(model).children| - 1;
              model == old(model).(children := old(model).children[i := SpreadHalf(old(model).children[i], Share(amount, old(model).children[i]))])
    {
      ghost var t := model.children[|model.children| - 1];
      var share := amount * (right.target / 100.0);
      assert share == Share(amount, t);
      right.CreditHalves(share);
      model := model.(children := Kids());
    }

    /** The two blocks of detectar_desbalanceamento (src/Gabriel.c): left category, then right. */
    method BalanceRows() returns (rows: seq<CategoryReport>, unbalanced: bool)
      requires Valid() && total != 0.0
      ensures rows == BalanceReport(model)
      ensures unbalanced <==> Unbalanced(rows)
    {
      rows := [];
      unbalanced := false;
      if left != null {
        var actual := ActualPercent(left.total, total);
        var band := BalanceBand(actual - left.target);
        rows := rows + [CategoryReport(left.name, left.target, actual, left.total, band)];
        if band != Within {
          assert rows[0].band != Within;
          unbalanced := true;
        }
      }
      if right != null {
        var actual := ActualPercent(right.total, total);
        var band := BalanceBand(actual - right.target);
        ghost var prev := rows;
        rows := rows + [CategoryReport(right.name, right.target, actual, right.total, band)];
        if band != Within {
          assert rows[|rows| - 1].band != Within;
          unbalanced := true;
        } else {
          assert forall k :: 0 <= k < |prev| ==> rows[k] == prev[k];
        }
      }
      assert rows == BalanceReport(model);
    }

    /** The two blocks of atualizar_percentuais (src/luis.c), with the 1.0 status threshold. */
    method StatusRows() returns (rows: seq<CategoryReport>)
      requires Valid() && total != 0.0
      ensures rows == PercentReport(model)
    {
      rows := [];
      if left != null {
        var actual := ActualPercent(left.total, total);
        rows := rows + [CategoryReport(left.name, left.target, actual, left.total, StatusBand(actual - left.target))];
      }
      if right != null {
        var actual := ActualPercent(right.total, total);
        rows := rows + [CategoryReport(right.name, right.target, actual, right.total, StatusBand(actual - right.target))];
      }
      assert rows == PercentReport(model);
    }

    /** One block of sugerir_rebalanceamento (src/Gabriel.c): a SELL or BUY line, or nothing. */
    static method ActionLine(c: BNode, total: real) returns (a: Option<Action>)
      requires c.Valid()
      ensures a == ActionFor(c.model, total)
    {
      var target := total * (c.target / 100.0);
      var gap := c.total - target;
      assert c.model.name == c.name && gap == ValueGap(c.model, total);
      assert total * Tolerance / 100.0 == ValueThreshold(total);
      if gap > total * Tolerance / 100.0 {
        return Some(Sell(c.name, gap));
      } else if gap < -(total * Tolerance / 100.0) {
        return Some(Buy(c.name, -gap));
      }
      return None;
    }

    /**
     * sugerir_rebalanceamento of src/Gabriel.c: a line for the left category,
     * then for the right one; "already balanced" when neither printed one.
     */
    method Advise() returns (advice: Advice)
      requires Valid()
      ensures advice == BinaryAdvice(model)
    {
      ghost var cs := model.children;
      var acts: seq<Action> := [];
      var emitted := false;
      var i := 0;
      assert cs[..0] == [];
      if left != null {
        CategoryActionsStep(cs, total, 0);
        var a := ActionLine(left, total);
        if a.Some? {
          acts := acts + [a.value];
          emitted := true;
        }
        i := 1;
      }
      if right != null {
        CategoryActionsStep(cs, total, i);
        var a := ActionLine(right, total);
        if a.Some? {
          acts := acts + [a.value];
          emitted := true;
        }
        i := i + 1;
      }
      assert cs[..i] == cs;
      if !emitted {
        return AlreadyBalanced;
      }
      return Rebalance(acts);
    }

    /** The listing loop of listar_ativos (src/luis.c): left child, then right child. */
    method Holdings() returns (hs: seq<Holding>)
      requires Valid()
      ensures hs == PortfolioAnalysis.Holdings(model.children)
    {
      hs := [];
      if left != null {
        hs := hs + [Holding(left.name, left.invested)];
      }
      if right != null {
        hs := hs + [Holding(right.name, right.invested)];
      }
      assert hs == PortfolioAnalysis.Holdings(model.children);
    }
  }

  /** The outcome of detectar_desbalanceamento: one row per category and the flag desbalanceado. */
  datatype Detection = Detection(rows: seq<CategoryReport>, unbalanced: bool)

  /** The figures atualizar_valores_mercado reports: valor_anterior and variacao. */
  datatype Change = Change(previous: real, variation: real)

  /** A category node holding two ATIVO leaves of the same value, linked left then right. */
  method NewCategory(name: string, target: real, first: string, second: string, value: real) returns (c: BNode)
    requires |name| <= NameCapacity && |first| <= NameCapacity && |second| <= NameCapacity
    ensures c.Valid() && fresh(c.Repr)
    ensures c.model == PairCategory(name, target, first, second, value)
  {
    c := new BNode(name, Kind.Category, target, 0.0);
    var a := new BNode(first, Asset, 0.0, value);
    var b := new BNode(second, Asset, 0.0, value);
    c.LinkLeft(a);
    c.LinkRight(b);
  }

  /**
   * criar_carteira_perfil (src/luis.c) up to its final recomputation: the
   * root, "Renda Fixa" linked to its left and "Acoes" to its right, each
   * holding two assets that share the category's part.
   */
  method BuildProfile(initial: real, profile: string) returns (r: BNode)
    ensures r.Valid() && fresh(r.Repr)
    ensures r.model == RawProfileTree2(initial, profile)
  {
    var tg := ProfileTargets2(profile);
    var valueRf := initial * (tg.fixedIncome / 100.0);
    var valueRv := initial * (tg.equities / 100.0);
    var rf := NewCategory("Renda Fixa", tg.fixedIncome, "Tesouro Selic", "CDB XP", valueRf / 2.0);
    ghost var mf := rf.model;
    var rv := NewCategory("Acoes", tg.equities, "PETR4", "ITUB4", valueRv / 2.0);
    ghost var mv := rv.model;
    ProfileSteps(initial, profile, tg, valueRf / 2.0, valueRv / 2.0, mf, mv);
    r := NewRoot(rf, rv);
  }

  /** The root "Carteira" with left child rf and right child rv. */
  method NewRoot(rf: BNode, rv: BNode) returns (r: BNode)
    requires rf.Valid() && rv.Valid() && rf.Repr !! rv.Repr
    ensures r.Valid() && r.Repr == {r} + rf.Repr + rv.Repr && fresh(r)
    ensures r.model == Tree("Carteira", Root, 0.0, 0.0, 0.0, [rf.model, rv.model])
  {
    r := new BNode("Carteira", Root, 0.0, 0.0);
    r.LinkLeft(rf);
    r.LinkRight(rv);
    assert [rf.model] + ([] + [rv.model]) == [rf.model, rv.model];
  }

  /** Linking the two categories under the root yields the preset tree of criar_carteira_perfil. */
  lemma ProfileSteps(initial: real, profile: string, tg: Targets2, vf: real, vv: real, rf: Tree, rv: Tree)
    requires tg == ProfileTargets2(profile)
    requires vf == initial * (tg.fixedIncome / 100.0) / 2.0 && vv == initial * (tg.equities / 100.0) / 2.0
    requires rf == PairCategory("Renda Fixa", tg.fixedIncome, "Tesouro Selic", "CDB XP", vf)
    requires rv == PairCategory("Acoes", tg.equities, "PETR4", "ITUB4", vv)
    ensures Tree("Carteira", Root, 0.0, 0.0, 0.0, [rf, rv]) == RawProfileTree2(initial, profile)
  {
    var r := RawProfileTree2(initial, profile);
    assert r.children[0].children[0] == rf.children[0];
    assert r.children[0].children[1] == rf.children[1];
    assert r.children[1].children[0] == rv.children[0];
    assert r.children[1].children[1] == rv.children[1];
    assert r.children[0].children == rf.children;
    assert r.children[1].children == rv.children;
    assert r.children == [rf, rv];
  }

  /**
   * Arvore of the binary variant. Every operation that changes the tree ends
   * by recomputing the totals and copying the root's total into the cache;
   * a null root is the "Carteira vazia!" case.
   */
  class BPortfolio {
    var root: BNode?
    var total: real
    ghost var Repr: set<object>

    ghost predicate Valid()
      reads this, Repr
    {
      && this in Repr
      && (root != null ==> root in Repr && root.Repr <= Repr && this !in root.Repr && root.Valid())
    }

    /**
     * criar_carteira_perfil (src/luis.c): "Renda Fixa" to the left of the
     * root, "Acoes" to the right, each with two assets sharing its part.
     */
    constructor (initial: real, profile: string)
      ensures Valid() && fresh(Repr) && root != null
      ensures root.model == Recompute(RawProfileTree2(initial, profile))
      ensures total == initial
    {
      var r := BuildProfile(initial, profile);
      var s := r.ComputeTotal();
      ProfileTree2Sum(initial, profile);
      root := r;
      total := r.total;
      Repr := {this} + r.Repr;
    }

    /** calcular_total_no on the root followed by arvore->valor_total = raiz->valor_total. */
    method Refresh()
      requires Valid() && root != null
      modifies Repr
      ensures Valid() && Repr == old(Repr) && root == old(root)
      ensures root.model == Recompute(old(root.model))
      ensures total == root.model.total == SubtreeSum(old(root.model))
    {
      var s := root.ComputeTotal();
      total := root.total;
    }

    /**
     * remover_ativo (src/luis.c): find the node, require an ATIVO, set its
     * valor_investido to 0 and recompute; the node stays in the tree.
     */
    method RemoveAsset(key: string) returns (err: Option<Error>)
      requires Valid()
      modifies Repr
      ensures Valid() && Repr == old(Repr) && root == old(root)
      ensures root == null ==> err == Some(EmptyPortfolio)
      ensures root != null ==> match RemoveZero(old(root.model), key)
                case Ok(t) => err.None? && root.model == t && total == t.total
                case Err(e) => err == Some(e) && root.model == old(root.model) && total == old(total)
    {
      if root == null {
        return Some(EmptyPortfolio);
      }
      var a := root.Find(key);
      if a == null {
        return Some(NotFound);
      }
      if a.kind != Asset {
        return Some(NotAnAsset);
      }
      var found := root.UpdateFirst(key, 0.0);
      Refresh();
      return None;
    }

    /** atualizar_percentuais (src/luis.c): recompute, then the status rows. */
    method UpdatePercentages() returns (r: Result<seq<CategoryReport>>)
      requires Valid() && (root != null ==> SubtreeSum(root.model) != 0.0)
      modifies Repr
      ensures Valid() && Repr == old(Repr) && root == old(root)
      ensures root == null ==> r == Err(EmptyPortfolio)
      ensures root != null ==> root.model == Recompute(old(root.model)) && r == Ok(PercentReport(root.model))
    {
      if root == null {
        return Err(EmptyPortfolio);
      }
      Refresh();
      var rows := root.StatusRows();
      return Ok(rows);
    }

    /** detectar_desbalanceamento (src/Gabriel.c): recompute, then the rows and the flag. */
    method Detect() returns (r: Result<Detection>)
      requires Valid() && (root != null ==> SubtreeSum(root.model) != 0.0)
      modifies Repr
      ensures Valid() && Repr == old(Repr) && root == old(root)
      ensures root == null ==> r == Err(EmptyPortfolio)
      ensures root != null ==>
                root.model == Recompute(old(root.model)) &&
                r == Ok(Detection(BalanceReport(root.model), Unbalanced(BalanceReport(root.model))))
    {
      if root == null {
        return Err(EmptyPortfolio);
      }
      Refresh();
      var rows, unbalanced := root.BalanceRows();
      return Ok(Detection(rows, unbalanced));
    }

    /** sugerir_rebalanceamento (src/Gabriel.c): recompute, then the advice. */
    method Suggest() returns (r: Result<Advice>)
      requires Valid()
      modifies Repr
      ensures Valid() && Repr == old(Repr) && root == old(root)
      ensures root == null ==> r == Err(EmptyPortfolio)
      ensures root != null ==> root.model == Recompute(old(root.model)) && r == Ok(BinaryAdvice(root.model))
    {
      if root == null {
        return Err(EmptyPortfolio);
      }
      Refresh();
      var advice := root.Advise();
      return Ok(advice);
    }

    /**
     * simular_aporte (src/Gabriel.c): a non-positive amount is refused;
     * otherwise every ATIVO child of the two categories gets half of its
     * category's share, and the totals are recomputed.
     */
    method SimulateContribution(amount: real) returns (err: Option<Error>)
      requires Valid()
      modifies Repr
      ensures Valid() && Repr == old(Repr) && root == old(root)
      ensures root == null ==> err == Some(EmptyPortfolio)
      ensures root != null ==> match SimulateHalf(old(root.model), amount)
                case Ok(t) => err.None? && root.model == t && total == t.total
                case Err(e) => err == Some(e) && root.model == old(root.model) && total == old(total)
    {
      if root == null {
        return Some(EmptyPortfolio);
      }
      if amount <= 0.0 {
        return Some(InvalidAmount);
      }
      root.Contribute(amount);
      Refresh();
      return None;
    }

    /**
     * atualizar_valores_mercado (src/Gabriel.c): find the node, require an
     * ATIVO, report the previous value and the variation, store, recompute.
     */
    method UpdateMarketValue(key: string, v: real) returns (r: Result<Change>)
      requires Valid()
      modifies Repr
      ensures Valid() && Repr == old(Repr) && root == old(root)
      ensures root == null ==> r == Err(EmptyPortfolio)
      ensures root != null ==> match UpdateMarket(old(root.model), key, v)
                case Ok(u) => r == Ok(Change(u.previous, u.variation)) && root.model == u.tree && total == u.tree.total
                case Err(e) => r == Err(e) && root.model == old(root.model) && total == old(total)
    {
      if root == null {
        return Err(EmptyPortfolio);
      }
      var a := root.Find(key);
      if a == null {
        return Err(NotFound);
      }
      if a.kind != Asset {
        return Err(NotAnAsset);
      }
      var previous := a.invested;
      var variation := 0.0;
      if previous != 0.0 {
        variation := (v - previous) / previous * 100.0;
      }
      var found := root.UpdateFirst(key, v);
      Refresh();
      return Ok(Change(previous, variation));
    }

    /** listar_ativos (src/luis.c): the category's children with their values and its cached total. */
    method ListAssets(key: string) returns (r: Result<Listing>)
      requires Valid()
      ensures root == null ==> r == Err(EmptyPortfolio)
      ensures root != null ==> r == PortfolioAnalysis.ListAssets(root.model, key)
    {
      if root == null {
        return Err(EmptyPortfolio);
      }
      var c := root.Find(key);
      if c == null {
        return Err(NotFound);
      }
      if c.kind != Kind.Category {
        return Err(NotACategory);
      }
      var hs := c.Holdings();
      return Ok(Listing(c.name, hs, c.total));
    }
  }
}
