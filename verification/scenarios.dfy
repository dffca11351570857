/**
 * The test sequence of main in Main.c, replayed on the abstract model:
 * a conservative portfolio of R$ 10000, PETR4 doubling to R$ 2000, a
 * R$ 1000 contribution, the listing of "Acoes" and the removal of ITUB4.
 * Each step is first proved for a portfolio of main's shape with arbitrary
 * asset values, then instantiated with the values main produces; all in
 * exact arithmetic.
 */
module MainScenario {
  import opened PortfolioSpec
  import opened PortfolioAnalysis

  // ---------------------------------------------------------------------
  // The shape of main's portfolio
  // ---------------------------------------------------------------------

  /** An ATIVO without children. */
  predicate IsLeaf(a: Tree, name: string, value: real)
  {
    a.name == name && a.kind == Asset && a.invested == value && a.children == []
  }

  /** A CATEGORIA worth nothing itself and holding exactly the two given assets. */
  predicate IsPair(c: Tree, name: string, target: real, first: string, x: real, second: string, y: real)
  {
    && c.name == name && c.kind == Category && c.target == target && c.invested == 0.0
    && |c.children| == 2 && IsLeaf(c.children[0], first, x) && IsLeaf(c.children[1], second, y)
  }

  /**
   * The tree criar_carteira_perfil(_, "CONSERVADOR") builds in Main.c, with
   * consistent totals and the five asset values as parameters.
   */
  predicate IsMain(r: Tree, rf1: real, rf2: real, pe: real, it: real, cc: real)
  {
    TotalsOk(r) && MainData(r, rf1, rf2, pe, it, cc)
  }

  /** The same tree before its totals are computed. */
  predicate MainData(r: Tree, rf1: real, rf2: real, pe: real, it: real, cc: real)
  {
    && r.name == "Carteira" && r.kind == Root && r.invested == 0.0 && |r.children| == 3
    && IsPair(r.children[0], "Renda Fixa", 70.0, "Tesouro Selic", rf1, "CDB XP", rf2)
    && IsPair(r.children[1], "Acoes", 20.0, "PETR4", pe, "ITUB4", it)
    && var c := r.children[2];
       c.name == "Caixa" && c.kind == Category && c.target == 10.0 && c.invested == 0.0
       && |c.children| == 1 && IsLeaf(c.children[0], "Conta Corrente", cc)
  }

  /** calcular_total_no on a tree of main's shape yields a consistent tree of the same shape and values. */
  lemma {:induction false} RecomputeMain(t: Tree, rf1: real, rf2: real, pe: real, it: real, cc: real)
    requires MainData(t, rf1, rf2, pe, it, cc)
    ensures IsMain(Recompute(t), rf1, rf2, pe, it, cc)
  {
    RecomputeConsistent(t);
    var r := Recompute(t);
    forall i | 0 <= i < 3
      ensures r.children[i] == Recompute(t.children[i])
      ensures forall j :: 0 <= j < |t.children[i].children| ==>
                r.children[i].children[j] == Recompute(t.children[i].children[j])
    {
    }
  }

  lemma {:induction false} PairTotal(c: Tree, name: string, target: real, first: string, x: real, second: string, y: real)
    requires TotalsOk(c) && IsPair(c, name, target, first, x, second, y)
    ensures c.total == x + y
  {
    assert Totals(c.children[0].children) == [];
    assert Totals(c.children[1].children) == [];
    assert Totals(c.children) == [x, y];
    SumOfTwo(x, y);
  }

  /** The cached totals: each category is the sum of its assets, the root the sum of the categories. */
  lemma {:induction false} MainTotals(r: Tree, rf1: real, rf2: real, pe: real, it: real, cc: real)
    requires IsMain(r, rf1, rf2, pe, it, cc)
    ensures r.children[0].total == rf1 + rf2
    ensures r.children[1].total == pe + it
    ensures r.children[2].total == cc
    ensures r.total == rf1 + rf2 + pe + it + cc
  {
    PairTotal(r.children[0], "Renda Fixa", 70.0, "Tesouro Selic", rf1, "CDB XP", rf2);
    PairTotal(r.children[1], "Acoes", 20.0, "PETR4", pe, "ITUB4", it);
    var c := r.children[2];
    assert TotalsOk(c) && TotalsOk(c.children[0]);
    assert Totals(c.children[0].children) == [];
    assert c.children[0].total == cc;
    assert Totals(c.children) == [cc];
    SumSingle(cc);
    assert Totals(r.children) == [rf1 + rf2, pe + it, cc];
    SumOfThree(rf1 + rf2, pe + it, cc);
  }

  // ---------------------------------------------------------------------
  // Lookups
  // ---------------------------------------------------------------------

  lemma {:induction false} MissLeaf(a: Tree, key: string)
    requires a.children == [] && a.name != key
    ensures FindPath(a, key).None?
  {
  }

  /** A node whose own name and whose leaf children's names all differ from key does not hold key. */
  lemma {:induction false} MissCategory(c: Tree, key: string)
    requires c.name != key
    requires forall i :: 0 <= i < |c.children| ==> c.children[i].children == [] && c.children[i].name != key
    ensures FindPath(c, key).None?
  {
    forall i | 0 <= i < |c.children|
      ensures FindPath(c.children[i], key).None?
    {
      MissLeaf(c.children[i], key);
    }
    MissTree(c, key);
  }

  /** A node that does not carry key, and under none of whose children key is found, does not hold key. */
  lemma {:induction false} MissTree(c: Tree, key: string)
    requires c.name != key
    requires forall i :: 0 <= i < |c.children| ==> FindPath(c.children[i], key).None?
    ensures FindPath(c, key).None?
  {
    var i := |c.children|;
    while i > 0
      invariant 0 <= i <= |c.children|
      invariant FindInChildren(c, key, i).None?
    {
      i := i - 1;
      FindInChildrenStep(c, key, i);
    }
  }

  /**
   * luis.c names the equity category "Ações": in its portfolio, whatever the
   * profile and amount, a lookup of "Acoes" finds nothing.
   */
  lemma {:induction false} AccentedPreset(x: real, p: string)
    ensures FindPath(Recompute(RawProfileTree3(x, p, "Ações")), "Acoes").None?
  {
    var t := RawProfileTree3(x, p, "Ações");
    forall i | 0 <= i < |t.children|
      ensures FindPath(t.children[i], "Acoes").None?
    {
      MissCategory(t.children[i], "Acoes");
    }
    MissTree(t, "Acoes");
    RecomputeShape(t);
    SameShapeFind(Recompute(t), t, "Acoes");
  }

  /** buscar_no finds "Acoes" as the second category. */
  lemma {:induction false} FindEquities(r: Tree, rf1: real, rf2: real, pe: real, it: real, cc: real)
    requires IsMain(r, rf1, rf2, pe, it, cc)
    ensures FindPath(r, "Acoes") == Some([1])
  {
    MissCategory(r.children[0], "Acoes");
    FindInChildrenStep(r, "Acoes", 0);
    FindInChildrenStep(r, "Acoes", 1);
    assert [1] + [] == [1];
  }

  /** buscar_no finds PETR4 as the first asset of "Acoes". */
  lemma {:induction false} FindPetr(r: Tree, rf1: real, rf2: real, pe: real, it: real, cc: real)
    requires IsMain(r, rf1, rf2, pe, it, cc)
    ensures FindPath(r, "PETR4") == Some([1, 0])
  {
    var c1 := r.children[1];
    MissCategory(r.children[0], "PETR4");
    FindInChildrenStep(r, "PETR4", 0);
    FindInChildrenStep(c1, "PETR4", 0);
    assert [0] + [] == [0];
    assert FindPath(c1, "PETR4") == Some([0]);
    FindInChildrenStep(r, "PETR4", 1);
    assert [1] + [0] == [1, 0];
  }

  /** buscar_no finds ITUB4 as the second asset of "Acoes". */
  lemma {:induction false} FindItub(r: Tree, rf1: real, rf2: real, pe: real, it: real, cc: real)
    requires IsMain(r, rf1, rf2, pe, it, cc)
    ensures FindPath(r, "ITUB4") == Some([1, 1])
  {
    var c1 := r.children[1];
    MissCategory(r.children[0], "ITUB4");
    FindInChildrenStep(r, "ITUB4", 0);
    MissLeaf(c1.children[0], "ITUB4");
    FindInChildrenStep(c1, "ITUB4", 0);
    FindInChildrenStep(c1, "ITUB4", 1);
    assert [1] + [] == [1];
    assert FindPath(c1, "ITUB4") == Some([1]);
    FindInChildrenStep(r, "ITUB4", 1);
    assert [1] + [1] == [1, 1];
  }

  // ---------------------------------------------------------------------
  // TEST 1: criar_carteira_perfil(10000.0, "CONSERVADOR")
  // ---------------------------------------------------------------------

  /** The conservative preset of any amount has main's shape, split 35 / 35 / 10 / 10 / 10 percent. */
  lemma {:induction false} ConservativeIsMain(initial: real)
    ensures var rf := initial * (70.0 / 100.0) / 2.0;
            var rv := initial * (20.0 / 100.0) / 2.0;
            IsMain(Recompute(RawProfileTree3(initial, "CONSERVADOR", "Acoes")), rf, rf, rv, rv, initial * (10.0 / 100.0))
  {
    var rf := initial * (70.0 / 100.0) / 2.0;
    var rv := initial * (20.0 / 100.0) / 2.0;
    assert ProfileTargets3("CONSERVADOR") == Targets3(70.0, 20.0, 10.0);
    RecomputeMain(RawProfileTree3(initial, "CONSERVADOR", "Acoes"), rf, rf, rv, rv, initial * (10.0 / 100.0));
  }

  /** The portfolio main creates, for an initial amount. */
  function Start(initial: real): Tree
  {
    Recompute(RawProfileTree3(initial, "CONSERVADOR", "Acoes"))
  }

  /** TEST 1: the amount is split 35 / 35 / 10 / 10 / 10 percent over the five assets. */
  lemma {:induction false} StartState(initial: real)
    ensures IsMain(Start(initial), initial * 0.35, initial * 0.35, initial * 0.1, initial * 0.1, initial * 0.1)
    ensures Start(initial).total == initial
  {
    ConservativeIsMain(initial);
    MainTotals(Start(initial), initial * 0.35, initial * 0.35, initial * 0.1, initial * 0.1, initial * 0.1);
  }

  // ---------------------------------------------------------------------
  // TEST 2: atualizar_valores_mercado(carteira, "PETR4", 2000.0)
  // ---------------------------------------------------------------------

  /** Setting PETR4 to v keeps main's shape, with PETR4 at v, and reports its old value. */
  lemma {:induction false} MarketStep(r: Tree, rf1: real, rf2: real, pe: real, it: real, cc: real, v: real)
    requires IsMain(r, rf1, rf2, pe, it, cc)
    ensures UpdateMarket(r, "PETR4", v).Ok?
    ensures var u := UpdateMarket(r, "PETR4", v).value;
            u.previous == pe && u.variation == Variation(pe, v) && IsMain(u.tree, rf1, rf2, v, it, cc)
  {
    FindPetr(r, rf1, rf2, pe, it, cc);
    var c1 := r.children[1];
    assert ValidPath(c1, [0]) by { assert [0][1..] == []; }
    SetInvestedAtCons(r, 1, [0], v);
    assert [1] + [0] == [1, 0];
    assert SubtreeAt(r, [1, 0]) == c1.children[0] by { assert [1, 0][1..] == [0]; }
    var d := SetInvestedAt(c1, [0], v);
    assert d == c1.(children := c1.children[0 := c1.children[0].(invested := v)]) by {
      assert [0][1..] == [];
    }
    RecomputeMain(SetInvestedAt(r, [1, 0], v), rf1, rf2, v, it, cc);
  }

  /** The portfolio after TEST 2: PETR4 set to price. */
  function AfterMarket(initial: real, price: real): Tree
  {
    match UpdateMarket(Start(initial), "PETR4", price)
    case Ok(u) => u.tree
    case Err(_) => Start(initial)
  }

  /** TEST 2: the update reports PETR4's old value and its variation; only PETR4 changes. */
  lemma {:induction false} MarketState(initial: real, price: real)
    ensures UpdateMarket(Start(initial), "PETR4", price) ==
            Ok(MarketUpdate(AfterMarket(initial, price), initial * 0.1, Variation(initial * 0.1, price)))
    ensures IsMain(AfterMarket(initial, price), initial * 0.35, initial * 0.35, price, initial * 0.1, initial * 0.1)
    ensures AfterMarket(initial, price).total == initial * 0.9 + price
  {
    StartState(initial);
    MarketStep(Start(initial), initial * 0.35, initial * 0.35, initial * 0.1, initial * 0.1, initial * 0.1, price);
    MainTotals(AfterMarket(initial, price), initial * 0.35, initial * 0.35, price, initial * 0.1, initial * 0.1);
  }

  /** The balance rows of a portfolio of main's shape, in category order. */
  lemma {:induction false} MainRows(r: Tree, rf1: real, rf2: real, pe: real, it: real, cc: real)
    requires IsMain(r, rf1, rf2, pe, it, cc) && r.total != 0.0
    ensures var rows := BalanceReport(r);
            && |rows| == 3
            && rows[0].band == BalanceBand((rf1 + rf2) / r.total * 100.0 - 70.0)
            && rows[1].band == BalanceBand((pe + it) / r.total * 100.0 - 20.0)
            && rows[2].band == BalanceBand(cc / r.total * 100.0 - 10.0)
  {
    MainTotals(r, rf1, rf2, pe, it, cc);
  }

  /**
   * After TEST 2 (PETR4 doubled), "Renda Fixa" is below its band, "Acoes"
   * above and "Caixa" within, whatever the initial amount.
   */
  lemma {:induction false} MarketRows(r: Tree, x: real)
    requires x > 0.0
    requires IsMain(r, x * 0.35, x * 0.35, x * 0.2, x * 0.1, x * 0.1)
    ensures r.total == x * 1.1
    ensures var rows := BalanceReport(r);
            && |rows| == 3 && rows[0].band == Below && rows[1].band == Above && rows[2].band == Within
            && Unbalanced(rows)
  {
    MainTotals(r, x * 0.35, x * 0.35, x * 0.2, x * 0.1, x * 0.1);
    MainRows(r, x * 0.35, x * 0.35, x * 0.2, x * 0.1, x * 0.1);
    var rows := BalanceReport(r);
    Cancel(x, 0.7, 1.1);
    Cancel(x, 0.3, 1.1);
    Cancel(x, 0.1, 1.1);
    assert x * 0.35 + x * 0.35 == x * 0.7 && x * 0.2 + x * 0.1 == x * 0.3;
    assert rows[0].band == Below;
  }

  /** After TEST 2, sugerir_rebalanceamento says buy 7% of the initial amount of "Renda Fixa" and sell 8% of "Acoes". */
  lemma {:induction false} MarketAdvice(r: Tree, x: real)
    requires x > 0.0
    requires IsMain(r, x * 0.35, x * 0.35, x * 0.2, x * 0.1, x * 0.1)
    ensures r.total != 0.0
    ensures NaryAdvice(r) == Rebalance([Buy("Renda Fixa", x * 0.07), Sell("Acoes", x * 0.08)])
  {
    MainTotals(r, x * 0.35, x * 0.35, x * 0.2, x * 0.1, x * 0.1);
    Cancel(x, 0.7, 1.1);
    assert x * 0.35 + x * 0.35 == x * 0.7;
    var ns := AdviceNames(r.children);
    assert ns[0] == r.children[0] && ns[1] == r.children[1] && ns[2] == r.children[2];
    assert Abs(Deviation(r.children[0], r.total)) > Tolerance;
    assert ActionFor(ns[0], r.total) == Some(Buy("Renda Fixa", x * 0.07));
    assert ActionFor(ns[1], r.total) == Some(Sell("Acoes", x * 0.08));
    assert ActionFor(ns[2], r.total) == None;
    CategoryActionsStep(ns, r.total, 0);
    CategoryActionsStep(ns, r.total, 1);
    CategoryActionsStep(ns, r.total, 2);
    assert ns[..0] == [] && ns[..3] == ns;
  }

  /** Scaling both sides of a fraction by a positive amount leaves it unchanged. */
  lemma {:induction false} Cancel(x: real, a: real, b: real)
    requires x > 0.0 && b > 0.0
    ensures (x * a) / (x * b) == a / b
  {
    assert (x * a) / (x * b) * (x * b) == x * a;
  }

  /** TEST 1: every category of the fresh preset is exactly on target. */
  lemma {:induction false} StartBalanced(x: real)
    requires x > 0.0
    ensures Start(x).total == x
    ensures !Unbalanced(BalanceReport(Start(x)))
  {
    StartState(x);
    MainRows(Start(x), x * 0.35, x * 0.35, x * 0.1, x * 0.1, x * 0.1);
    Cancel(x, 0.7, 1.0);
    Cancel(x, 0.2, 1.0);
    Cancel(x, 0.1, 1.0);
    assert x * 0.35 + x * 0.35 == x * 0.7 && x * 0.1 + x * 0.1 == x * 0.2 && x * 1.0 == x;
  }

  /** TEST 1 finds every category on target; TEST 2 doubles PETR4 and gets the advice above. */
  lemma {:induction false} MarketAnalysis(initial: real)
    requires initial > 0.0
    ensures Start(initial).total == initial && !Unbalanced(BalanceReport(Start(initial)))
    ensures AfterMarket(initial, initial * 0.2).total == initial * 1.1
    ensures var rows := BalanceReport(AfterMarket(initial, initial * 0.2));
            |rows| == 3 && rows[0].band == Below && rows[1].band == Above && rows[2].band == Within
    ensures NaryAdvice(AfterMarket(initial, initial * 0.2)) ==
            Rebalance([Buy("Renda Fixa", initial * 0.07), Sell("Acoes", initial * 0.08)])
  {
    var x := initial;
    StartBalanced(x);
    MarketState(x, x * 0.2);
    MarketRows(AfterMarket(x, x * 0.2), x);
    MarketAdvice(AfterMarket(x, x * 0.2), x);
  }

  // ---------------------------------------------------------------------
  // TEST 3: simular_aporte(carteira, 1000.0)
  // ---------------------------------------------------------------------

  lemma {:induction false} CountTwoAssets(x: Tree, y: Tree)
    requires x.kind == Asset && y.kind == Asset
    ensures CountAssets([x, y]) == 2
  {
    assert [x, y][..1] == [x];
    CountOneAsset(x);
  }

  lemma {:induction false} CountOneAsset(x: Tree)
    requires x.kind == Asset
    ensures CountAssets([x]) == 1
  {
    assert [x][..0] == [];
  }

  /**
   * A contribution of a > 0 keeps main's shape: each "Renda Fixa" asset gains
   * 35% of a, each "Acoes" asset 10% and the cash account 10%; a <= 0 is refused.
   */
  lemma {:induction false} ContributeStep(r: Tree, rf1: real, rf2: real, pe: real, it: real, cc: real, a: real)
    requires IsMain(r, rf1, rf2, pe, it, cc)
    ensures a <= 0.0 ==> SimulateEqual(r, a) == Err(InvalidAmount)
    ensures a > 0.0 ==>
              && SimulateEqual(r, a).Ok?
              && IsMain(SimulateEqual(r, a).value, rf1 + a * 0.35, rf2 + a * 0.35, pe + a * 0.1, it + a * 0.1, cc + a * 0.1)
  {
    var c0, c1, c2 := r.children[0], r.children[1], r.children[2];
    assert c0.children == [c0.children[0], c0.children[1]];
    assert c1.children == [c1.children[0], c1.children[1]];
    assert c2.children == [c2.children[0]];
    CountTwoAssets(c0.children[0], c0.children[1]);
    CountTwoAssets(c1.children[0], c1.children[1]);
    CountOneAsset(c2.children[0]);
    var u := ContributeEqual(r, a);
    assert u.children[0] == SpreadEqual(c0, Share(a, c0)) == CreditAssets(c0, Share(a, c0) / 2.0);
    assert u.children[1] == SpreadEqual(c1, Share(a, c1)) == CreditAssets(c1, Share(a, c1) / 2.0);
    assert u.children[2] == SpreadEqual(c2, Share(a, c2)) == CreditAssets(c2, Share(a, c2) / 1.0);
    assert Share(a, c0) == a * (70.0 / 100.0) && Share(a, c1) == a * (20.0 / 100.0) && Share(a, c2) == a * (10.0 / 100.0);
    RecomputeMain(u, rf1 + a * 0.35, rf2 + a * 0.35, pe + a * 0.1, it + a * 0.1, cc + a * 0.1);
  }

  /** The portfolio after TEST 3: a contribution of amount after PETR4 was set to price. */
  function AfterContribution(initial: real, price: real, amount: real): Tree
  {
    match SimulateEqual(AfterMarket(initial, price), amount)
    case Ok(t) => t
    case Err(_) => AfterMarket(initial, price)
  }

  /**
   * TEST 3 (PETR4 doubled, then a contribution of a tenth of the initial
   * amount): the portfolio grows to 1.2 times the initial amount.
   */
  lemma {:induction false} ContributionState(x: real)
    requires x > 0.0
    ensures IsMain(AfterContribution(x, x * 0.2, x * 0.1), x * 0.385, x * 0.385, x * 0.21, x * 0.11, x * 0.11)
    ensures AfterContribution(x, x * 0.2, x * 0.1).total == x * 1.2
  {
    MarketState(x, x * 0.2);
    var m := AfterMarket(x, x * 0.2);
    ContributeStep(m, x * 0.35, x * 0.35, x * 0.2, x * 0.1, x * 0.1, x * 0.1);
    assert x * 0.35 + x * 0.1 * 0.35 == x * 0.385;
    assert x * 0.2 + x * 0.1 * 0.1 == x * 0.21 && x * 0.1 + x * 0.1 * 0.1 == x * 0.11;
    MainTotals(AfterContribution(x, x * 0.2, x * 0.1), x * 0.385, x * 0.385, x * 0.21, x * 0.11, x * 0.11);
  }

  /** After TEST 3 the balance check still finds "Renda Fixa" below, "Acoes" above and "Caixa" within. */
  lemma {:induction false} ContributionRows(r: Tree, x: real)
    requires x > 0.0
    requires IsMain(r, x * 0.385, x * 0.385, x * 0.21, x * 0.11, x * 0.11)
    ensures r.total == x * 1.2
    ensures var rows := BalanceReport(r);
            |rows| == 3 && rows[0].band == Below && rows[1].band == Above && rows[2].band == Within
  {
    MainTotals(r, x * 0.385, x * 0.385, x * 0.21, x * 0.11, x * 0.11);
    MainRows(r, x * 0.385, x * 0.385, x * 0.21, x * 0.11, x * 0.11);
    Cancel(x, 0.77, 1.2);
    Cancel(x, 0.32, 1.2);
    Cancel(x, 0.11, 1.2);
    assert x * 0.385 + x * 0.385 == x * 0.77 && x * 0.21 + x * 0.11 == x * 0.32;
    var rows := BalanceReport(r);
    assert rows[0].band == Below;
  }

  // ---------------------------------------------------------------------
  // TEST 4 and TEST 5: listar_ativos(carteira, "Acoes"), remover_ativo(carteira, "ITUB4")
  // ---------------------------------------------------------------------

  /** Listing "Acoes" shows PETR4 then ITUB4 with their values, and the category total. */
  lemma {:induction false} ListEquities(r: Tree, rf1: real, rf2: real, pe: real, it: real, cc: real)
    requires IsMain(r, rf1, rf2, pe, it, cc)
    ensures ListAssets(r, "Acoes") == Ok(Listing("Acoes", [Holding("PETR4", pe), Holding("ITUB4", it)], pe + it))
  {
    FindEquities(r, rf1, rf2, pe, it, cc);
    MainTotals(r, rf1, rf2, pe, it, cc);
    assert SubtreeAt(r, [1]) == r.children[1] by { assert [1][1..] == []; }
    assert Holdings(r.children[1].children) == [Holding("PETR4", pe), Holding("ITUB4", it)];
  }

  /**
   * Removing ITUB4 unlinks it from "Acoes", which keeps PETR4 alone; the
   * portfolio loses exactly ITUB4's value and the other categories keep their totals.
   */
  lemma {:induction false} RemoveStep(r: Tree, rf1: real, rf2: real, pe: real, it: real, cc: real)
    requires IsMain(r, rf1, rf2, pe, it, cc)
    ensures RemoveUnlink(r, "ITUB4").Ok?
    ensures var u := RemoveUnlink(r, "ITUB4").value;
            && u.total == rf1 + rf2 + pe + cc && |u.children| == 3
            && u.children[0].name == "Renda Fixa" && u.children[0].target == 70.0 && u.children[0].total == rf1 + rf2
            && u.children[1].name == "Acoes" && u.children[1].target == 20.0 && u.children[1].total == pe
            && u.children[2].name == "Caixa" && u.children[2].target == 10.0 && u.children[2].total == cc
            && |u.children[1].children| == 1 && u.children[1].children[0].name == "PETR4"
  {
    FindItub(r, rf1, rf2, pe, it, cc);
    MainTotals(r, rf1, rf2, pe, it, cc);
    assert SubtreeAt(r, [1, 1]) == r.children[1].children[1] by { assert [1, 1][1..] == [1]; }
    RemoveUnlinkSpec(r, "ITUB4");
    var t := RemoveGrandchild(r, 1, 1);
    var u := Recompute(t);
    assert RemoveUnlink(r, "ITUB4") == Ok(u);
    var c1 := r.children[1];
    assert t.children[1].children == [c1.children[0]];
    RecomputeConsistent(t);
    assert u.children[1] == Recompute(t.children[1]);
    assert u.children[1].children[0] == Recompute(c1.children[0]);
    assert ChildSums(c1.children[0]) == [];
    assert Totals(u.children[1].children) == [pe];
    SumSingle(pe);
    forall k | k == 0 || k == 2
      ensures u.children[k].total == r.children[k].total
    {
      TotalsOkSum(r.children[k]);
      RecomputeConsistent(r.children[k]);
    }
    TotalsOkSum(r);
    assert ChildSums(c1.children[1]) == [];
  }

  /**
   * After TEST 5, atualizar_percentuais reports every category within one
   * point of its target: 70.6%, 19.3% and 10.1% against 70, 20 and 10.
   */
  lemma {:induction false} RemovalStatus(x: real)
    requires x > 0.0
    ensures RemoveUnlink(AfterContribution(x, x * 0.2, x * 0.1), "ITUB4").Ok?
    ensures var u := RemoveUnlink(AfterContribution(x, x * 0.2, x * 0.1), "ITUB4").value;
            && u.total == x * 1.09
            && var rows := PercentReport(u);
               |rows| == 3 && rows[0].band == Within && rows[1].band == Within && rows[2].band == Within
  {
    ContributionState(x);
    var r := AfterContribution(x, x * 0.2, x * 0.1);
    RemoveStep(r, x * 0.385, x * 0.385, x * 0.21, x * 0.11, x * 0.11);
    var u := RemoveUnlink(r, "ITUB4").value;
    assert x * 0.385 + x * 0.385 + x * 0.21 + x * 0.11 == x * 1.09;
    assert x * 0.385 + x * 0.385 == x * 0.77;
    RemovedRows(u, x);
  }

  /** The three status bands of a portfolio holding 77%, 21% and 11% of x against targets 70, 20 and 10. */
  lemma {:induction false} RemovedRows(u: Tree, x: real)
    requires x > 0.0 && u.total == x * 1.09 && |u.children| == 3
    requires u.children[0].target == 70.0 && u.children[0].total == x * 0.77
    requires u.children[1].target == 20.0 && u.children[1].total == x * 0.21
    requires u.children[2].target == 10.0 && u.children[2].total == x * 0.11
    ensures var rows := PercentReport(u);
            |rows| == 3 && rows[0].band == Within && rows[1].band == Within && rows[2].band == Within
  {
    Cancel(x, 0.77, 1.09);
    Cancel(x, 0.21, 1.09);
    Cancel(x, 0.11, 1.09);
  }

  // ---------------------------------------------------------------------
  // main, with its own figures
  // ---------------------------------------------------------------------

  /**
   * main's TEST 1 and TEST 2 with its own figures (x is main's R$ 10000):
   * PETR4 goes from 1000 to 2000 (+100%), the portfolio from 10000 to 11000,
   * and the advice is "buy R$ 700 of Renda Fixa, sell R$ 800 of Acoes".
   */
  lemma {:induction false} MainRunMarket(x: real)
    requires x == 10000.0
    ensures Start(x).total == 10000.0
    ensures UpdateMarket(Start(x), "PETR4", 2000.0) == Ok(MarketUpdate(AfterMarket(x, 2000.0), 1000.0, 100.0))
    ensures AfterMarket(x, 2000.0).total == 11000.0
    ensures NaryAdvice(AfterMarket(x, 2000.0)) == Rebalance([Buy("Renda Fixa", 700.0), Sell("Acoes", 800.0)])
  {
    StartState(x);
    MarketState(x, 2000.0);
    MarketAdvice(AfterMarket(x, 2000.0), x);
  }

  /**
   * main's TEST 3 and TEST 4: R$ 1000 more makes R$ 12000, and "Acoes"
   * lists PETR4 at 2100 and ITUB4 at 1100, R$ 3200 in all.
   */
  lemma {:induction false} MainRunContribution(x: real)
    requires x == 10000.0
    ensures SimulateEqual(AfterMarket(x, 2000.0), 1000.0) == Ok(AfterContribution(x, 2000.0, 1000.0))
    ensures AfterContribution(x, 2000.0, 1000.0).total == 12000.0
    ensures ListAssets(AfterContribution(x, 2000.0, 1000.0), "Acoes") ==
            Ok(Listing("Acoes", [Holding("PETR4", 2100.0), Holding("ITUB4", 1100.0)], 3200.0))
  {
    MarketState(x, 2000.0);
    ContributeStep(AfterMarket(x, 2000.0), 3500.0, 3500.0, 2000.0, 1000.0, 1000.0, 1000.0);
    ContributionState(x);
    ListEquities(AfterContribution(x, 2000.0, 1000.0), 3850.0, 3850.0, 2100.0, 1100.0, 1100.0);
  }

  /** main's TEST 5: removing ITUB4 leaves R$ 10900. */
  lemma {:induction false} MainRunRemoval(x: real)
    requires x == 10000.0
    ensures RemoveUnlink(AfterContribution(x, 2000.0, 1000.0), "ITUB4").Ok?
    ensures RemoveUnlink(AfterContribution(x, 2000.0, 1000.0), "ITUB4").value.total == 10900.0
  {
    RemovalStatus(x);
  }
}
