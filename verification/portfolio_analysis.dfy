/**
 * What the analysis operations of both variants compute, stated on the
 * abstract tree: percentage bands (detectar_desbalanceamento and
 * atualizar_percentuais), rebalancing advice (sugerir_rebalanceamento),
 * contribution splits (simular_aporte), market updates
 * (atualizar_valores_mercado), asset removal (remover_ativo), category
 * listings (listar_ativos) and the profile presets (criar_carteira_perfil).
 * Money and percentages are exact reals here; the C code uses float.
 */
module PortfolioAnalysis {
  import opened PortfolioSpec

  /** tolerancia in detectar_desbalanceamento and sugerir_rebalanceamento. */
  const Tolerance: real := 2.0
  /** The separate status threshold of atualizar_percentuais. */
  const StatusThreshold: real := 1.0
  /** char nome[64]: criar_no keeps at most 63 characters. */
  const NameCapacity: nat := 63
  /** char nome[50] of the advice table in Main.c: 49 characters. */
  const AdviceNameCapacity: nat := 49

  /** The failure messages of the C functions, as values. */
  datatype Error = EmptyPortfolio | NotFound | NotAnAsset | NotACategory | ParentNotFound | InvalidAmount

  datatype Result<T> = Ok(value: T) | Err(error: Error)

  /** strncpy(dst, src, n) followed by dst[n] = '\0'. */
  function Truncate(s: string, n: nat): (r: string)
    ensures |r| <= n && r <= s
    ensures |s| <= n ==> r == s
    ensures |s| > n ==> |r| == n
  {
    if |s| <= n then s else s[..n]
  }

  function Abs(x: real): real
  {
    if x < 0.0 then -x else x
  }

  // ---------------------------------------------------------------------
  // Percentages and bands
  // ---------------------------------------------------------------------

  /** percentual_atual = valor_total / total * 100. */
  function ActualPercent(value: real, total: real): real
    requires total != 0.0
  {
    value / total * 100.0
  }

  /** diferenca = percentual_atual - percentual_alvo. */
  function Deviation(c: Tree, total: real): real
    requires total != 0.0
  {
    ActualPercent(c.total, total) - c.target
  }

  datatype Band = Above | Below | Within

  /** detectar_desbalanceamento: out of band when fabs(diff) > 2.0, then above or below by sign. */
  function BalanceBand(diff: real): (b: Band)
    ensures b == Above <==> diff > Tolerance
    ensures b == Below <==> diff < -Tolerance
    ensures b == Within <==> -Tolerance <= diff <= Tolerance
  {
    if Abs(diff) > Tolerance then (if diff > 0.0 then Above else Below) else Within
  }

  /** atualizar_percentuais: "Acima" above +1.0, "Abaixo" below -1.0, otherwise "OK". */
  function StatusBand(diff: real): (b: Band)
    ensures b == Above <==> diff > StatusThreshold
    ensures b == Below <==> diff < -StatusThreshold
    ensures b == Within <==> -StatusThreshold <= diff <= StatusThreshold
  {
    if diff > StatusThreshold then Above else if diff < -StatusThreshold then Below else Within
  }

  /** The status label is the stricter one: whatever the balance check flags, it flags the same way. */
  lemma {:induction false} StatusIsStricter(diff: real)
    ensures BalanceBand(diff) != Within ==> StatusBand(diff) == BalanceBand(diff)
    ensures StatusBand(diff) == Within ==> BalanceBand(diff) == Within
  {
  }

  /** The two thresholds are distinct: 1.5 points is "above" for the status and within tolerance for balance. */
  lemma {:induction false} ThresholdsDiffer()
    ensures StatusBand(1.5) == Above && BalanceBand(1.5) == Within
  {
  }

  /** One printed block per category: name, target, actual percentage, value and band. */
  datatype CategoryReport = CategoryReport(name: string, target: real, actual: real, value: real, band: Band)

  /** The per-category analysis of detectar_desbalanceamento over root children, using the root total. */
  function BalanceReport(r: Tree): seq<CategoryReport>
    requires r.total != 0.0
  {
    seq(|r.children|, i requires 0 <= i < |r.children| =>
      var c := r.children[i];
      CategoryReport(c.name, c.target, ActualPercent(c.total, r.total), c.total, BalanceBand(Deviation(c, r.total))))
  }

  /** The per-category status lines of atualizar_percentuais. */
  function PercentReport(r: Tree): seq<CategoryReport>
    requires r.total != 0.0
  {
    seq(|r.children|, i requires 0 <= i < |r.children| =>
      var c := r.children[i];
      CategoryReport(c.name, c.target, ActualPercent(c.total, r.total), c.total, StatusBand(Deviation(c, r.total))))
  }

  /** The flag `desbalanceado`: some row is out of band. */
  predicate Unbalanced(rows: seq<CategoryReport>)
  {
    exists i :: 0 <= i < |rows| && rows[i].band != Within
  }

  /** The portfolio is balanced exactly when every category's deviation lies within [-2, 2]. */
  lemma {:induction false} BalancedIff(r: Tree)
    requires r.total != 0.0
    ensures !Unbalanced(BalanceReport(r)) <==>
              forall i :: 0 <= i < |r.children| ==> -Tolerance <= Deviation(r.children[i], r.total) <= Tolerance
  {
    var rows := BalanceReport(r);
    if !Unbalanced(rows) {
      forall i | 0 <= i < |r.children|
        ensures -Tolerance <= Deviation(r.children[i], r.total) <= Tolerance
      {
        assert rows[i].band == Within;
      }
    }
  }

  // ---------------------------------------------------------------------
  // Rebalancing advice: sugerir_rebalanceamento
  // ---------------------------------------------------------------------

  datatype Action = Sell(category: string, amount: real) | Buy(category: string, amount: real)

  datatype Advice = AlreadyBalanced | Rebalance(actions: seq<Action>)

  /** diferenca_reais = valor_total - total * alvo / 100. */
  function ValueGap(c: Tree, total: real): real
  {
    c.total - total * (c.target / 100.0)
  }

  /** The currency threshold total * 2 / 100. */
  function ValueThreshold(total: real): real
  {
    total * Tolerance / 100.0
  }

  /** SELL the gap when it exceeds the threshold, else BUY its opposite when below minus the threshold. */
  function ActionFor(c: Tree, total: real): (a: Option<Action>)
    ensures a.Some? && a.value.Sell? ==> a.value == Sell(c.name, ValueGap(c, total)) && ValueGap(c, total) > ValueThreshold(total)
    ensures a.Some? && a.value.Buy? ==> a.value == Buy(c.name, -ValueGap(c, total)) && ValueGap(c, total) < -ValueThreshold(total)
    ensures a.None? <==> -ValueThreshold(total) <= ValueGap(c, total) <= ValueThreshold(total)
  {
    var gap := ValueGap(c, total);
    if gap > ValueThreshold(total) then Some(Sell(c.name, gap))
    else if gap < -ValueThreshold(total) then Some(Buy(c.name, -gap))
    else None
  }

  /** The action lines, category by category in order. */
  function CategoryActions(cs: seq<Tree>, total: real): seq<Action>
  {
    if cs == [] then []
    else
      CategoryActions(cs[..|cs| - 1], total) +
      match ActionFor(cs[|cs| - 1], total) case Some(a) => [a] case None => []
  }

  lemma CategoryActionsStep(cs: seq<Tree>, total: real, i: nat)
    requires i < |cs|
    ensures CategoryActions(cs[..i + 1], total) ==
            CategoryActions(cs[..i], total) + match ActionFor(cs[i], total) case Some(a) => [a] case None => []
  {
    assert cs[..i + 1][..i] == cs[..i];
  }

  /** Main.c's precheck: some category deviates by more than 2.0 points. */
  predicate NeedsRebalance(r: Tree)
    requires r.total != 0.0
  {
    exists i :: 0 <= i < |r.children| && Abs(Deviation(r.children[i], r.total)) > Tolerance
  }

  /** Main.c copies names into char[50] before printing. */
  function AdviceNames(cs: seq<Tree>): seq<Tree>
  {
    seq(|cs|, i requires 0 <= i < |cs| => cs[i].(name := Truncate(cs[i].name, AdviceNameCapacity)))
  }

  /** Main.c: "already balanced" unless the percentage precheck fires, then the value-threshold lines. */
  function NaryAdvice(r: Tree): Advice
    requires r.total != 0.0
  {
    if !NeedsRebalance(r) then AlreadyBalanced
    else Rebalance(CategoryActions(AdviceNames(r.children), r.total))
  }

  /** src/Gabriel.c: the flag is set by the lines themselves; "already balanced" iff none was emitted. */
  function BinaryAdvice(r: Tree): Advice
  {
    var acts := CategoryActions(r.children, r.total);
    if acts == [] then AlreadyBalanced else Rebalance(acts)
  }

  /** No category yields both a SELL and a BUY: at most one line per category. */
  lemma {:induction false} AtMostOneActionPerCategory(cs: seq<Tree>, total: real)
    ensures |CategoryActions(cs, total)| <= |cs|
    ensures CategoryActions(cs, total) == [] <==> forall i :: 0 <= i < |cs| ==> ActionFor(cs[i], total).None?
  {
    if cs != [] {
      var n := |cs| - 1;
      AtMostOneActionPerCategory(cs[..n], total);
      if ActionFor(cs[n], total).None? {
        forall i | 0 <= i < |cs| && CategoryActions(cs, total) == []
          ensures ActionFor(cs[i], total).None?
        {
          if i < n { assert cs[i] == cs[..n][i]; }
        }
      }
    }
  }

  /**
   * With a positive total, the value threshold and the percentage tolerance
   * agree: a category gets a line exactly when its deviation exceeds 2.0.
   */
  lemma {:induction false} ThresholdsAgree(c: Tree, total: real)
    requires total > 0.0
    ensures ActionFor(c, total).Some? <==> Abs(Deviation(c, total)) > Tolerance
  {
    var gap := ValueGap(c, total);
    var dev := Deviation(c, total);
    var v, a := c.total, c.target;
    calc {
      dev * total;
      (v / total * 100.0 - a) * total;
      v / total * total * 100.0 - a * total;
      { assert v / total * total == v; }
      v * 100.0 - a * total;
      (v - total * (a / 100.0)) * 100.0;
      gap * 100.0;
    }
    var th := ValueThreshold(total);
    assert (gap - th) * 100.0 == (dev - Tolerance) * total;
    assert (gap + th) * 100.0 == (dev + Tolerance) * total;
    SameSign(dev - Tolerance, total, gap - th, 100.0);
    SameSign(dev + Tolerance, total, gap + th, 100.0);
  }

  /** Two quantities whose scalings by positive factors agree have the same sign. */
  lemma {:induction false} SameSign(x: real, k: real, y: real, m: real)
    requires k > 0.0 && m > 0.0 && x * k == y * m
    ensures x > 0.0 <==> y > 0.0
    ensures x < 0.0 <==> y < 0.0
  {
    SignMul(x, k);
    SignMul(y, m);
  }

  /** Multiplying by a positive factor keeps the sign. */
  lemma {:induction false} SignMul(x: real, k: real)
    requires k > 0.0
    ensures x * k > 0.0 <==> x > 0.0
    ensures x * k < 0.0 <==> x < 0.0
  {
    if x > 0.0 { assert x * k > 0.0; }
    if x < 0.0 { assert (-x) * k > 0.0; }
  }

  /** Names unchanged by the char[50] copy leave the rows as they were. */
  lemma {:induction false} AdviceNamesShort(cs: seq<Tree>)
    requires forall i :: 0 <= i < |cs| ==> |cs[i].name| <= AdviceNameCapacity
    ensures AdviceNames(cs) == cs
  {
  }

  lemma {:induction false} ActionsPerCategory(cs: seq<Tree>, ds: seq<Tree>, total: real)
    requires |cs| == |ds|
    requires forall i :: 0 <= i < |cs| ==> ActionFor(cs[i], total).Some? == ActionFor(ds[i], total).Some?
    ensures CategoryActions(cs, total) == [] <==> CategoryActions(ds, total) == []
  {
    AtMostOneActionPerCategory(cs, total);
    AtMostOneActionPerCategory(ds, total);
  }

  /**
   * With a positive total, Main.c's advice is "already balanced" exactly when
   * no category would get a line, and otherwise it lists at least one line.
   */
  lemma {:induction false} NaryAdviceConsistent(r: Tree)
    requires r.total > 0.0
    ensures NaryAdvice(r) == AlreadyBalanced <==> CategoryActions(r.children, r.total) == []
    ensures NaryAdvice(r).Rebalance? ==> NaryAdvice(r).actions != []
  {
    var cs := r.children;
    var ns := AdviceNames(cs);
    forall i | 0 <= i < |cs|
      ensures ActionFor(cs[i], r.total).Some? <==> Abs(Deviation(cs[i], r.total)) > Tolerance
      ensures ActionFor(ns[i], r.total).Some? == ActionFor(cs[i], r.total).Some?
    {
      ThresholdsAgree(cs[i], r.total);
    }
    ActionsPerCategory(cs, ns, r.total);
    AtMostOneActionPerCategory(cs, r.total);
  }

  /** With a positive total and names of at most 49 characters, both variants give the same advice. */
  lemma {:induction false} NaryAgreesWithBinary(r: Tree)
    requires r.total > 0.0
    requires forall i :: 0 <= i < |r.children| ==> |r.children[i].name| <= AdviceNameCapacity
    ensures NaryAdvice(r) == BinaryAdvice(r)
  {
    NaryAdviceConsistent(r);
    AdviceNamesShort(r.children);
  }

  /** Main.c's precheck is the same test as detectar_desbalanceamento's verdict. */
  lemma {:induction false} PrecheckIsDetect(r: Tree)
    requires r.total != 0.0
    ensures NeedsRebalance(r) <==> Unbalanced(BalanceReport(r))
  {
    var rows := BalanceReport(r);
    if NeedsRebalance(r) {
      var i :| 0 <= i < |r.children| && Abs(Deviation(r.children[i], r.total)) > Tolerance;
      assert rows[i].band != Within;
    }
  }

  // ---------------------------------------------------------------------
  // Contributions: simular_aporte
  // ---------------------------------------------------------------------

  /** count_ativos: the ATIVO nodes among cs. */
  function CountAssets(cs: seq<Tree>): nat
  {
    if cs == [] then 0 else CountAssets(cs[..|cs| - 1]) + (if cs[|cs| - 1].kind == Asset then 1 else 0)
  }

  lemma CountAssetsStep(cs: seq<Tree>, j: nat)
    requires j < |cs|
    ensures CountAssets(cs[..j + 1]) == CountAssets(cs[..j]) + (if cs[j].kind == Asset then 1 else 0)
  {
    assert cs[..j + 1][..j] == cs[..j];
  }

  /** valor_categoria = aporte * (alvo / 100). */
  function Share(amount: real, c: Tree): real
  {
    amount * (c.target / 100.0)
  }

  /** Add `per` to every ATIVO child of c; other children are untouched. */
  function CreditAssets(c: Tree, per: real): Tree
  {
    c.(children := seq(|c.children|, j requires 0 <= j < |c.children| =>
         var a := c.children[j];
         if a.kind == Asset then a.(invested := a.invested + per) else a))
  }

  /** Main.c: the category's share split equally among its ATIVO children (nothing if there is none). */
  function SpreadEqual(c: Tree, share: real): Tree
  {
    var n := CountAssets(c.children);
    CreditAssets(c, if n > 0 then share / n as real else 0.0)
  }

  /** src/Gabriel.c: each ATIVO child gets half of the category's share, whatever their number. */
  function SpreadHalf(c: Tree, share: real): Tree
  {
    CreditAssets(c, share / 2.0)
  }

  /** The tree after Main.c's distribution loop, before totals are recomputed. */
  function ContributeEqual(t: Tree, amount: real): Tree
  {
    t.(children := seq(|t.children|, i requires 0 <= i < |t.children| =>
         SpreadEqual(t.children[i], Share(amount, t.children[i]))))
  }

  /** The tree after src/Gabriel.c's distribution, before totals are recomputed. */
  function ContributeHalf(t: Tree, amount: real): Tree
  {
    t.(children := seq(|t.children|, i requires 0 <= i < |t.children| =>
         SpreadHalf(t.children[i], Share(amount, t.children[i]))))
  }

  /** simular_aporte of Main.c: reject a non-positive amount, else distribute and recompute. */
  function SimulateEqual(t: Tree, amount: real): Result<Tree>
  {
    if amount <= 0.0 then Err(InvalidAmount) else Ok(Recompute(ContributeEqual(t, amount)))
  }

  /** simular_aporte of src/Gabriel.c. */
  function SimulateHalf(t: Tree, amount: real): Result<Tree>
  {
    if amount <= 0.0 then Err(InvalidAmount) else Ok(Recompute(ContributeHalf(t, amount)))
  }

  /** The increments of CreditAssets, child by child. */
  function Credits(cs: seq<Tree>, per: real): seq<real>
  {
    seq(|cs|, j requires 0 <= j < |cs| => if cs[j].kind == Asset then per else 0.0)
  }

  lemma {:induction false} CreditsSum(cs: seq<Tree>, per: real)
    ensures Sum(Credits(cs, per)) == CountAssets(cs) as real * per
    decreases |cs|
  {
    if cs != [] {
      var n := |cs| - 1;
      assert Credits(cs, per)[..n] == Credits(cs[..n], per);
      CreditsSum(cs[..n], per);
    }
  }

  lemma {:induction false} AddInvestedSum(a: Tree, x: real)
    ensures SubtreeSum(a.(invested := a.invested + x)) == SubtreeSum(a) + x
  {
    assert ChildSums(a.(invested := a.invested + x)) == ChildSums(a);
  }

  /** Crediting `per` to each asset child raises the subtree sum by per times their number. */
  lemma {:induction false} CreditAssetsSum(c: Tree, per: real)
    ensures SubtreeSum(CreditAssets(c, per)) == SubtreeSum(c) + CountAssets(c.children) as real * per
  {
    var d := CreditAssets(c, per);
    var xs, ds, ys := ChildSums(c), Credits(c.children, per), ChildSums(d);
    assert |xs| == |ds| == |ys|;
    forall j | 0 <= j < |ys|
      ensures ys[j] == xs[j] + ds[j]
    {
      var a := c.children[j];
      assert ys[j] == SubtreeSum(d.children[j]);
      if a.kind == Asset {
        assert d.children[j] == a.(invested := a.invested + per);
        AddInvestedSum(a, per);
      } else {
        assert d.children[j] == a;
      }
    }
    SumPlus(xs, ds, ys);
    CreditsSum(c.children, per);
    assert SubtreeSum(d) == c.invested + Sum(ys);
  }

  /** A category with at least one asset child gains exactly its share; one without gains nothing. */
  lemma {:induction false} SpreadEqualSum(c: Tree, share: real)
    ensures SubtreeSum(SpreadEqual(c, share)) == SubtreeSum(c) + (if CountAssets(c.children) > 0 then share else 0.0)
  {
    var n := CountAssets(c.children);
    CreditAssetsSum(c, if n > 0 then share / n as real else 0.0);
  }

  /** In the binary variant a category gains half its share per asset child. */
  lemma {:induction false} SpreadHalfSum(c: Tree, share: real)
    ensures SubtreeSum(SpreadHalf(c, share)) == SubtreeSum(c) + CountAssets(c.children) as real * (share / 2.0)
  {
    assert SpreadHalf(c, share) == CreditAssets(c, share / 2.0);
    CreditAssetsSum(c, share / 2.0);
  }

  /** The shares that Main.c actually credits: categories with at least one asset child. */
  function FundedShares(cs: seq<Tree>, amount: real): seq<real>
  {
    seq(|cs|, i requires 0 <= i < |cs| => if CountAssets(cs[i].children) > 0 then Share(amount, cs[i]) else 0.0)
  }

  /**
   * Main.c's contribution raises the portfolio total by the sum of the
   * shares of the categories that have an asset child.
   */
  lemma {:induction false} ContributeEqualSum(t: Tree, amount: real)
    ensures SubtreeSum(ContributeEqual(t, amount)) == SubtreeSum(t) + Sum(FundedShares(t.children, amount))
  {
    var u := ContributeEqual(t, amount);
    forall i | 0 <= i < |t.children|
      ensures ChildSums(u)[i] == ChildSums(t)[i] + FundedShares(t.children, amount)[i]
    {
      SpreadEqualSum(t.children[i], Share(amount, t.children[i]));
    }
    SumPlus(ChildSums(t), FundedShares(t.children, amount), ChildSums(u));
  }

  /** The category targets. */
  function Targets(cs: seq<Tree>): seq<real>
  {
    seq(|cs|, i requires 0 <= i < |cs| => cs[i].target)
  }

  lemma {:induction false} SumScale(xs: seq<real>, ys: seq<real>, k: real)
    requires |xs| == |ys|
    requires forall i :: 0 <= i < |xs| ==> ys[i] == k * xs[i]
    ensures Sum(ys) == k * Sum(xs)
    decreases |xs|
  {
    if xs != [] {
      var n := |xs| - 1;
      SumScale(xs[..n], ys[..n], k);
    }
  }

  /**
   * When every category holds an asset and the targets sum to 100, the
   * contribution is conserved: the total grows by exactly the amount.
   */
  lemma {:induction false} ContributionConserved(t: Tree, amount: real)
    requires forall i :: 0 <= i < |t.children| ==> CountAssets(t.children[i].children) > 0
    requires Sum(Targets(t.children)) == 100.0
    ensures SubtreeSum(ContributeEqual(t, amount)) == SubtreeSum(t) + amount
  {
    ContributeEqualSum(t, amount);
    SumScale(Targets(t.children), FundedShares(t.children, amount), amount / 100.0);
  }

  /** Binary contribution: the total grows by half a share per asset child of each category. */
  function HalfCredits(cs: seq<Tree>, amount: real): seq<real>
  {
    seq(|cs|, i requires 0 <= i < |cs| => CountAssets(cs[i].children) as real * (Share(amount, cs[i]) / 2.0))
  }

  lemma {:induction false} ContributeHalfSum(t: Tree, amount: real)
    ensures SubtreeSum(ContributeHalf(t, amount)) == SubtreeSum(t) + Sum(HalfCredits(t.children, amount))
  {
    var u := ContributeHalf(t, amount);
    forall i | 0 <= i < |t.children|
      ensures ChildSums(u)[i] == ChildSums(t)[i] + HalfCredits(t.children, amount)[i]
    {
      SpreadHalfSum(t.children[i], Share(amount, t.children[i]));
    }
    SumPlus(ChildSums(t), HalfCredits(t.children, amount), ChildSums(u));
  }

  /** A binary category with exactly two asset children gains exactly its share. */
  lemma {:induction false} TwoAssetsGainShare(c: Tree, share: real)
    requires CountAssets(c.children) == 2
    ensures SubtreeSum(SpreadHalf(c, share)) == SubtreeSum(c) + share
  {
    SpreadHalfSum(c, share);
  }

  /** Contributions change values only: names, kinds and structure stay. */
  lemma {:induction false} CreditAssetsShape(c: Tree, per: real)
    ensures SameShape(CreditAssets(c, per), c)
  {
    forall j | 0 <= j < |c.children|
      ensures SameShape(CreditAssets(c, per).children[j], c.children[j])
    {
      var a := c.children[j];
      SameShapeRefl(a);
      if a.kind == Asset {
        forall k | 0 <= k < |a.children| ensures SameShape(a.children[k], a.children[k]) {
          SameShapeRefl(a.children[k]);
        }
      }
    }
  }

  lemma {:induction false} ContributeEqualShape(t: Tree, amount: real)
    ensures SameShape(ContributeEqual(t, amount), t)
  {
    forall i | 0 <= i < |t.children|
      ensures SameShape(ContributeEqual(t, amount).children[i], t.children[i])
    {
      var c := t.children[i];
      CreditAssetsShape(c, if CountAssets(c.children) > 0 then Share(amount, c) / CountAssets(c.children) as real else 0.0);
    }
  }

  // ---------------------------------------------------------------------
  // Market update: atualizar_valores_mercado
  // ---------------------------------------------------------------------

  /** variacao: 0 when the old value is 0, otherwise the relative change in percent. */
  function Variation(before: real, after: real): real
  {
    if before != 0.0 then (after - before) / before * 100.0 else 0.0
  }

  datatype MarketUpdate = MarketUpdate(tree: Tree, previous: real, variation: real)

  function UpdateMarket(t: Tree, key: string, v: real): Result<MarketUpdate>
  {
    match FindPath(t, key)
    case None => Err(NotFound)
    case Some(p) =>
      if SubtreeAt(t, p).kind != Asset then Err(NotAnAsset)
      else
        var before := SubtreeAt(t, p).invested;
        Ok(MarketUpdate(Recompute(SetInvestedAt(t, p, v)), before, Variation(before, v)))
  }

  /**
   * The market update fails exactly when the name is missing or names a
   * non-asset; on success the asset's value becomes v, the new total moves
   * by v minus the old value, and lookups are unaffected.
   */
  lemma {:induction false} UpdateMarketSpec(t: Tree, key: string, v: real)
    ensures UpdateMarket(t, key, v) == Err(NotFound) <==> FindPath(t, key).None?
    ensures UpdateMarket(t, key, v) == Err(NotAnAsset) <==>
              FindPath(t, key).Some? && SubtreeAt(t, FindPath(t, key).value).kind != Asset
    ensures UpdateMarket(t, key, v).Ok? <==>
              FindPath(t, key).Some? && SubtreeAt(t, FindPath(t, key).value).kind == Asset
    ensures UpdateMarket(t, key, v).Ok? ==>
              var u := UpdateMarket(t, key, v).value;
              var p := FindPath(t, key).value;
              && u.previous == SubtreeAt(t, p).invested
              && u.tree.total == SubtreeSum(t) - u.previous + v
              && TotalsOk(u.tree)
              && ValidPath(u.tree, p)
              && SubtreeAt(u.tree, p).invested == v
              && FindPath(u.tree, key) == FindPath(t, key)
  {
    FindPathFindsName(t, key);
    if FindPath(t, key).Some? {
      var p := FindPath(t, key).value;
      var s := SetInvestedAt(t, p, v);
      SetInvestedSum(t, p, v);
      RecomputeConsistent(s);
      SetInvestedShape(t, p, v);
      RecomputeShape(s);
      SameShapeTrans(Recompute(s), s, t);
      SameShapeFind(Recompute(s), t, key);
      ReplaceAtPath(t, p, SubtreeAt(t, p).(invested := v));
      RecomputeAtPath(s, p);
    }
  }

  lemma {:induction false} RecomputeAtPath(t: Tree, p: seq<nat>)
    requires ValidPath(t, p)
    ensures ValidPath(Recompute(t), p) && SubtreeAt(Recompute(t), p) == Recompute(SubtreeAt(t, p))
    decreases p
  {
    if p != [] {
      RecomputeAtPath(t.children[p[0]], p[1..]);
    }
  }

  /** Setting an asset to its current value reports no variation and leaves the total unchanged. */
  lemma {:induction false} UpdateToSameValue(t: Tree, key: string)
    requires FindPath(t, key).Some?
    requires SubtreeAt(t, FindPath(t, key).value).kind == Asset
    ensures var v := SubtreeAt(t, FindPath(t, key).value).invested;
            UpdateMarket(t, key, v).Ok? &&
            UpdateMarket(t, key, v).value.variation == 0.0 &&
            UpdateMarket(t, key, v).value.tree.total == SubtreeSum(t)
  {
    FindPathFindsName(t, key);
    var v := SubtreeAt(t, FindPath(t, key).value).invested;
    UpdateMarketSpec(t, key, v);
  }

  // ---------------------------------------------------------------------
  // Removal: remover_ativo
  // ---------------------------------------------------------------------

  /** Delete child j of root child i, keeping the others in order. */
  function RemoveGrandchild(t: Tree, i: nat, j: nat): Tree
    requires i < |t.children| && j < |t.children[i].children|
  {
    var c := t.children[i];
    t.(children := t.children[i := c.(children := c.children[..j] + c.children[j + 1..])])
  }

  /**
   * Main.c / luis.c: the name must resolve to an ATIVO that is a child of a
   * root child (the parent search looks only there); it is unlinked and
   * totals are recomputed.
   */
  function RemoveUnlink(t: Tree, key: string): Result<Tree>
  {
    match FindPath(t, key)
    case None => Err(NotFound)
    case Some(p) =>
      if SubtreeAt(t, p).kind != Asset then Err(NotAnAsset)
      else if |p| != 2 then Err(ParentNotFound)
      else
        assert ValidPath(t.children[p[0]], p[1..]) && p[1..][0] == p[1];
        Ok(Recompute(RemoveGrandchild(t, p[0], p[1])))
  }

  /** src/luis.c: the asset stays in the tree with valor_investido set to 0. */
  function RemoveZero(t: Tree, key: string): Result<Tree>
  {
    match FindPath(t, key)
    case None => Err(NotFound)
    case Some(p) =>
      if SubtreeAt(t, p).kind != Asset then Err(NotAnAsset)
      else Ok(Recompute(SetInvestedAt(t, p, 0.0)))
  }

  /**
   * A successful unlinking removal drops exactly the removed asset's subtree
   * sum from the total, and the category keeps its other children in order.
   */
  lemma {:induction false} RemoveUnlinkSpec(t: Tree, key: string)
    ensures RemoveUnlink(t, key).Ok? <==>
              && FindPath(t, key).Some?
              && SubtreeAt(t, FindPath(t, key).value).kind == Asset
              && |FindPath(t, key).value| == 2
    ensures RemoveUnlink(t, key).Ok? ==>
              var p := FindPath(t, key).value;
              && p[1..][0] == p[1] && ValidPath(t.children[p[0]], p[1..])
              && SubtreeAt(t, p).name == key
              && RemoveUnlink(t, key).value.total == SubtreeSum(t) - SubtreeSum(SubtreeAt(t, p))
              && RemoveUnlink(t, key).value.children[p[0]].children ==
                 Recompute(t.children[p[0]]).children[..p[1]] + Recompute(t.children[p[0]]).children[p[1] + 1..]
    ensures RemoveUnlink(t, key) == Err(NotFound) <==> FindPath(t, key).None?
    ensures RemoveUnlink(t, key) == Err(NotAnAsset) <==>
              FindPath(t, key).Some? && SubtreeAt(t, FindPath(t, key).value).kind != Asset
    ensures RemoveUnlink(t, key) == Err(ParentNotFound) <==>
              && FindPath(t, key).Some?
              && SubtreeAt(t, FindPath(t, key).value).kind == Asset
              && |FindPath(t, key).value| != 2
  {
    FindPathFindsName(t, key);
    if RemoveUnlink(t, key).Ok? {
      var p := FindPath(t, key).value;
      assert ValidPath(t.children[p[0]], p[1..]) && p[1..][0] == p[1] && p[1..][1..] == [];
      var i, j := p[0], p[1];
      assert SubtreeAt(t, p) == SubtreeAt(t.children[i], p[1..]);
      assert SubtreeAt(t.children[i], p[1..]) == SubtreeAt(t.children[i].children[j], []);
      RemoveGrandchildSum(t, i, j);
      RecomputeConsistent(RemoveGrandchild(t, i, j));
      RecomputeDropChild(t.children[i], j);
    }
  }

  /** Unlinking a grandchild drops exactly its subtree sum. */
  lemma {:induction false} RemoveGrandchildSum(t: Tree, i: nat, j: nat)
    requires i < |t.children| && j < |t.children[i].children|
    ensures SubtreeSum(RemoveGrandchild(t, i, j)) == SubtreeSum(t) - SubtreeSum(t.children[i].children[j])
  {
    var c := t.children[i];
    var c' := c.(children := c.children[..j] + c.children[j + 1..]);
    var u := RemoveGrandchild(t, i, j);
    assert ChildSums(c') == ChildSums(c)[..j] + ChildSums(c)[j + 1..];
    SumRemove(ChildSums(c), j);
    assert ChildSums(u) == ChildSums(t)[i := SubtreeSum(c')];
    SumUpdate(ChildSums(t), i, SubtreeSum(c'));
  }

  /** Recomputing after dropping child j keeps the other recomputed children in order. */
  lemma {:induction false} RecomputeDropChild(c: Tree, j: nat)
    requires j < |c.children|
    ensures Recompute(c.(children := c.children[..j] + c.children[j + 1..])).children ==
            Recompute(c).children[..j] + Recompute(c).children[j + 1..]
  {
  }

  /**
   * src/luis.c's removal is a market update to 0: the tree keeps its shape
   * and the removed name is still found at the same place.
   */
  lemma {:induction false} RemoveZeroIsUpdateToZero(t: Tree, key: string)
    ensures RemoveZero(t, key).Ok? <==> UpdateMarket(t, key, 0.0).Ok?
    ensures RemoveZero(t, key).Ok? ==>
              && RemoveZero(t, key).value == UpdateMarket(t, key, 0.0).value.tree
              && SameShape(RemoveZero(t, key).value, t)
              && FindPath(RemoveZero(t, key).value, key) == FindPath(t, key)
    ensures RemoveZero(t, key).Err? ==> RemoveZero(t, key).error == UpdateMarket(t, key, 0.0).error
  {
    UpdateMarketSpec(t, key, 0.0);
    if RemoveZero(t, key).Ok? {
      var p := FindPath(t, key).value;
      var s := SetInvestedAt(t, p, 0.0);
      SetInvestedShape(t, p, 0.0);
      RecomputeShape(s);
      SameShapeTrans(Recompute(s), s, t);
    }
  }

  // ---------------------------------------------------------------------
  // Listing: listar_ativos
  // ---------------------------------------------------------------------

  datatype Holding = Holding(name: string, invested: real)

  /** The category's name, its children's names and values in order, and its cached total. */
  datatype Listing = Listing(category: string, holdings: seq<Holding>, total: real)

  function Holdings(cs: seq<Tree>): seq<Holding>
  {
    seq(|cs|, i requires 0 <= i < |cs| => Holding(cs[i].name, cs[i].invested))
  }

  function ListAssets(t: Tree, key: string): Result<Listing>
  {
    match FindPath(t, key)
    case None => Err(NotFound)
    case Some(p) =>
      if SubtreeAt(t, p).kind != Category then Err(NotACategory)
      else
        var c := SubtreeAt(t, p);
        Ok(Listing(c.name, Holdings(c.children), c.total))
  }

  /** Listing fails exactly on a missing name or a non-category; otherwise one line per child, in order. */
  lemma {:induction false} ListAssetsSpec(t: Tree, key: string)
    ensures ListAssets(t, key) == Err(NotFound) <==> FindPath(t, key).None?
    ensures ListAssets(t, key) == Err(NotACategory) <==>
              FindPath(t, key).Some? && SubtreeAt(t, FindPath(t, key).value).kind != Category
    ensures ListAssets(t, key).Ok? ==>
              var l := ListAssets(t, key).value;
              var c := SubtreeAt(t, FindPath(t, key).value);
              && l.category == key && c.kind == Category
              && |l.holdings| == |c.children| && l.total == c.total
              && forall i :: 0 <= i < |c.children| ==>
                   l.holdings[i].name == c.children[i].name && l.holdings[i].invested == c.children[i].invested
  {
    FindPathFindsName(t, key);
  }

  // ---------------------------------------------------------------------
  // Profile presets: criar_carteira_perfil
  // ---------------------------------------------------------------------

  datatype Targets3 = Targets3(fixedIncome: real, equities: real, cash: real)

  /** Main.c / luis.c targets; an unknown profile gets the MODERADO targets. */
  function ProfileTargets3(profile: string): (r: Targets3)
    ensures r.fixedIncome + r.equities + r.cash == 100.0
    ensures r.cash == 10.0 && r.fixedIncome > 0.0 && r.equities > 0.0
  {
    if profile == "CONSERVADOR" then Targets3(70.0, 20.0, 10.0)
    else if profile == "MODERADO" then Targets3(50.0, 40.0, 10.0)
    else if profile == "ARROJADO" then Targets3(20.0, 70.0, 10.0)
    else Targets3(50.0, 40.0, 10.0)
  }

  datatype Targets2 = Targets2(fixedIncome: real, equities: real)

  /** src/luis.c targets: two categories; an unknown profile gets 50/50. */
  function ProfileTargets2(profile: string): (r: Targets2)
    ensures r.fixedIncome + r.equities == 100.0
    ensures r.fixedIncome > 0.0 && r.equities > 0.0
  {
    if profile == "CONSERVADOR" then Targets2(70.0, 30.0)
    else if profile == "MODERADO" then Targets2(50.0, 50.0)
    else if profile == "ARROJADO" then Targets2(30.0, 70.0)
    else Targets2(50.0, 50.0)
  }

  /** Any name other than the three profiles gets the MODERADO targets, in both variants. */
  lemma {:induction false} UnknownProfileIsModerate(profile: string)
    requires profile != "CONSERVADOR" && profile != "MODERADO" && profile != "ARROJADO"
    ensures ProfileTargets3(profile) == ProfileTargets3("MODERADO")
    ensures ProfileTargets2(profile) == ProfileTargets2("MODERADO")
  {
  }

  /** A node as criar_no leaves it, with no children. */
  function Leaf(name: string, kind: Kind, target: real, invested: real): Tree
  {
    Tree(name, kind, target, invested, 0.0, [])
  }

  function CategoryNode(name: string, target: real, assets: seq<Tree>): Tree
  {
    Tree(name, Kind.Category, target, 0.0, 0.0, assets)
  }

  /** A category holding two assets of equal value, as each category of the binary preset does. */
  function PairCategory(name: string, target: real, first: string, second: string, value: real): Tree
  {
    CategoryNode(name, target, [Leaf(first, Asset, 0.0, value), Leaf(second, Asset, 0.0, value)])
  }

  /** The three-category portfolio before totals are computed; the equity category's name differs between Main.c and luis.c. */
  function RawProfileTree3(initial: real, profile: string, equityName: string): Tree
  {
    var tg := ProfileTargets3(profile);
    var rf := initial * (tg.fixedIncome / 100.0);
    var rv := initial * (tg.equities / 100.0);
    var cx := initial * (tg.cash / 100.0);
    Tree("Carteira", Root, 0.0, 0.0, 0.0, [
      CategoryNode("Renda Fixa", tg.fixedIncome, [Leaf("Tesouro Selic", Asset, 0.0, rf / 2.0), Leaf("CDB XP", Asset, 0.0, rf / 2.0)]),
      CategoryNode(equityName, tg.equities, [Leaf("PETR4", Asset, 0.0, rv / 2.0), Leaf("ITUB4", Asset, 0.0, rv / 2.0)]),
      CategoryNode("Caixa", tg.cash, [Leaf("Conta Corrente", Asset, 0.0, cx)])])
  }

  /** The two-category binary portfolio before totals are computed. */
  function RawProfileTree2(initial: real, profile: string): Tree
  {
    var tg := ProfileTargets2(profile);
    var rf := initial * (tg.fixedIncome / 100.0);
    var rv := initial * (tg.equities / 100.0);
    Tree("Carteira", Root, 0.0, 0.0, 0.0, [
      PairCategory("Renda Fixa", tg.fixedIncome, "Tesouro Selic", "CDB XP", rf / 2.0),
      PairCategory("Acoes", tg.equities, "PETR4", "ITUB4", rv / 2.0)])
  }

  lemma {:induction false} SumOfTwo(x: real, y: real)
    ensures Sum([x, y]) == x + y
  {
    assert [x, y][..1] == [x];
    SumSingle(x);
  }

  lemma {:induction false} SumOfThree(x: real, y: real, z: real)
    ensures Sum([x, y, z]) == x + y + z
  {
    assert [x, y, z][..2] == [x, y];
    SumOfTwo(x, y);
  }

  /** Subtree sum of a category holding leaves only. */
  lemma {:induction false} LeafCategorySum2(name: string, target: real, a: Tree, b: Tree)
    requires a.children == [] && b.children == []
    ensures SubtreeSum(CategoryNode(name, target, [a, b])) == a.invested + b.invested
  {
    assert Sum(ChildSums(a)) == 0.0 && Sum(ChildSums(b)) == 0.0;
    assert ChildSums(CategoryNode(name, target, [a, b])) == [a.invested, b.invested];
    SumOfTwo(a.invested, b.invested);
  }

  /** In exact arithmetic the three-category preset is worth exactly the initial amount, split by target. */
  lemma {:induction false} ProfileTree3Sum(initial: real, profile: string, equityName: string)
    ensures var t := RawProfileTree3(initial, profile, equityName);
            var tg := ProfileTargets3(profile);
            && SubtreeSum(t) == initial
            && SubtreeSum(t.children[0]) == initial * tg.fixedIncome / 100.0
            && SubtreeSum(t.children[1]) == initial * tg.equities / 100.0
            && SubtreeSum(t.children[2]) == initial * tg.cash / 100.0
  {
    var t := RawProfileTree3(initial, profile, equityName);
    var tg := ProfileTargets3(profile);
    var c0, c1, c2 := t.children[0], t.children[1], t.children[2];
    LeafCategorySum2(c0.name, c0.target, c0.children[0], c0.children[1]);
    LeafCategorySum2(c1.name, c1.target, c1.children[0], c1.children[1]);
    var a := c2.children[0];
    assert Sum(ChildSums(a)) == 0.0;
    assert ChildSums(c2) == [a.invested];
    SumSingle(a.invested);
    assert ChildSums(t) == [SubtreeSum(c0), SubtreeSum(c1), SubtreeSum(c2)];
    SumOfThree(SubtreeSum(c0), SubtreeSum(c1), SubtreeSum(c2));
  }

  /** In exact arithmetic the binary preset is worth exactly the initial amount. */
  lemma {:induction false} ProfileTree2Sum(initial: real, profile: string)
    ensures var t := RawProfileTree2(initial, profile);
            var tg := ProfileTargets2(profile);
            && SubtreeSum(t) == initial
            && SubtreeSum(t.children[0]) == initial * tg.fixedIncome / 100.0
            && SubtreeSum(t.children[1]) == initial * tg.equities / 100.0
  {
    var t := RawProfileTree2(initial, profile);
    var c0, c1 := t.children[0], t.children[1];
    LeafCategorySum2(c0.name, c0.target, c0.children[0], c0.children[1]);
    LeafCategorySum2(c1.name, c1.target, c1.children[0], c1.children[1]);
    assert ChildSums(t) == [SubtreeSum(c0), SubtreeSum(c1)];
    SumOfTwo(SubtreeSum(c0), SubtreeSum(c1));
  }
}
