/**
 * The n-ary portfolio of Main.c and luis.c: every node owns a fixed array of
 * MAX_FILHOS child pointers of which the first num_filhos are in use.
 * Each heap node carries the PortfolioSpec.Tree it stands for in the ghost
 * field `model`, which Valid() ties to the node's fields and children.
 */
module NaryPortfolio {
  import opened PortfolioSpec
  import opened PortfolioAnalysis

  /** MAX_FILHOS */
  const MaxChildren := 20

  /** One entry of the Info table of sugerir_rebalanceamento: the copied name and diferenca_reais. */
  datatype Info = Info(name: string, gap: real)

  ghost function InfoOf(c: Tree, total: real): Info
  {
    Info(c.name, ValueGap(c, total))
  }

  class Node {
    const name: string
    const kind: Kind
    const target: real
    var invested: real
    var total: real
    /** filhos: slots [0, count) hold the children, the rest are null. */
    const slots: array<Node?>
    var count: int
    ghost var model: Tree
    ghost var Repr: set<object>

    ghost predicate Valid()
      reads this, Repr
      decreases Repr
    {
      && this in Repr && slots in Repr
      && slots.Length == MaxChildren
      && 0 <= count <= MaxChildren
      && model.name == name && model.kind == kind && model.target == target
      && model.invested == invested && model.total == total
      && |model.children| == count
      && (forall i :: count <= i < MaxChildren ==> slots[i] == null)
      && (forall i :: 0 <= i < count ==>
            && slots[i] != null && slots[i] in Repr && slots[i].Repr <= Repr
            && this !in slots[i].Repr && slots !in slots[i].Repr
            && slots[i].model == model.children[i]
            && slots[i].Valid())
      && (forall i, j :: 0 <= i < j < count ==> slots[i].Repr !! slots[j].Repr)
    }

    /** The node reached by following child indices p from here. */
    ghost function NodeAt(p: seq<nat>): Node
      requires Valid() && ValidPath(model, p)
      reads this, Repr
      decreases p
    {
      if p == [] then this else slots[p[0]].NodeAt(p[1..])
    }

    lemma {:induction false} NodeAtFacts(p: seq<nat>)
      requires Valid() && ValidPath(model, p)
      ensures NodeAt(p) in Repr && NodeAt(p).Valid() && NodeAt(p).model == SubtreeAt(model, p)
      ensures p != [] ==> p[0] < count && NodeAt(p) != this && NodeAt(p) in slots[p[0]].Repr
      decreases p
    {
      if p != [] {
        slots[p[0]].NodeAtFacts(p[1..]);
      }
    }

    /** Distinct paths lead to distinct nodes: the tree shares no node. */
    lemma {:induction false} NodeAtInjective(p: seq<nat>, q: seq<nat>)
      requires Valid() && ValidPath(model, p) && ValidPath(model, q)
      requires NodeAt(p) == NodeAt(q)
      ensures p == q
      decreases p
    {
      NodeAtFacts(p);
      NodeAtFacts(q);
      if p != [] && q != [] && p[0] == q[0] {
        slots[p[0]].NodeAtInjective(p[1..], q[1..]);
        assert p == [p[0]] + p[1..] && q == [q[0]] + q[1..];
      }
    }

    /** criar_no: the name is cut to 63 characters, no children, every slot null, total 0. */
    constructor (name: string, kind: Kind, target: real, invested: real)
      ensures Valid() && fresh(Repr)
      ensures model == Leaf(Truncate(name, NameCapacity), kind, target, invested)
    {
      var a := new Node?[MaxChildren];
      for i := 0 to MaxChildren
        invariant forall k :: 0 <= k < i ==> a[k] == null
      {
        a[i] := null;
      }
      this.name := Truncate(name, NameCapacity);
      this.kind := kind;
      this.target := target;
      this.invested := invested;
      this.total := 0.0;
      this.slots := a;
      this.count := 0;
      model := Leaf(Truncate(name, NameCapacity), kind, target, invested);
      Repr := {this, a};
    }

    /** adicionar_filho: append child in the next free slot; a full node is left unchanged. */
    method AddChild(child: Node) returns (added: bool)
      requires Valid() && child.Valid() && Repr !! child.Repr
      modifies this, slots
      ensures Valid()
      ensures added <==> old(count) < MaxChildren
      ensures added ==> Repr == old(Repr) + child.Repr &&
                        model == old(model).(children := old(model).children + [child.model])
      ensures !added ==> Repr == old(Repr) && model == old(model)
    {
      if count >= MaxChildren {
        return false;
      }
      slots[count] := child;
      count := count + 1;
      model := model.(children := model.children + [child.model]);
      Repr := Repr + child.Repr;
      return true;
    }

    /** buscar_no: this node if its name is key, else the first hit among the children in order. */
    method Find(key: string) returns (r: Node?)
      requires Valid()
      ensures r == null <==> FindPath(model, key).None?
      ensures r != null ==> r == NodeAt(FindPath(model, key).value)
      decreases Repr
    {
      if name == key {
        return this;
      }
      var i := 0;
      while i < count
        invariant 0 <= i <= count
        invariant FindInChildren(model, key, i) == FindPath(model, key)
        decreases count - i
      {
        FindInChildrenStep(model, key, i);
        r := slots[i].Find(key);
        if r != null {
          ghost var q := FindPath(model.children[i], key).value;
          assert ([i] + q)[0] == i && ([i] + q)[1..] == q;
          return;
        }
        i := i + 1;
      }
      return null;
    }

    /** The store through the pointer buscar_no returned: only valor_investido changes. */
    method SetInvested(v: real)
      requires Valid()
      modifies this
      ensures Valid() && Repr == old(Repr)
      ensures model == old(model).(invested := v)
    {
      invested := v;
      model := model.(invested := v);
    }

    /**
     * calcular_total_no: children first, in slot order, then the node's own
     * value; every valor_total in the subtree ends up as its subtree sum.
     */
    method ComputeTotal() returns (s: real)
      requires Valid()
      modifies Repr
      ensures Valid() && Repr == old(Repr)
      ensures model == Recompute(old(model))
      ensures s == SubtreeSum(old(model))
      decreases Repr, 2
    {
      ghost var m := model;
      var soma := SumChildren();
      s := soma + invested;
      total := s;
      model := model.(total := s);
    }

    /** The loop of calcular_total_no: each child recomputed in slot order, their totals added up. */
    method SumChildren() returns (soma: real)
      requires Valid()
      modifies Repr
      ensures Valid() && Repr == old(Repr)
      ensures model == old(model).(children := Recompute(old(model)).children)
      ensures soma == Sum(ChildSums(old(model)))
      decreases Repr, 1
    {
      ghost var m := model;
      ghost var r := Recompute(m).children;
      soma := 0.0;
      var i := 0;
      while i < count
        invariant 0 <= i <= count == |m.children| == |r|
        invariant Valid() && Repr == old(Repr)
        invariant model == m.(children := model.children)
        invariant forall k :: 0 <= k < i ==> model.children[k] == r[k]
        invariant forall k :: i <= k < count ==> model.children[k] == m.children[k]
        invariant soma == Sum(ChildSums(m)[..i])
        decreases count - i
      {
        var sub := RecomputeChild(i);
        SumPrefixStep(ChildSums(m), i);
        soma := soma + sub;
        i := i + 1;
      }
      assert ChildSums(m)[..count] == ChildSums(m);
      assert model.children == r;
    }

    /** One step of calcular_total_no's loop: the child in slot i recomputes its subtree. */
    method RecomputeChild(i: int) returns (sub: real)
      requires Valid() && 0 <= i < count
      modifies Repr
      ensures Valid() && Repr == old(Repr) && count == old(count)
      ensures model == old(model).(children := old(model).children[i := Recompute(old(model).children[i])])
      ensures sub == SubtreeSum(old(model).children[i])
      decreases Repr, 0
    {
      var c := slots[i];
      ghost var cs := slots[..count];
      sub := c.ComputeTotal();
      assert slots[..count] == cs;
      assert forall k :: 0 <= k < count && k != i ==> cs[k].Repr !! c.Repr;
      model := model.(children := model.children[i := c.model]);
    }

    /**
     * The search of buscar_no followed by the store through the pointer it
     * returns: valor_investido of the first node named key becomes v.
     */
    method UpdateFirst(key: string, v: real) returns (found: bool)
      requires Valid()
      modifies Repr
      ensures Valid() && Repr == old(Repr)
      ensures found <==> FindPath(old(model), key).Some?
      ensures found ==> model == SetInvestedAt(old(model), FindPath(old(model), key).value, v)
      ensures !found ==> model == old(model)
      decreases Repr, 1
    {
      if name == key {
        SetInvested(v);
        return true;
      }
      var i := 0;
      while i < count
        invariant 0 <= i <= count
        invariant Valid() && Repr == old(Repr) && model == old(model)
        invariant FindInChildren(model, key, i) == FindPath(model, key)
        decreases count - i
      {
        FindInChildrenStep(model, key, i);
        ghost var t := model;
        found := UpdateInChild(i, key, v);
        if found {
          SetInvestedAtCons(t, i, FindPath(t.children[i], key).value, v);
          return;
        }
        i := i + 1;
      }
      return false;
    }

    /** One step of the descent: the search and store carried out inside slot i. */
    method UpdateInChild(i: int, key: string, v: real) returns (found: bool)
      requires Valid() && 0 <= i < count
      modifies Repr
      ensures Valid() && Repr == old(Repr)
      ensures found <==> FindPath(old(model).children[i], key).Some?
      ensures found ==> model == old(model).(children := old(model).children[i := SetInvestedAt(old(model).children[i], FindPath(old(model).children[i], key).value, v)])
      ensures !found ==> model == old(model)
      decreases Repr, 0
    {
      var c := slots[i];
      ghost var cs := slots[..count];
      found := c.UpdateFirst(key, v);
      assert slots[..count] == cs;
      assert forall k :: 0 <= k < count && k != i ==> cs[k].Repr !! c.Repr;
      model := model.(children := model.children[i := c.model]);
    }

    /**
     * The unlinking step of remover_ativo: slots after j move one place left,
     * the last used slot becomes null and num_filhos drops by one.
     */
    method RemoveChildAt(j: int)
      requires Valid() && 0 <= j < count
      modifies this, slots
      ensures Valid() && Repr == old(Repr)
      ensures model == old(model).(children := old(model).children[..j] + old(model).children[j + 1..])
    {
      ghost var cs := slots[..count];
      ghost var ms := model.children;
      assert Siblings(this, slots, Repr, cs, ms);
      ShiftOut(slots, j, count, cs);
      count := count - 1;
      model := model.(children := ms[..j] + ms[j + 1..]);
      SiblingsRemove(this, slots, Repr, cs, ms, j);
      ValidFromSiblings();
    }

    /** Valid() from its local part and the facts about the children in use. */
    lemma ValidFromSiblings()
      requires this in Repr && slots in Repr && slots.Length == MaxChildren && 0 <= count <= MaxChildren
      requires model.name == name && model.kind == kind && model.target == target
      requires model.invested == invested && model.total == total
      requires forall i :: count <= i < MaxChildren ==> slots[i] == null
      requires Siblings(this, slots, Repr, slots[..count], model.children)
      ensures Valid()
    {
      assert forall i :: 0 <= i < count ==> slots[i] == slots[..count][i];
    }

    /**
     * The nodes cs, standing for ts, are valid, inside R, apart from owner
     * and its slot array arr, and pairwise disjoint.
     */
    static ghost predicate Siblings(owner: object, arr: object, R: set<object>, cs: seq<Node?>, ts: seq<Tree>)
      reads set k | 0 <= k < |cs| && cs[k] != null :: cs[k]
      reads set k, o | 0 <= k < |cs| && cs[k] != null && o in cs[k].Repr :: o
    {
      && |cs| == |ts|
      && (forall k :: 0 <= k < |cs| ==>
            && cs[k] != null && cs[k] in R && cs[k] in cs[k].Repr && cs[k].Repr <= R
            && owner !in cs[k].Repr && arr !in cs[k].Repr
            && cs[k].model == ts[k] && cs[k].Valid())
      && (forall a, b :: 0 <= a < b < |cs| ==> cs[a].Repr !! cs[b].Repr)
    }

    static lemma SiblingsRemove(owner: object, arr: object, R: set<object>, cs: seq<Node?>, ts: seq<Tree>, j: int)
      requires Siblings(owner, arr, R, cs, ts) && 0 <= j < |cs|
      ensures Siblings(owner, arr, R, cs[..j] + cs[j + 1..], ts[..j] + ts[j + 1..])
    {
      var cs' := cs[..j] + cs[j + 1..];
      assert forall k :: 0 <= k < |cs'| ==> cs'[k] == cs[if k < j then k else k + 1];
    }

    /** The shift loop of remover_ativo on the slot array a whose first n entries are in use. */
    static method ShiftOut(a: array<Node?>, j: int, n: int, ghost cs: seq<Node?>)
      requires 0 <= j < n <= a.Length && a[..n] == cs
      modifies a
      ensures a[..n - 1] == cs[..j] + cs[j + 1..]
      ensures a[n - 1] == null
      ensures a[n..] == old(a[n..])
    {
      var k := j;
      while k < n - 1
        invariant j <= k <= n - 1
        invariant forall t :: 0 <= t < j ==> a[t] == cs[t]
        invariant forall t :: j <= t < k ==> a[t] == cs[t + 1]
        invariant forall t :: k <= t < a.Length ==> a[t] == old(a[t])
        decreases n - k
      {
        a[k] := a[k + 1];
        k := k + 1;
      }
      a[n - 1] := null;
      assert forall t :: 0 <= t < n - 1 ==> a[t] == (cs[..j] + cs[j + 1..])[t];
    }

    /** count_ativos in simular_aporte: the number of ATIVO children. */
    method CountAssets() returns (n: nat)
      requires Valid()
      ensures n == PortfolioAnalysis.CountAssets(model.children)
    {
      n := 0;
      var j := 0;
      while j < count
        invariant 0 <= j <= count
        invariant n == PortfolioAnalysis.CountAssets(model.children[..j])
        decreases count - j
      {
        CountAssetsStep(model.children, j);
        if slots[j].kind == Asset {
          n := n + 1;
        }
        j := j + 1;
      }
      assert model.children[..count] == model.children;
    }

    /** The crediting loop of simular_aporte: every ATIVO child gains per. */
    method CreditAssets(per: real)
      requires Valid()
      modifies Repr
      ensures Valid() && Repr == old(Repr)
      ensures model == PortfolioAnalysis.CreditAssets(old(model), per)
    {
      ghost var m := model;
      ghost var r := PortfolioAnalysis.CreditAssets(m, per);
      assert |r.children| == |m.children|;
      var j := 0;
      while j < count
        invariant 0 <= j <= count == |m.children|
        invariant Valid() && Repr == old(Repr)
        invariant model == m.(children := model.children)
        invariant forall k :: 0 <= k < j ==> model.children[k] == r.children[k]
        invariant forall k :: j <= k < count ==> model.children[k] == m.children[k]
        decreases count - j
      {
        if slots[j].kind == Asset {
          CreditChild(j, per);
        }
        j := j + 1;
      }
      assert model.children == r.children;
    }

    /** One step of the crediting loop: the child in slot j gains per. */
    method CreditChild(j: int, per: real)
      requires Valid() && 0 <= j < count
      modifies Repr
      ensures Valid() && Repr == old(Repr) && count == old(count)
      ensures model == old(model).(children := old(model).children[j := old(model).children[j].(invested := old(model).children[j].invested + per)])
    {
      var a := slots[j];
      ghost var cs := slots[..count];
      a.SetInvested(a.invested + per);
      assert slots[..count] == cs;
      assert forall k :: 0 <= k < count && k != j ==> cs[k].Repr !! a.Repr;
      model := model.(children := model.children[j := a.model]);
    }

    /** The lines of listar_ativos: each child's name and valor_investido, in slot order. */
    method Holdings() returns (hs: seq<Holding>)
      requires Valid()
      ensures hs == PortfolioAnalysis.Holdings(model.children)
    {
      hs := [];
      var i := 0;
      while i < count
        invariant 0 <= i <= count
        invariant hs == PortfolioAnalysis.Holdings(model.children[..i])
        decreases count - i
      {
        hs := hs + [Holding(slots[i].name, slots[i].invested)];
        i := i + 1;
      }
      assert model.children[..count] == model.children;
    }

    /** adicionar_filho applied to the child in slot i, as criar_carteira_perfil does after linking a category. */
    method AddToChild(i: int, child: Node) returns (added: bool)
      requires Valid() && 0 <= i < count && child.Valid() && Repr !! child.Repr
      modifies Repr
      ensures Valid()
      ensures added <==> |old(model).children[i].children| < MaxChildren
      ensures added ==> Repr == old(Repr) + child.Repr &&
                        model == old(model).(children := old(model).children[i :=
                          old(model).children[i].(children := old(model).children[i].children + [child.model])])
      ensures !added ==> Repr == old(Repr) && model == old(model)
      decreases Repr
    {
      var c := slots[i];
      ghost var cs := slots[..count];
      added := c.AddChild(child);
      assert slots[..count] == cs;
      assert forall k :: 0 <= k < count && k != i ==> cs[k].Repr !! c.Repr;
      model := model.(children := model.children[i := c.model]);
      Repr := Repr + c.Repr;
    }

    /**
     * The body of simular_aporte for one category (Main.c): its share is
     * split equally among its ATIVO children.
     */
    method SpreadEqually(share: real)
      requires Valid()
      modifies Repr
      ensures Valid() && Repr == old(Repr)
      ensures model == SpreadEqual(old(model), share)
    {
      if count > 0 {
        var n := CountAssets();
        var per := if n > 0 then share / n as real else 0.0;
        CreditAssets(per);
      } else {
        assert PortfolioAnalysis.CreditAssets(model, 0.0) == model;
      }
    }

    /** One step of simular_aporte's loop over the root's children: category i receives its share. */
    method SpreadToChild(i: int, amount: real)
      requires Valid() && 0 <= i < count
      modifies Repr
      ensures Valid() && Repr == old(Repr)
      ensures model == old(model).(children := old(model).children[i :=
                SpreadEqual(old(model).children[i], Share(amount, old(model).children[i]))])
    {
      var c := slots[i];
      ghost var cs := slots[..count];
      ghost var t := model.children[i];
      var share := amount * (c.target / 100.0);
      assert share == Share(amount, t);
      c.SpreadEqually(share);
      assert slots[..count] == cs;
      assert forall k :: 0 <= k < count && k != i ==> cs[k].Repr !! c.Repr;
      model := model.(children := model.children[i := c.model]);
    }

    /** The distribution loop of simular_aporte (Main.c), before totals are recomputed. */
    method Contribute(amount: real)
      requires Valid()
      modifies Repr
      ensures Valid() && Repr == old(Repr)
      ensures model == ContributeEqual(old(model), amount)
    {
      ghost var m := model;
      ghost var r := ContributeEqual(m, amount).children;
      var i := 0;
      while i < count
        invariant 0 <= i <= count == |m.children| == |r|
        invariant Valid() && Repr == old(Repr)
        invariant model == m.(children := model.children)
        invariant forall k :: 0 <= k < i ==> model.children[k] == r[k]
        invariant forall k :: i <= k < count ==> model.children[k] == m.children[k]
        decreases count - i
      {
        SpreadToChild(i, amount);
        i := i + 1;
      }
      assert model.children == r;
    }

    /**
     * The parent search of remover_ativo: the first root child i, and the
     * slot j within it, whose pointer is a.
     */
    method FindParent(a: Node) returns (found: bool, pi: int, pj: int)
      requires Valid()
      ensures found ==> 0 <= pi < |model.children| && 0 <= pj < |model.children[pi].children|
      ensures found ==> ValidPath(model, [pi, pj]) && NodeAt([pi, pj]) == a
      ensures !found ==> forall p :: |p| == 2 && ValidPath(model, p) ==> NodeAt(p) != a
    {
      var i := 0;
      while i < count
        invariant 0 <= i <= count
        invariant forall i', j :: 0 <= i' < i && 0 <= j < |model.children[i'].children| ==>
                    ValidPath(model, [i', j]) && NodeAt([i', j]) != a
        decreases count - i
      {
        var c := slots[i];
        var j := 0;
        while j < c.count
          invariant 0 <= j <= c.count
          invariant forall j' :: 0 <= j' < j ==> ValidPath(model, [i, j']) && NodeAt([i, j']) != a
          decreases c.count - j
        {
          GrandchildAt(i, j);
          if c.slots[j] == a {
            return true, i, j;
          }
          j := j + 1;
        }
        i := i + 1;
      }
      forall p | |p| == 2 && ValidPath(model, p)
        ensures NodeAt(p) != a
      {
        assert ValidPath(model.children[p[0]], p[1..]) && p[1..][0] == p[1];
        assert p == [p[0], p[1]];
      }
      return false, -1, -1;
    }

    /** The path [i, j] leads to the node in slot j of the child in slot i. */
    lemma GrandchildAt(i: int, j: int)
      requires Valid() && 0 <= i < count && 0 <= j < slots[i].count
      ensures slots[i].slots.Length == MaxChildren && slots[i].count <= MaxChildren
      ensures j < |model.children[i].children|
      ensures ValidPath(model, [i, j]) && NodeAt([i, j]) == slots[i].slots[j]
    {
      var c := slots[i];
      assert c.Valid() && c.slots[j] != null && c.slots[j].Valid();
      assert [i, j][0] == i && [i, j][1..] == [j] && [j][0] == j && [j][1..] == [];
      assert c.NodeAt([j]) == c.slots[j].NodeAt([]);
    }

    /** The unlinking step of remover_ativo applied inside the child in slot i. */
    method RemoveFromChild(i: int, j: int)
      requires Valid() && 0 <= i < count && 0 <= j < |model.children[i].children|
      modifies Repr
      ensures Valid() && Repr == old(Repr)
      ensures model == RemoveGrandchild(old(model), i, j)
    {
      var c := slots[i];
      ghost var cs := slots[..count];
      c.RemoveChildAt(j);
      assert slots[..count] == cs;
      assert forall k :: 0 <= k < count && k != i ==> cs[k].Repr !! c.Repr;
      model := model.(children := model.children[i := c.model]);
    }

    /**
     * The category loop of detectar_desbalanceamento over this root's
     * children, with desbalanceado set by any row out of band.
     */
    method BalanceRows() returns (rows: seq<CategoryReport>, unbalanced: bool)
      requires Valid() && total != 0.0
      ensures rows == BalanceReport(model)
      ensures unbalanced <==> Unbalanced(rows)
    {
      ghost var all := BalanceReport(model);
      rows := [];
      unbalanced := false;
      var i := 0;
      while i < count
        invariant 0 <= i <= count
        invariant rows == all[..i]
        invariant unbalanced <==> Unbalanced(rows)
        decreases count - i
      {
        var c := slots[i];
        var actual := ActualPercent(c.total, total);
        var band := BalanceBand(actual - c.target);
        ghost var prev := rows;
        rows := rows + [CategoryReport(c.name, c.target, actual, c.total, band)];
        if band != Within {
          assert rows[i].band != Within;
          unbalanced := true;
        } else {
          assert forall k :: 0 <= k < i ==> rows[k] == prev[k];
        }
        i := i + 1;
      }
      assert all[..count] == all;
    }

    /** The category loop of atualizar_percentuais: the status band uses the 1.0 threshold. */
    method StatusRows() returns (rows: seq<CategoryReport>)
      requires Valid() && total != 0.0
      ensures rows == PercentReport(model)
    {
      ghost var all := PercentReport(model);
      rows := [];
      var i := 0;
      while i < count
        invariant 0 <= i <= count
        invariant rows == all[..i]
        decreases count - i
      {
        var c := slots[i];
        var actual := ActualPercent(c.total, total);
        rows := rows + [CategoryReport(c.name, c.target, actual, c.total, StatusBand(actual - c.target))];
        i := i + 1;
      }
      assert all[..count] == all;
    }

    /**
     * The first loop of sugerir_rebalanceamento in Main.c: the Info table
     * (names cut to 49 characters, value gaps) and the percentage precheck.
     */
    method AdviceTable() returns (infos: seq<Info>, needs: bool)
      requires Valid() && total != 0.0
      ensures |infos| == |model.children|
      ensures forall k :: 0 <= k < |infos| ==> infos[k] == InfoOf(AdviceNames(model.children)[k], total)
      ensures needs <==> NeedsRebalance(model)
    {
      ghost var names := AdviceNames(model.children);
      infos := [];
      needs := false;
      var i := 0;
      while i < count
        invariant 0 <= i <= count
        invariant |infos| == i
        invariant forall k :: 0 <= k < i ==> infos[k] == InfoOf(names[k], total)
        invariant needs <==> exists k :: 0 <= k < i && Abs(Deviation(model.children[k], total)) > Tolerance
        decreases count - i
      {
        var c := slots[i];
        var actual := ActualPercent(c.total, total);
        var target := total * (c.target / 100.0);
        infos := infos + [Info(Truncate(c.name, AdviceNameCapacity), c.total - target)];
        if Abs(actual - c.target) > Tolerance {
          needs := true;
        }
        i := i + 1;
      }
    }

    /**
     * sugerir_rebalanceamento of Main.c over this root: "already balanced"
     * unless the precheck fires, then one SELL or BUY line per category whose
     * value gap passes the currency threshold.
     */
    method Advise() returns (advice: Advice)
      requires Valid() && total != 0.0
      ensures advice == NaryAdvice(model)
    {
      var infos, needs := AdviceTable();
      if !needs {
        return AlreadyBalanced;
      }
      ghost var names := AdviceNames(model.children);
      var acts: seq<Action> := [];
      var i := 0;
      while i < |infos|
        invariant 0 <= i <= |infos|
        invariant acts == CategoryActions(names[..i], total)
        decreases |infos| - i
      {
        CategoryActionsStep(names, total, i);
        var threshold := total * Tolerance / 100.0;
        if infos[i].gap > threshold {
          acts := acts + [Sell(infos[i].name, infos[i].gap)];
        } else if infos[i].gap < -threshold {
          acts := acts + [Buy(infos[i].name, -infos[i].gap)];
        }
        i := i + 1;
      }
      assert names[..|infos|] == names;
      return Rebalance(acts);
    }
  }

  /**
   * criar_carteira_perfil up to its final recomputation: the root, the three
   * categories linked to it, then the assets linked to their categories, in
   * the order Main.c creates them. equityName is "Acoes" in Main.c and
   * "Ações" in luis.c.
   */
  method BuildProfile(initial: real, profile: string, equityName: string) returns (r: Node)
    requires |equityName| <= NameCapacity
    ensures r.Valid() && fresh(r.Repr)
    ensures r.model == RawProfileTree3(initial, profile, equityName)
  {
    var tg := ProfileTargets3(profile);
    r := NewSkeleton(tg, equityName);
    var valueRf := initial * (tg.fixedIncome / 100.0);
    var valueRv := initial * (tg.equities / 100.0);
    var valueCx := initial * (tg.cash / 100.0);
    AddProfileAssets(r, valueRf / 2.0, valueRv / 2.0, valueCx);
    ProfileSteps(initial, profile, equityName, tg, valueRf / 2.0, valueRv / 2.0, valueCx);
  }

  /** The root "Carteira" with the three categories linked in order and no assets yet. */
  method NewSkeleton(tg: Targets3, equityName: string) returns (r: Node)
    requires |equityName| <= NameCapacity
    ensures r.Valid() && fresh(r.Repr)
    ensures r.model == Skeleton(tg, equityName)
  {
    r := new Node("Carteira", Root, 0.0, 0.0);
    AddCategory(r, "Renda Fixa", tg.fixedIncome);
    AddCategory(r, equityName, tg.equities);
    AddCategory(r, "Caixa", tg.cash);
    assert r.model.children == Skeleton(tg, equityName).children;
  }

  ghost function Skeleton(tg: Targets3, equityName: string): Tree
  {
    Tree("Carteira", Root, 0.0, 0.0, 0.0, [
      CategoryNode("Renda Fixa", tg.fixedIncome, []),
      CategoryNode(equityName, tg.equities, []),
      CategoryNode("Caixa", tg.cash, [])])
  }

  /** The five assets linked into a tree of three empty categories, in Main.c's order. */
  ghost function WithProfileAssets(t: Tree, fixedHalf: real, equityHalf: real, cash: real): Tree
    requires |t.children| == 3
  {
    var t2 := WithAsset(WithAsset(t, 0, "Tesouro Selic", fixedHalf), 0, "CDB XP", fixedHalf);
    var t4 := WithAsset(WithAsset(t2, 1, "PETR4", equityHalf), 1, "ITUB4", equityHalf);
    WithAsset(t4, 2, "Conta Corrente", cash)
  }

  /** The asset part of criar_carteira_perfil: two, two and one ATIVO nodes. */
  method AddProfileAssets(r: Node, fixedHalf: real, equityHalf: real, cash: real)
    requires r.Valid() && r.count == 3 && forall i :: 0 <= i < 3 ==> r.model.children[i].children == []
    modifies r.Repr
    ensures r.Valid() && fresh(r.Repr - old(r.Repr))
    ensures r.model == WithProfileAssets(old(r.model), fixedHalf, equityHalf, cash)
  {
    AddAssetPair(r, 0, "Tesouro Selic", "CDB XP", fixedHalf);
    AddAssetPair(r, 1, "PETR4", "ITUB4", equityHalf);
    AddAsset(r, 2, "Conta Corrente", cash);
  }

  /** Two ATIVO nodes of the same value linked one after the other into the category in slot i. */
  method AddAssetPair(r: Node, i: int, first: string, second: string, value: real)
    requires r.Valid() && 0 <= i < r.count && |r.model.children[i].children| + 2 <= MaxChildren
    requires |first| <= NameCapacity && |second| <= NameCapacity
    modifies r.Repr
    ensures r.Valid() && fresh(r.Repr - old(r.Repr)) && r.count == old(r.count)
    ensures r.model == WithAsset(WithAsset(old(r.model), i, first, value), i, second, value)
  {
    AddAsset(r, i, first, value);
    AddAsset(r, i, second, value);
  }

  /** Linking the five assets into the empty categories yields the preset tree of criar_carteira_perfil. */
  lemma ProfileSteps(initial: real, profile: string, equityName: string, tg: Targets3, rf: real, rv: real, cx: real)
    requires tg == ProfileTargets3(profile)
    requires rf == initial * (tg.fixedIncome / 100.0) / 2.0
    requires rv == initial * (tg.equities / 100.0) / 2.0
    requires cx == initial * (tg.cash / 100.0)
    ensures WithProfileAssets(Skeleton(tg, equityName), rf, rv, cx) == RawProfileTree3(initial, profile, equityName)
  {
    var r := RawProfileTree3(initial, profile, equityName);
    var t := WithProfileAssets(Skeleton(tg, equityName), rf, rv, cx);
    assert r.children[0].children[0] == t.children[0].children[0] == Leaf("Tesouro Selic", Asset, 0.0, rf);
    assert r.children[0].children[1] == t.children[0].children[1] == Leaf("CDB XP", Asset, 0.0, rf);
    assert r.children[1].children[0] == t.children[1].children[0] == Leaf("PETR4", Asset, 0.0, rv);
    assert r.children[1].children[1] == t.children[1].children[1] == Leaf("ITUB4", Asset, 0.0, rv);
    assert r.children[2].children[0] == t.children[2].children[0] == Leaf("Conta Corrente", Asset, 0.0, cx);
    assert r.children[0].children == t.children[0].children;
    assert r.children[1].children == t.children[1].children;
    assert r.children[2].children == t.children[2].children;
    assert r.children == t.children;
  }

  /** criar_no of a CATEGORIA followed by adicionar_filho into r. */
  method AddCategory(r: Node, name: string, target: real)
    requires r.Valid() && r.count < MaxChildren && |name| <= NameCapacity
    modifies r, r.slots
    ensures r.Valid() && fresh(r.Repr - old(r.Repr)) && r.count == old(r.count) + 1
    ensures r.model == old(r.model).(children := old(r.model).children + [CategoryNode(name, target, [])])
  {
    var c := new Node(name, Kind.Category, target, 0.0);
    var added := r.AddChild(c);
  }

  /** The tree after linking a new ATIVO with the given value into the category at index i. */
  ghost function WithAsset(t: Tree, i: nat, name: string, value: real): Tree
    requires i < |t.children|
  {
    var c := t.children[i];
    t.(children := t.children[i := c.(children := c.children + [Leaf(name, Asset, 0.0, value)])])
  }

  /** criar_no of an ATIVO followed by adicionar_filho into the category in slot i. */
  method AddAsset(r: Node, i: int, name: string, value: real)
    requires r.Valid() && 0 <= i < r.count && |r.model.children[i].children| < MaxChildren
    requires |name| <= NameCapacity
    modifies r.Repr
    ensures r.Valid() && fresh(r.Repr - old(r.Repr)) && r.count == old(r.count)
    ensures r.model == WithAsset(old(r.model), i, name, value)
  {
    var a := new Node(name, Asset, 0.0, value);
    var added := r.AddToChild(i, a);
  }

  /** The outcome of detectar_desbalanceamento: one row per category and the flag desbalanceado. */
  datatype Detection = Detection(rows: seq<CategoryReport>, unbalanced: bool)

  /** The figures atualizar_valores_mercado reports: valor_anterior and variacao. */
  datatype Change = Change(previous: real, variation: real)

  /**
   * Arvore: the root pointer and the cached valor_total. Every operation
   * that changes the tree ends by recomputing the totals and copying the
   * root's total into the cache; a null root is the "Carteira vazia!" case.
   */
  class Portfolio {
    var root: Node?
    var total: real
    ghost var Repr: set<object>

    ghost predicate Valid()
      reads this, Repr
    {
      && this in Repr
      && (root != null ==> root in Repr && root.Repr <= Repr && this !in root.Repr && root.Valid())
    }

    /** criar_carteira_perfil: the preset tree for the profile, with its totals computed. */
    constructor (initial: real, profile: string, equityName: string)
      requires |equityName| <= NameCapacity
      ensures Valid() && fresh(Repr) && root != null
      ensures root.model == Recompute(RawProfileTree3(initial, profile, equityName))
      ensures total == initial
    {
      var r := BuildProfile(initial, profile, equityName);
      var s := r.ComputeTotal();
      ProfileTree3Sum(initial, profile, equityName);
      root := r;
      total := r.total;
      Repr := {this} + r.Repr;
    }

    /** calcular_total_no on the root followed by arvore->valor_total = raiz->valor_total. */
    method Refresh()
      requires Valid() && root != null
      modifies Repr
      ensures Valid() && Repr == old(Repr) && root == old(root)
      ensures root.model == Recompute(old(root.model))
      ensures total == root.model.total == SubtreeSum(old(root.model))
    {
      var s := root.ComputeTotal();
      total := root.total;
    }

    /**
     * remover_ativo (Main.c): find the node, require an ATIVO, find the
     * category holding it among the root's children, unlink it with a left
     * shift, then recompute. Every error leaves the tree as it was.
     */
    method RemoveAsset(key: string) returns (err: Option<Error>)
      requires Valid()
      modifies Repr
      ensures Valid() && Repr == old(Repr) && root == old(root)
      ensures root == null ==> err == Some(EmptyPortfolio)
      ensures root != null ==> match RemoveUnlink(old(root.model), key)
                case Ok(t) => err.None? && root.model == t && total == t.total
                case Err(e) => err == Some(e) && root.model == old(root.model) && total == old(total)
    {
      if root == null {
        return Some(EmptyPortfolio);
      }
      var a := root.Find(key);
      if a == null {
        return Some(NotFound);
      }
      ghost var p := FindPath(root.model, key).value;
      root.NodeAtFacts(p);
      if a.kind != Asset {
        return Some(NotAnAsset);
      }
      var found, i, j := root.FindParent(a);
      if !found {
        return Some(ParentNotFound);
      }
      root.NodeAtInjective([i, j], p);
      root.RemoveFromChild(i, j);
      Refresh();
      return None;
    }

    /** atualizar_percentuais: recompute, then one status row per category (threshold 1.0). */
    method UpdatePercentages() returns (r: Result<seq<CategoryReport>>)
      requires Valid() && (root != null ==> SubtreeSum(root.model) != 0.0)
      modifies Repr
      ensures Valid() && Repr == old(Repr) && root == old(root)
      ensures root == null ==> r == Err(EmptyPortfolio)
      ensures root != null ==> root.model == Recompute(old(root.model)) && r == Ok(PercentReport(root.model))
    {
      if root == null {
        return Err(EmptyPortfolio);
      }
      Refresh();
      var rows := root.StatusRows();
      return Ok(rows);
    }

    /** detectar_desbalanceamento (Main.c): recompute, then one row per category (tolerance 2.0) and the flag. */
    method Detect() returns (r: Result<Detection>)
      requires Valid() && (root != null ==> SubtreeSum(root.model) != 0.0)
      modifies Repr
      ensures Valid() && Repr == old(Repr) && root == old(root)
      ensures root == null ==> r == Err(EmptyPortfolio)
      ensures root != null ==>
                root.model == Recompute(old(root.model)) &&
                r == Ok(Detection(BalanceReport(root.model), Unbalanced(BalanceReport(root.model))))
    {
      if root == null {
        return Err(EmptyPortfolio);
      }
      Refresh();
      var rows, unbalanced := root.BalanceRows();
      return Ok(Detection(rows, unbalanced));
    }

    /** sugerir_rebalanceamento (Main.c): recompute, then the advice. */
    method Suggest() returns (r: Result<Advice>)
      requires Valid() && (root != null ==> SubtreeSum(root.model) != 0.0)
      modifies Repr
      ensures Valid() && Repr == old(Repr) && root == old(root)
      ensures root == null ==> r == Err(EmptyPortfolio)
      ensures root != null ==> root.model == Recompute(old(root.model)) && r == Ok(NaryAdvice(root.model))
    {
      if root == null {
        return Err(EmptyPortfolio);
      }
      Refresh();
      var advice := root.Advise();
      return Ok(advice);
    }

    /**
     * simular_aporte (Main.c): a non-positive amount is refused; otherwise
     * each category's share is split equally among its assets and the totals
     * are recomputed.
     */
    method SimulateContribution(amount: real) returns (err: Option<Error>)
      requires Valid()
      modifies Repr
      ensures Valid() && Repr == old(Repr) && root == old(root)
      ensures root == null ==> err == Some(EmptyPortfolio)
      ensures root != null ==> match SimulateEqual(old(root.model), amount)
                case Ok(t) => err.None? && root.model == t && total == t.total
                case Err(e) => err == Some(e) && root.model == old(root.model) && total == old(total)
    {
      if root == null {
        return Some(EmptyPortfolio);
      }
      if amount <= 0.0 {
        return Some(InvalidAmount);
      }
      root.Contribute(amount);
      Refresh();
      return None;
    }

    /**
     * atualizar_valores_mercado: find the node, require an ATIVO, report the
     * previous value and the variation, store the new value, recompute.
     */
    method UpdateMarketValue(key: string, v: real) returns (r: Result<Change>)
      requires Valid()
      modifies Repr
      ensures Valid() && Repr == old(Repr) && root == old(root)
      ensures root == null ==> r == Err(EmptyPortfolio)
      ensures root != null ==> match UpdateMarket(old(root.model), key, v)
                case Ok(u) => r == Ok(Change(u.previous, u.variation)) && root.model == u.tree && total == u.tree.total
                case Err(e) => r == Err(e) && root.model == old(root.model) && total == old(total)
    {
      if root == null {
        return Err(EmptyPortfolio);
      }
      var a := root.Find(key);
      if a == null {
        return Err(NotFound);
      }
      root.NodeAtFacts(FindPath(root.model, key).value);
      if a.kind != Asset {
        return Err(NotAnAsset);
      }
      var previous := a.invested;
      var variation := 0.0;
      if previous != 0.0 {
        variation := (v - previous) / previous * 100.0;
      }
      // The store goes to the first pre-order match, which is the node a that Find returned.
      var found := root.UpdateFirst(key, v);
      assert found;
      Refresh();
      return Ok(Change(previous, variation));
    }

    /** listar_ativos: the category's children with their invested values and its cached total. */
    method ListAssets(key: string) returns (r: Result<Listing>)
      requires Valid()
      ensures root == null ==> r == Err(EmptyPortfolio)
      ensures root != null ==> r == PortfolioAnalysis.ListAssets(root.model, key)
    {
      if root == null {
        return Err(EmptyPortfolio);
      }
      var c := root.Find(key);
      if c == null {
        return Err(NotFound);
      }
      root.NodeAtFacts(FindPath(root.model, key).value);
      if c.kind != Kind.Category {
        return Err(NotACategory);
      }
      var hs := c.Holdings();
      return Ok(Listing(c.name, hs, c.total));
    }
  }
}
