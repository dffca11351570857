# Investment-portfolio optimiser, modelled in Dafny

The program keeps an investment portfolio as a tree:

- a root node "Carteira";
- asset categories ("Renda Fixa", "Acoes"/"Ações", "Caixa") below it, each with a target percentage;
- assets below the categories, each with an invested amount.

On that tree it:

- computes subtree totals;
- reports each category's actual share against its target (a 1-point status band and a 2-point balance tolerance);
- suggests buy/sell amounts;
- simulates a contribution;
- updates one asset's market value;
- removes an asset;
- lists a category's assets.

The repository has two variants of the same engine:

- **n-ary:** `Main.c` and `luis.c`. Every node has an array of up to 20 children and a child count.
- **binary:** `src/luis.c` and `src/Gabriel.c`. Every node has a left and a right pointer.

The two variants differ in four places:

- how a removal works: unlink and shift left, or set the value to zero;
- how a contribution is split: equally among assets, or half of the category's share to each side;
- how the advice is guarded;
- which categories a profile creates.

The model has five modules.

- `PortfolioSpec` (`portfolio_spec.dfy`): the abstract tree, as the datatype `Tree`.
  - `SubtreeSum` and `Recompute` model the total computation.
  - Paths and `FindPath` model the search (the first node in pre-order with a given name). `Preorder` and `FirstNamed` are an independent reference definition of that search.
  - `SameShape` relates trees that differ only in their amounts.
- `PortfolioAnalysis` (`portfolio_analysis.dfy`) holds every operation as a function on `Tree`, with an `Ok`/`Err` result where the C code prints an error and returns. It also holds the lemmas that state what each operation promises.
- `NaryPortfolio` (`nary_portfolio.dfy`) is the n-ary heap structure:
  - class `Node` has a fixed 20-slot array, a child count, a ghost `Repr` footprint and a ghost `model: Tree`;
  - class `Portfolio` holds a root and the cached total.
  - Every method is proved to leave `model` equal to the corresponding function of `PortfolioAnalysis` applied to the old model.
- `BinaryPortfolio` (`binary_portfolio.dfy`) does the same for the binary variant. The abstract children of a node are its left node, if any, followed by its right node, if any.
- `MainScenario` (`scenarios.dfy`) replays the five tests of `main` (`Main.c:584-626`) on the model and proves the figures the program prints. These figures are stated on exact reals.

Money is modelled as `real`.

## Model

| member | source | states |
|---|---|---|
| PortfolioAnalysis.Truncate | Main.c:61-63 | The stored name (63 characters at most) is the first n characters of the given name (a prefix): unchanged if it fits, exactly n characters if it does not |
| NaryPortfolio.Node.constructor | Main.c:58-78 | A new node has no children, holds the truncated name and the given kind, target and amount, and its total is zero |
| BinaryPortfolio.BNode.constructor | src/luis.c:28-43 | A new binary node has no left or right child and the same data as the n-ary one; its footprint is the node alone |
| NaryPortfolio.Node.AddChild | Main.c:81-89 | A child is appended exactly when fewer than 20 slots are used; otherwise the node and its footprint are unchanged |
| BinaryPortfolio.BNode.LinkLeft | src/luis.c:126-144 | Linking a left child puts its tree in front of the children and keeps the right child |
| BinaryPortfolio.BNode.LinkRight | src/luis.c:127-144 | Linking a right child appends its tree to the children and keeps the left child |
| PortfolioSpec.FindPath | Main.c:92-112 | A path that is found is a valid path, and the node it leads to carries the searched name |
| PortfolioSpec.FindPathIsFirstInPreorder | Main.c:92-112 | The search fails exactly when no node in pre-order carries the name; otherwise it finds the first such node in pre-order |
| PortfolioSpec.FindPathNone | Main.c:92-112 | The search fails if and only if every node of the pre-order listing has a different name |
| NaryPortfolio.Node.Find | Main.c:92-112 | Returns null exactly when the name is absent; otherwise returns the heap node at the path of the first pre-order match |
| BinaryPortfolio.BNode.Find | src/Gabriel.c:52-67 | Left subtree first, then right subtree: null exactly when the name is absent, otherwise a node whose tree is the first pre-order match |
| PortfolioSpec.RecomputeConsistent | Main.c:115-138 | After a recomputation every node's total equals its own amount plus its children's totals, and the root total is the sum of all amounts |
| PortfolioSpec.TotalsOkFixpoint | Main.c:115-138 | Recomputing a tree whose totals are already consistent changes nothing |
| PortfolioSpec.RecomputeIdempotent | Main.c:115-138 | Recomputing the totals twice gives the same tree as recomputing them once |
| PortfolioSpec.RecomputeKeepsData | Main.c:115-138 | A recomputation changes only the cached totals: names, kinds, targets, amounts and shape are kept |
| PortfolioSpec.RecomputeShape | Main.c:115-138 | A recomputation keeps the shape, so every search answers as before |
| PortfolioSpec.SameShapeFind | Main.c:92-112 | Two trees with the same names and kinds at the same places give the same search result for every name |
| NaryPortfolio.Node.ComputeTotal | Main.c:115-138 | The recursive pass writes into every node the total of `Recompute` and returns the subtree sum of the old tree |
| BinaryPortfolio.BNode.ComputeTotal | src/Gabriel.c:32-49 | The same for the binary tree: left, then right, then the node's own amount |
| NaryPortfolio.Node.SumChildren | Main.c:126-135 | The loop over the children recomputes each child in place and returns the sum of their subtree sums |
| PortfolioSpec.SetInvestedSum | Main.c:559-567 | Writing a new amount at one path changes the sum of all amounts by the new amount minus the old one |
| PortfolioSpec.ReplaceAtSum | Main.c:115-138 | Replacing a subtree changes the sum of all amounts by the new subtree's sum minus the old one's |
| PortfolioAnalysis.ProfileTargets3 | Main.c:151-174 | The three category targets of every profile add up to 100, cash is always 10, and the other two are positive |
| PortfolioAnalysis.ProfileTargets2 | src/luis.c:101-120 | The two category targets of every profile add up to 100 and are positive |
| PortfolioAnalysis.UnknownProfileIsModerate | Main.c:169-175 | A profile name other than the three known ones gets the moderate targets, in both variants |
| PortfolioAnalysis.ProfileTree3Sum | Main.c:141-215 | The built n-ary portfolio holds exactly the initial amount, and each category holds its target share of it |
| PortfolioAnalysis.ProfileTree2Sum | src/luis.c:91-153 | The built binary portfolio holds exactly the initial amount, and each category holds its target share of it |
| NaryPortfolio.BuildProfile | Main.c:141-206 | Builds on the heap exactly the profile tree: three categories, two assets each in fixed income and equities, one cash account |
| NaryPortfolio.AddCategory | Main.c:177-185 | Adding a category appends an empty category with the given name and target to the root |
| NaryPortfolio.AddAsset | Main.c:192-206 | Adding an asset appends a leaf with the given amount to the chosen category and leaves the rest of the tree unchanged |
| NaryPortfolio.ProfileSteps | Main.c:187-206 | Adding the assets, category by category, to the skeleton of categories yields the profile tree |
| NaryPortfolio.Portfolio.constructor | Main.c:141-215 | The new portfolio's tree is the recomputed profile tree, and its cached total is the initial amount |
| BinaryPortfolio.BuildProfile | src/luis.c:91-153 | Builds on the heap exactly the binary profile tree: fixed income on the left, equities on the right, two assets under each |
| BinaryPortfolio.NewCategory | src/luis.c:122-144 | A category with two equal leaf assets, linked left then right |
| BinaryPortfolio.NewRoot | src/luis.c:95-128 | The root has the two categories as its children, and its footprint is the union of theirs |
| BinaryPortfolio.BPortfolio.constructor | src/luis.c:91-153 | The new portfolio's tree is the recomputed binary profile tree, and its cached total is the initial amount |
| NaryPortfolio.Portfolio.Refresh | Main.c:283-285 | Recomputes every total and caches the root total, which equals the sum of all amounts |
| BinaryPortfolio.BPortfolio.Refresh | src/Gabriel.c:76-77 | The same for the binary portfolio |
| PortfolioAnalysis.RemoveUnlinkSpec | Main.c:218-274 | Removal succeeds exactly when the name is found, names an asset, and sits directly under a category. It then drops that asset and keeps its siblings in order. The new total is the old total minus the asset's subtree. Otherwise the error names the failed check: "not found" exactly when the name is absent, "not an asset" exactly when the found node is no asset, "parent not found" exactly when the asset does not sit directly under a category |
| PortfolioAnalysis.RemoveGrandchildSum | Main.c:259-271 | Unlinking one asset lowers the sum of all amounts by exactly that asset's subtree sum |
| PortfolioAnalysis.RecomputeDropChild | Main.c:259-271 | Dropping a child and then recomputing gives the same result as recomputing and then dropping it |
| NaryPortfolio.Node.FindParent | Main.c:238-257 | The nested loops find the category and slot holding the node if it sits two levels down; if not found, no two-level path leads to it |
| NaryPortfolio.Node.RemoveChildAt | Main.c:259-264 | Shifting the later children one slot left removes exactly the j-th child and keeps the order of the rest |
| NaryPortfolio.Node.ShiftOut | Main.c:259-264 | The in-place array shift: the first n-1 slots hold the old sequence without element j, slot n-1 becomes null, and later slots are untouched |
| NaryPortfolio.Node.RemoveFromChild | Main.c:259-264 | Removing the j-th asset of category i changes the tree exactly as `RemoveGrandchild` does |
| NaryPortfolio.Portfolio.RemoveAsset | Main.c:218-274 | On the heap, removal leaves the tree and cached total of `RemoveUnlink`, or reports its error and changes nothing; an empty portfolio is an error |
| PortfolioAnalysis.RemoveZeroIsUpdateToZero | src/luis.c:156-183 | Binary removal succeeds exactly when a market update to 0 would. It then equals that update: the node stays, same shape, and the search still finds it |
| BinaryPortfolio.BPortfolio.RemoveAsset | src/luis.c:156-183 | On the heap, binary removal leaves the tree and cached total of `RemoveZero`, or reports its error and changes nothing |
| PortfolioAnalysis.BalanceBand | Main.c:399-408 | A deviation is above the band iff greater than 2 points, below iff less than -2 points, and within iff between them |
| PortfolioAnalysis.StatusBand | Main.c:302-309 | The status is "above" exactly when the deviation exceeds 1 point, "below" exactly when it is under -1 point, and "OK" exactly when it lies within 1 point either way |
| PortfolioAnalysis.StatusIsStricter | Main.c:302-309 | Whenever the 2-point check flags a category, the 1-point status flags it in the same direction, and every "OK" status is also balanced |
| PortfolioAnalysis.ThresholdsDiffer | Main.c:302-309 | A deviation of 1.5 points is reported above target by the status but balanced by the detector |
| PortfolioAnalysis.BalancedIff | Main.c:371-419 | The detector reports a balanced portfolio exactly when every category's deviation lies within 2 points |
| NaryPortfolio.Node.StatusRows | Main.c:291-311 | The loop builds, in category order, the report rows of `PercentReport` |
| BinaryPortfolio.BNode.StatusRows | src/luis.c:199-239 | The left and right sides give the rows of `PercentReport` |
| NaryPortfolio.Portfolio.UpdatePercentages | Main.c:277-312 | Recomputes the totals and returns the status rows of the recomputed tree; an empty portfolio is an error |
| BinaryPortfolio.BPortfolio.UpdatePercentages | src/luis.c:186-240 | The same for the binary portfolio |
| NaryPortfolio.Node.BalanceRows | Main.c:384-409 | The loop builds the rows of `BalanceReport` and raises its flag exactly when some row is outside the tolerance |
| BinaryPortfolio.BNode.BalanceRows | src/Gabriel.c:83-130 | The left and right sides give the rows of `BalanceReport` and the flag is raised exactly when one is out of band |
| NaryPortfolio.Portfolio.Detect | Main.c:371-419 | Recomputes the totals and returns the balance rows and whether the portfolio is unbalanced; an empty portfolio is an error |
| BinaryPortfolio.BPortfolio.Detect | src/Gabriel.c:70-140 | The same for the binary portfolio |
| PortfolioAnalysis.ActionFor | Main.c:474-482 | A category gets a sell order for its excess when it holds more than 2% of the total above its target, a buy order for its shortfall when it holds more than 2% below, and no order otherwise |
| PortfolioAnalysis.ThresholdsAgree | Main.c:448-482 | For a positive total, the value threshold of the advice and the percentage tolerance of the detector flag the same categories |
| PortfolioAnalysis.PrecheckIsDetect | Main.c:448-470 | The pre-check that ends the advice with "already balanced" is the same test as the detector |
| PortfolioAnalysis.AtMostOneActionPerCategory | Main.c:474-482 | The advice has at most one order per category and is empty exactly when no category is outside the threshold |
| PortfolioAnalysis.NaryAdviceConsistent | Main.c:421-485 | For a positive total, the n-ary advice says "already balanced" exactly when no category needs an order, and a rebalance advice is never empty |
| PortfolioAnalysis.NaryAgreesWithBinary | src/Gabriel.c:143-196 | For a positive total and short category names, the binary advice (no pre-check, a flag at the end) equals the n-ary advice |
| PortfolioAnalysis.AdviceNamesShort | Main.c:455-456 | Copying category names into the 50-byte buffer (49 characters) changes nothing when every name fits |
| NaryPortfolio.Node.AdviceTable | Main.c:444-464 | The first loop fills the name, actual value and target value of every category and computes the pre-check flag of `NeedsRebalance` |
| NaryPortfolio.Node.Advise | Main.c:421-485 | The advice produced on the heap is `NaryAdvice` of the tree |
| BinaryPortfolio.BNode.ActionLine | src/Gabriel.c:161-189 | One side's order is `ActionFor` of that category |
| BinaryPortfolio.BNode.Advise | src/Gabriel.c:143-196 | The advice produced on the heap is `BinaryAdvice` of the tree |
| NaryPortfolio.Portfolio.Suggest | Main.c:421-485 | Recomputes the totals and returns the advice of the recomputed tree; an empty portfolio is an error |
| BinaryPortfolio.BPortfolio.Suggest | src/Gabriel.c:143-196 | The same for the binary portfolio, without a zero-total precondition because no division happens there |
| PortfolioAnalysis.CreditAssetsSum | Main.c:521-528 | Crediting `per` to every asset of a category raises its subtree sum by the number of assets times `per` |
| PortfolioAnalysis.SpreadEqualSum | Main.c:516-529 | Spreading a category's share equally among its assets raises its sum by the whole share, or by nothing when it has no assets |
| PortfolioAnalysis.ContributeEqualSum | Main.c:487-539 | The n-ary contribution raises the sum of all amounts by the shares of the categories that have assets |
| PortfolioAnalysis.ContributionConserved | Main.c:487-539 | When every category has an asset and the targets add up to 100, the contribution raises the total by exactly the contributed amount |
| PortfolioAnalysis.ContributeEqualShape | Main.c:487-539 | A contribution changes amounts only: names, kinds and places are kept, so every search answers as before |
| PortfolioAnalysis.SpreadHalfSum | src/Gabriel.c:227-233 | In the binary variant each asset side of a category gets half of its share, so the category gains the number of assets times half the share |
| PortfolioAnalysis.TwoAssetsGainShare | src/Gabriel.c:227-252 | A binary category with two assets gains exactly its share |
| PortfolioAnalysis.ContributeHalfSum | src/Gabriel.c:199-262 | The binary contribution raises the sum of all amounts by the sum of the half-credits given to the assets |
| NaryPortfolio.Node.CountAssets | Main.c:517-519 | The counting loop returns the number of asset children |
| NaryPortfolio.Node.CreditAssets | Main.c:521-528 | The loop adds `per` to every asset child and leaves the other children unchanged |
| NaryPortfolio.Node.SpreadEqually | Main.c:516-529 | Spreads the share among the asset children exactly as `SpreadEqual` does |
| NaryPortfolio.Node.Contribute | Main.c:505-530 | The loop over the categories gives every category its target share, as `ContributeEqual` does |
| NaryPortfolio.Portfolio.SimulateContribution | Main.c:487-539 | A non-positive amount is rejected and changes nothing. Otherwise the tree becomes the recomputed `ContributeEqual` tree, with its total cached |
| BinaryPortfolio.BNode.CreditHalves | src/Gabriel.c:227-233 | Each asset side of a category gets half of the share, as `SpreadHalf` does |
| BinaryPortfolio.BNode.Contribute | src/Gabriel.c:217-253 | Left category then right category, each spread by halves, as `ContributeHalf` does |
| BinaryPortfolio.BPortfolio.SimulateContribution | src/Gabriel.c:199-262 | A non-positive amount is rejected and changes nothing. Otherwise the tree becomes the recomputed `ContributeHalf` tree, with its total cached |
| PortfolioAnalysis.UpdateMarketSpec | Main.c:541-578 | The update fails with "not found" or "not an asset" exactly in those cases. Otherwise it returns the old amount, and the recomputed tree has the new amount at the found path. The new total is the old total minus the old amount plus the new one, and the search still finds the same node |
| PortfolioAnalysis.UpdateToSameValue | Main.c:541-578 | Writing an asset's own amount back gives a variation of 0 and leaves the total unchanged |
| PortfolioAnalysis.RecomputeAtPath | Main.c:564-567 | Recomputing the whole tree recomputes, at every path, the subtree found there |
| NaryPortfolio.Node.UpdateFirst | Main.c:547-564 | Writing through the search result sets the amount of the first pre-order match and nothing else, and reports whether a match exists |
| BinaryPortfolio.BNode.UpdateFirst | src/Gabriel.c:271-289 | The same for the binary search order |
| NaryPortfolio.Portfolio.UpdateMarketValue | Main.c:541-578 | On the heap, the update returns the old amount and the variation of `UpdateMarket` and leaves its tree and total, or reports its error and changes nothing |
| BinaryPortfolio.BPortfolio.UpdateMarketValue | src/Gabriel.c:265-303 | The same for the binary portfolio |
| PortfolioAnalysis.ListAssetsSpec | Main.c:315-346 | Listing fails with "not found" or "not a category" exactly in those cases. Otherwise it names the category, lists every child in order with its name and invested amount, and reports the category's cached total |
| NaryPortfolio.Node.Holdings | Main.c:338-343 | The loop lists every child's name and amount, in order |
| BinaryPortfolio.BNode.Holdings | src/luis.c:263-275 | The left then right child's name and amount |
| NaryPortfolio.Portfolio.ListAssets | Main.c:315-346 | The listing produced on the heap is `ListAssets` of the tree, and an empty portfolio is an error |
| BinaryPortfolio.BPortfolio.ListAssets | src/luis.c:243-282 | The same for the binary portfolio |
| MainScenario.AccentedPreset | luis.c:148-151 | In the portfolio this file builds, whose equity category is "Ações", a lookup of "Acoes" finds nothing, for every profile and amount |
| MainScenario.StartState | Main.c:592-597 | The conservative portfolio starts at 35%/35% of the initial amount in fixed income, 10%/10% in equities and 10% in cash, with the initial amount as its total |
| MainScenario.StartBalanced | Main.c:595-597 | The starting portfolio is balanced |
| MainScenario.MarketState | Main.c:600-601 | Setting PETR4 to a price returns its previous 10% and leaves every other holding as it was |
| MainScenario.MarketAnalysis | Main.c:600-603 | After PETR4 doubles, the total is 110% of the start. Fixed income is below band, equities above, cash within, and the advice is: buy 7% of the initial amount in fixed income, sell 8% in equities |
| MainScenario.ContributeStep | Main.c:606-607 | A positive contribution gives 35%, 35%, 10%, 10% and 10% of the amount to the five assets; a non-positive one is rejected |
| MainScenario.ContributionState | Main.c:606-608 | After the contribution of 10% of the start the total is 120% of the start |
| MainScenario.ContributionRows | Main.c:606-608 | After the contribution the detector still reports fixed income below, equities above and cash within |
| MainScenario.ListEquities | Main.c:611-612 | Listing "Acoes" gives PETR4 then ITUB4 with their amounts and their sum |
| MainScenario.RemoveStep | Main.c:615-616 | Removing ITUB4 succeeds and leaves the equities category with PETR4 alone, every other category unchanged |
| MainScenario.RemovalStatus | Main.c:615-617 | After removing ITUB4 the total is 109% of the start and all three categories are within 1 point of their targets |
| MainScenario.MainRunMarket | Main.c:591-603 | With 10000: the total starts at 10000. PETR4 goes from 1000 to 2000, a variation of 100%, and the total becomes 11000. The advice is to buy 700 of fixed income and sell 800 of equities |
| MainScenario.MainRunContribution | Main.c:606-612 | Contributing 1000 makes the total 12000, and "Acoes" then lists PETR4 2100 and ITUB4 1100, 3200 in all |
| MainScenario.MainRunRemoval | Main.c:615-617 | Removing ITUB4 then leaves a total of 10900 |

## Left out

- Console output is not modelled: every `printf`, the printed formatting and the "%.2f" rounding are outside the model. What an operation prints becomes its result: rows, advice, listing, change, or an error value.
- The locale setting at the start of `main` (`Main.c:585`) is not modelled; the tests of `main` become the `MainScenario` lemmas.
- Amounts are modelled as exact `real` numbers. The model leaves out `float` precision and rounding, so the figures of the scenario lemmas are exact values and not the rounded single-precision ones the program computes.
- Memory management is not modelled: `malloc`, `free`, `liberar_no` and `liberar_arvore`. After a removal the unlinked node stays in the ghost footprint instead of being freed.
- `src/marcello.c` (the interactive menu) and `struct.h` (declarations only) are not part of this model.
- A Dafny reference is never null, so the `arvore == NULL` half of each emptiness test is not modelled. The `raiz == NULL` half is modelled as `root == null`.
- NaryPortfolio.Portfolio.UpdatePercentages, NaryPortfolio.Portfolio.Detect and NaryPortfolio.Portfolio.Suggest require a non-zero total. The C code divides by the total there, and a float division by zero has no counterpart on reals.
- BinaryPortfolio.BPortfolio.UpdatePercentages and BinaryPortfolio.BPortfolio.Detect require a non-zero total for the same reason.
- NaryPortfolio.Node.AddChild requires the child's footprint to be disjoint from the parent's. In the C code a node could be linked twice and form a cycle or a shared subtree.
- BinaryPortfolio.BNode.LinkLeft and BinaryPortfolio.BNode.LinkRight require the side to be empty. The C code only ever links into fresh nodes, and an overwritten child would be leaked.
- A node's name, kind and target are constants: no C function writes them after `criar_no`.
- Names are copied with `strncpy` into 64-byte buffers (63 characters and a terminator) and into the 50-byte advice buffer (49 characters). The model keeps the character limits and leaves out the terminators and byte encoding: a name is a sequence of characters.
- `luis.c` repeats the tree functions of `Main.c` with "Ações" as the equity category. The model covers it through the `equityName` parameter of the n-ary profile builder. `MainScenario` uses "Acoes" as `main` does, and `AccentedPreset` states that the accented portfolio has no "Acoes" category.
- The binary profile builder links the categories into the root before adding their assets. The model builds each category with its assets first and then links both into the root. The resulting tree is the same.
