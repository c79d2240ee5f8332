/**
 * `addPlanDerived` (`api/ai.js`): validation warnings and a six-month
 * projection of revenue, gross profit, net profit and cumulative net profit
 * for a normalised plan, with every amount rounded to cents, and the first
 * month whose cumulative net profit is not negative.
 *
 * Amounts are exact reals; `+(x).toFixed(2)` is `Round2`, rounding half away
 * from zero as `toFixed` does on the exact value.
 */
module Projection {
  import opened Json
  import opened Plan

  // ------------------------------------------------------------- rounding

  /** A whole number of cents. */
  predicate IsCents(x: real) {
    (x * 100.0).Floor as real == x * 100.0
  }

  /** The whole number of cents `toFixed(2)` rounds `x` to, half away from zero. */
  function Cents(x: real): int {
    if x >= 0.0 then (x * 100.0 + 0.5).Floor else -((-x * 100.0 + 0.5).Floor)
  }

  /** `+(x).toFixed(2)`: a whole number of cents, within half a cent of `x`. */
  function Round2(x: real): (r: real)
    ensures IsCents(r)
    ensures x - 0.005 <= r <= x + 0.005
  {
    var k := Cents(x);
    if x >= 0.0 then
      assert k as real <= x * 100.0 + 0.5 < k as real + 1.0;
      assert (k as real / 100.0) * 100.0 == k as real;
      k as real / 100.0
    else
      assert -k as real <= -x * 100.0 + 0.5 < -k as real + 1.0;
      assert (k as real / 100.0) * 100.0 == k as real;
      k as real / 100.0
  }

  /** An amount already in cents is left alone. */
  lemma Round2OfCents(x: real)
    requires IsCents(x)
    ensures Round2(x) == x
  {
    var k := (x * 100.0).Floor;
    assert x * 100.0 == k as real;
    if x >= 0.0 {
      assert (x * 100.0 + 0.5).Floor == k;
    } else {
      assert (-x * 100.0 + 0.5).Floor == -k;
    }
    assert Cents(x) == k;
  }

  /** Rounding twice is rounding once. */
  lemma Round2Idempotent(x: real)
    ensures Round2(Round2(x)) == Round2(x)
  {
    Round2OfCents(Round2(x));
  }

  // --------------------------------------------------------------- inputs

  /** `Math.max(0, Math.min(growthPct, 300))`. */
  function ClampGrowth(g: real): (r: real)
    ensures 0.0 <= r <= 300.0
    ensures 0.0 <= g <= 300.0 ==> r == g
    ensures g < 0.0 ==> r == 0.0
    ensures g > 300.0 ==> r == 300.0
  {
    if g < 0.0 then 0.0 else if g > 300.0 then 300.0 else g
  }

  /** `Number(plan.sales.estMonthlyUnits || 0)`: a `NaN` count reads as `0`. */
  function EstUnits(p: Plan): real {
    match p.sales.estMonthlyUnits
    case None => 0.0
    case Some(k) => k as real
  }

  /** The sum of the inventory unit costs, added left to right. */
  function UnitCostSum(items: seq<Item>): real {
    if |items| == 0 then 0.0 else UnitCostSum(items[..|items| - 1]) + items[|items| - 1].unitCost
  }

  /** `inventory.reduce(...) / inventory.length`, or `0` for no inventory. */
  function AvgUnitCost(items: seq<Item>): real {
    if |items| == 0 then 0.0 else UnitCostSum(items) / |items| as real
  }

  /** The sum of the monthly expense costs, added left to right. */
  function MonthlyFixed(es: seq<Expense>): real {
    if |es| == 0 then 0.0 else MonthlyFixed(es[..|es| - 1]) + es[|es| - 1].monthlyCost
  }

  // ------------------------------------------------------------- warnings

  /** One `negative_inventory_unit_cost` per inventory row with a negative cost, in order. */
  function InventoryWarnings(items: seq<Item>): (w: seq<string>)
    ensures |w| <= |items|
  {
    if |items| == 0 then []
    else
      InventoryWarnings(items[..|items| - 1])
      + (if items[|items| - 1].unitCost < 0.0 then ["negative_inventory_unit_cost"] else [])
  }

  /** One `negative_expense_monthly_cost` per expense row with a negative cost, in order. */
  function ExpenseWarnings(es: seq<Expense>): (w: seq<string>)
    ensures |w| <= |es|
  {
    if |es| == 0 then []
    else
      ExpenseWarnings(es[..|es| - 1])
      + (if es[|es| - 1].monthlyCost < 0.0 then ["negative_expense_monthly_cost"] else [])
  }

  /** The validation warnings, in the order the checks run. */
  function Warnings(p: Plan): seq<string> {
    (if p.pricing.pricePerUnit <= 0.0 then ["price_per_unit_non_positive"] else [])
    + (if p.sales.growthPctMonth > 10000.0 then ["growth_pct_implausible"] else [])
    + InventoryWarnings(p.inventory)
    + ExpenseWarnings(p.expenses)
    + (if p.pricing.capitalRequired < 0.0 then ["capital_required_negative"] else [])
  }

  // ----------------------------------------------------------- projection

  /** What the projection reads off a plan. */
  datatype Inputs = Inputs(price: real, units: real, growth: real, avgUnitCost: real, monthlyFixed: real)

  function InputsOf(p: Plan): (r: Inputs)
    ensures 0.0 <= r.growth <= 300.0
  {
    Inputs(p.pricing.pricePerUnit, EstUnits(p), ClampGrowth(p.sales.growthPctMonth),
           AvgUnitCost(p.inventory), MonthlyFixed(p.expenses))
  }

  /** One month's growth of the unit count: `units *= (1 + growth / 100)`. */
  function Grow(x: Inputs, units: real): real {
    units * (1.0 + x.growth / 100.0)
  }

  /** The units sold in month `i`: the estimate compounded `i` times by the growth. */
  function UnitsAt(x: Inputs, i: nat): real {
    if i == 0 then x.units else Grow(x, UnitsAt(x, i - 1))
  }

  /** A month's revenue for `units` units sold. */
  function Revenue(x: Inputs, units: real): real {
    Round2(units * x.price)
  }

  /** A month's gross profit: revenue less the cost of the goods sold, both rounded. */
  function Gross(x: Inputs, units: real): real {
    Round2(Revenue(x, units) - Round2(units * x.avgUnitCost))
  }

  /** A month's net profit: gross profit less the fixed monthly costs. */
  function Net(x: Inputs, units: real): real {
    Round2(Gross(x, units) - x.monthlyFixed)
  }

  /** A plan with its projection: the spread of `plan` and the derived fields. */
  datatype Derived = Derived(
    plan: Plan,
    planVersion: int,
    projectedRevenueMonths: seq<real>,
    grossProfitMonths: seq<real>,
    netProfitMonths: seq<real>,
    cumulativeNetProfitMonths: seq<real>,
    computedBreakevenMonth: Option<int>,
    validationWarnings: seq<string>)

  /** `s[j] == f(j)` for every month `j` of `s`. */
  predicate Matches(s: seq<real>, f: nat -> real) {
    forall j :: 0 <= j < |s| ==> s[j] == f(j)
  }

  /** Each running total is the previous one (none before the first) plus the month's net profit, rounded by `round`. */
  predicate Running(net: seq<real>, cumulative: seq<real>, round: real -> real) {
    |net| == |cumulative|
    && (|cumulative| > 0 ==> cumulative[0] == round(net[0]))
    && (forall j :: 0 < j < |cumulative| ==> cumulative[j] == round(cumulative[j - 1] + net[j]))
  }

  /** Month `j`'s revenue, gross profit and net profit. */
  function RevenueAt(x: Inputs): nat -> real {
    (j: nat) => Revenue(x, UnitsAt(x, j))
  }

  function GrossAt(x: Inputs): nat -> real {
    (j: nat) => Gross(x, UnitsAt(x, j))
  }

  function NetAt(x: Inputs): nat -> real {
    (j: nat) => Net(x, UnitsAt(x, j))
  }

  /** The first `n` months of the series as the loop builds them. */
  predicate MonthsUpTo(x: Inputs, n: nat, revenue: seq<real>, gross: seq<real>, net: seq<real>, cumulative: seq<real>) {
    |revenue| == n && |gross| == n && |net| == n && |cumulative| == n
    && Matches(revenue, RevenueAt(x)) && Matches(gross, GrossAt(x)) && Matches(net, NetAt(x))
    && Running(net, cumulative, Round2)
  }

  /** The running total before the next month: `0` before the first. */
  function LastOr(s: seq<real>): real {
    if |s| == 0 then 0.0 else s[|s| - 1]
  }

  /** The four series of `addPlanDerived`, month by month. */
  datatype Months = Months(revenue: seq<real>, gross: seq<real>, net: seq<real>, cumulative: seq<real>)

  /** One more month sold at `units`: its figures, and the running total plus its net profit. */
  function Extend(m: Months, x: Inputs, units: real): Months {
    var net := Net(x, units);
    Months(m.revenue + [Revenue(x, units)], m.gross + [Gross(x, units)], m.net + [net],
           m.cumulative + [Round2(LastOr(m.cumulative) + net)])
  }

  /** The series after `n` months. */
  function Series(x: Inputs, n: nat): Months {
    if n == 0 then Months([], [], [], []) else Extend(Series(x, n - 1), x, UnitsAt(x, n - 1))
  }

  predicate MonthsOk(x: Inputs, n: nat, m: Months) {
    MonthsUpTo(x, n, m.revenue, m.gross, m.net, m.cumulative)
  }

  /** Appending the next month's figures extends the series by one month. */
  lemma ExtendStep(x: Inputs, n: nat, m: Months)
    requires MonthsOk(x, n, m)
    ensures MonthsOk(x, n + 1, Extend(m, x, UnitsAt(x, n)))
  {
    var u := UnitsAt(x, n);
    ExtendParts(m, x, u);
    assert RevenueAt(x)(n) == Revenue(x, u) && GrossAt(x)(n) == Gross(x, u) && NetAt(x)(n) == Net(x, u);
    SnocMatches(m.revenue, Revenue(x, u), RevenueAt(x));
    SnocMatches(m.gross, Gross(x, u), GrossAt(x));
    SnocMatches(m.net, Net(x, u), NetAt(x));
    SnocRunning(m.net, m.cumulative, Net(x, u), Round2(LastOr(m.cumulative) + Net(x, u)), Round2);
  }

  lemma ExtendParts(m: Months, x: Inputs, units: real)
    ensures Extend(m, x, units) == Months(m.revenue + [Revenue(x, units)], m.gross + [Gross(x, units)],
      m.net + [Net(x, units)], m.cumulative + [Round2(LastOr(m.cumulative) + Net(x, units))])
  {
  }

  /** The loop's next pass: month `i`'s figures appended, and the unit count grown once. */
  lemma SeriesStep(x: Inputs, i: nat)
    ensures var m := Series(x, i); var u := UnitsAt(x, i);
      Series(x, i + 1) == Months(m.revenue + [Revenue(x, u)], m.gross + [Gross(x, u)], m.net + [Net(x, u)],
                                 m.cumulative + [Round2(LastOr(m.cumulative) + Net(x, u))])
      && UnitsAt(x, i + 1) == Grow(x, u)
  {
    ExtendParts(Series(x, i), x, UnitsAt(x, i));
  }

  /** A series matching `f` still matches it with `f`'s next value appended. */
  lemma SnocMatches(s: seq<real>, v: real, f: nat -> real)
    requires Matches(s, f) && v == f(|s|)
    ensures Matches(s + [v], f)
  {
    forall j | 0 <= j < |s| + 1 ensures (s + [v])[j] == f(j) {
      if j < |s| {
        assert (s + [v])[j] == s[j];
      }
    }
  }

  /** Appending a month's net profit and the running total plus it, rounded, keeps the totals running. */
  lemma SnocRunning(net: seq<real>, cumulative: seq<real>, v: real, total: real, round: real -> real)
    requires Running(net, cumulative, round) && total == round(LastOr(cumulative) + v)
    ensures Running(net + [v], cumulative + [total], round)
  {
    var c := cumulative + [total];
    var t := net + [v];
    if |cumulative| == 0 {
      assert LastOr(cumulative) + v == v;
    }
    forall j | 0 < j < |c| ensures c[j] == round(c[j - 1] + t[j]) {
      if j < |cumulative| {
        assert c[j] == cumulative[j] && c[j - 1] == cumulative[j - 1] && t[j] == net[j];
      }
    }
  }

  /** The series after `n` months holds, month by month, the figures of `MonthsUpTo`. */
  lemma {:induction false} SeriesMonths(x: Inputs, n: nat)
    ensures MonthsOk(x, n, Series(x, n))
  {
    if n > 0 {
      SeriesMonths(x, n - 1);
      ExtendStep(x, n - 1, Series(x, n - 1));
    }
  }

  /** `idx` is the first index whose cumulative net profit is not negative, or `-1` if none is. */
  predicate FirstBreakeven(cumulative: seq<real>, idx: int) {
    -1 <= idx < |cumulative|
    && (idx == -1 <==> forall j :: 0 <= j < |cumulative| ==> cumulative[j] < 0.0)
    && (idx >= 0 ==> cumulative[idx] >= 0.0 && forall j :: 0 <= j < idx ==> cumulative[j] < 0.0)
  }

  /**
   * `month` is the 1-based month whose cumulative net profit is first not
   * negative, or `None` when every month's is negative.
   */
  predicate BreakevenMonth(cumulative: seq<real>, month: Option<int>) {
    (month.None? <==> forall i :: 0 <= i < |cumulative| ==> cumulative[i] < 0.0)
    && (month.Some? ==>
          1 <= month.value <= |cumulative| && cumulative[month.value - 1] >= 0.0
          && forall i :: 0 <= i < month.value - 1 ==> cumulative[i] < 0.0)
  }

  /** At most one month is the breakeven month of a series. */
  lemma BreakevenMonthUnique(cumulative: seq<real>, m1: Option<int>, m2: Option<int>)
    requires BreakevenMonth(cumulative, m1) && BreakevenMonth(cumulative, m2)
    ensures m1 == m2
  {
  }

  /** `breakevenIdx >= 0 ? breakevenIdx + 1 : null` names the breakeven month. */
  lemma BreakevenMonthOfIndex(cumulative: seq<real>, idx: int)
    requires FirstBreakeven(cumulative, idx)
    ensures BreakevenMonth(cumulative, if idx >= 0 then Some(idx + 1) else None)
  {
  }

  /** Appending a running total keeps the first non-negative index, or records this one. */
  lemma BreakevenStep(cumulative: seq<real>, idx: int, c: real)
    requires FirstBreakeven(cumulative, idx)
    ensures FirstBreakeven(cumulative + [c], if idx == -1 && c >= 0.0 then |cumulative| else idx)
  {
    var t := cumulative + [c];
    assert forall j :: 0 <= j < |cumulative| ==> t[j] == cumulative[j];
    assert t[|cumulative|] == c;
  }

  /** The six-month loop of `addPlanDerived`. */
  method ProjectMonths(x: Inputs) returns (revenueMonths: seq<real>, grossProfitMonths: seq<real>,
                                           netProfitMonths: seq<real>, cumulativeMonths: seq<real>, breakevenIdx: int)
    ensures MonthsUpTo(x, 6, revenueMonths, grossProfitMonths, netProfitMonths, cumulativeMonths)
    ensures FirstBreakeven(cumulativeMonths, breakevenIdx)
  {
    revenueMonths, grossProfitMonths, netProfitMonths, cumulativeMonths := [], [], [], [];
    var units := x.units;
    var cumulative := 0.0;
    breakevenIdx := -1;
    var i := 0;
    while i < 6
      invariant 0 <= i <= 6
      invariant |cumulativeMonths| == i
      invariant Months(revenueMonths, grossProfitMonths, netProfitMonths, cumulativeMonths) == Series(x, i)
      invariant units == UnitsAt(x, i)
      invariant cumulative == LastOr(cumulativeMonths)
      invariant FirstBreakeven(cumulativeMonths, breakevenIdx)
    {
      SeriesStep(x, i);
      var revenue := Revenue(x, units);
      var gross := Gross(x, units);
      var net := Net(x, units);
      cumulative := Round2(cumulative + net);
      BreakevenStep(cumulativeMonths, breakevenIdx, cumulative);
      revenueMonths := revenueMonths + [revenue];
      grossProfitMonths := grossProfitMonths + [gross];
      netProfitMonths := netProfitMonths + [net];
      cumulativeMonths := cumulativeMonths + [cumulative];
      if breakevenIdx == -1 && cumulative >= 0.0 {
        breakevenIdx := i;
      }
      units := Grow(x, units);
      i := i + 1;
    }
    SeriesMonths(x, 6);
  }

  /** The inventory `reduce`: the unit costs summed, one warning per negative cost. */
  method SumUnitCosts(inventory: seq<Item>) returns (total: real, warnings: seq<string>)
    ensures total == UnitCostSum(inventory)
    ensures warnings == InventoryWarnings(inventory)
  {
    total, warnings := 0.0, [];
    var k := 0;
    while k < |inventory|
      invariant 0 <= k <= |inventory|
      invariant total == UnitCostSum(inventory[..k])
      invariant warnings == InventoryWarnings(inventory[..k])
    {
      assert inventory[..k + 1][..k] == inventory[..k];
      var uc := inventory[k].unitCost;
      if uc < 0.0 {
        warnings := warnings + ["negative_inventory_unit_cost"];
      }
      total := total + uc;
      k := k + 1;
    }
    assert inventory[..|inventory|] == inventory;
  }

  /** The expenses loop: the monthly costs summed, one warning per negative cost. */
  method SumMonthlyCosts(expenses: seq<Expense>) returns (monthlyFixed: real, warnings: seq<string>)
    ensures monthlyFixed == MonthlyFixed(expenses)
    ensures warnings == ExpenseWarnings(expenses)
  {
    monthlyFixed, warnings := 0.0, [];
    var k := 0;
    while k < |expenses|
      invariant 0 <= k <= |expenses|
      invariant monthlyFixed == MonthlyFixed(expenses[..k])
      invariant warnings == ExpenseWarnings(expenses[..k])
    {
      assert expenses[..k + 1][..k] == expenses[..k];
      var mc := expenses[k].monthlyCost;
      if mc < 0.0 {
        warnings := warnings + ["negative_expense_monthly_cost"];
      }
      monthlyFixed := monthlyFixed + mc;
      k := k + 1;
    }
    assert expenses[..|expenses|] == expenses;
  }

  /**
   * The part of `addPlanDerived` before the month loop: the validation
   * warnings, in the order the checks run, and the figures the loop reads.
   */
  method CheckAndSum(p: Plan) returns (warnings: seq<string>, x: Inputs)
    ensures warnings == Warnings(p)
    ensures x == InputsOf(p)
  {
    warnings := [];
    var price := p.pricing.pricePerUnit;
    if price <= 0.0 {
      warnings := warnings + ["price_per_unit_non_positive"];
    }
    var estUnits := EstUnits(p);
    var growthPct := p.sales.growthPctMonth;
    if growthPct > 10000.0 {
      warnings := warnings + ["growth_pct_implausible"];
    }
    var growth := ClampGrowth(growthPct);
    ghost var early := warnings;
    assert early == (if price <= 0.0 then ["price_per_unit_non_positive"] else [])
                    + (if growthPct > 10000.0 then ["growth_pct_implausible"] else []);

    var inventory := p.inventory;
    var total, inventoryWarnings := SumUnitCosts(inventory);
    warnings := warnings + inventoryWarnings;
    var avgUnitCost := if |inventory| > 0 then total / |inventory| as real else 0.0;
    var monthlyFixed, expenseWarnings := SumMonthlyCosts(p.expenses);
    warnings := warnings + expenseWarnings;
    if p.pricing.capitalRequired < 0.0 {
      warnings := warnings + ["capital_required_negative"];
    }

    assert warnings == early + InventoryWarnings(inventory) + ExpenseWarnings(p.expenses)
                       + (if p.pricing.capitalRequired < 0.0 then ["capital_required_negative"] else []);
    x := Inputs(price, estUnits, growth, avgUnitCost, monthlyFixed);
  }

  /**
   * `addPlanDerived(plan)`. Each month's amounts follow from the compounded
   * unit count; the cumulative series starts from `0` and adds each month's
   * net profit; the breakeven month is one past the first index whose
   * cumulative net profit is not negative, and `None` when there is none.
   */
  method AddPlanDerived(p: Plan) returns (d: Derived)
    ensures d.plan == p && d.planVersion == 4
    ensures d.validationWarnings == Warnings(p)
    ensures MonthsUpTo(InputsOf(p), 6, d.projectedRevenueMonths, d.grossProfitMonths,
                       d.netProfitMonths, d.cumulativeNetProfitMonths)
    ensures BreakevenMonth(d.cumulativeNetProfitMonths, d.computedBreakevenMonth)
  {
    var warnings, x := CheckAndSum(p);
    var revenueMonths, grossProfitMonths, netProfitMonths, cumulativeMonths, breakevenIdx := ProjectMonths(x);
    var breakevenMonth := if breakevenIdx >= 0 then Some(breakevenIdx + 1) else None;
    BreakevenMonthOfIndex(cumulativeMonths, breakevenIdx);
    d := Derived(p, 4, revenueMonths, grossProfitMonths, netProfitMonths, cumulativeMonths, breakevenMonth, warnings);
  }

  // --------------------------------------------------------------- lemmas

  /**
   * Growth is clamped below at zero, so the unit count never shrinks from
   * one month to the next when the estimate is not negative.
   */
  lemma {:induction false} UnitsNonDecreasing(x: Inputs, i: nat)
    requires x.units >= 0.0 && x.growth >= 0.0
    ensures 0.0 <= UnitsAt(x, i) <= UnitsAt(x, i + 1)
  {
    if i > 0 {
      UnitsNonDecreasing(x, i - 1);
    }
    var u := UnitsAt(x, i);
    assert UnitsAt(x, i + 1) == Grow(x, u) == u * (1.0 + x.growth / 100.0);
    assert u * (1.0 + x.growth / 100.0) == u + u * (x.growth / 100.0);
    assert u * (x.growth / 100.0) >= 0.0;
  }

  /** The inventory check adds its warning exactly when some row has a negative cost. */
  lemma {:induction false} InventoryWarningsMembers(items: seq<Item>, w: string)
    ensures w in InventoryWarnings(items) <==>
      w == "negative_inventory_unit_cost" && exists i :: 0 <= i < |items| && items[i].unitCost < 0.0
  {
    if |items| > 0 {
      var init := items[..|items| - 1];
      InventoryWarningsMembers(init, w);
      if exists i :: 0 <= i < |items| && items[i].unitCost < 0.0 {
        var i :| 0 <= i < |items| && items[i].unitCost < 0.0;
        if i < |init| {
          assert init[i] == items[i];
        }
      }
      if exists i :: 0 <= i < |init| && init[i].unitCost < 0.0 {
        var i :| 0 <= i < |init| && init[i].unitCost < 0.0;
        assert items[i] == init[i];
      }
    }
  }

  /** The expense check adds its warning exactly when some row has a negative cost. */
  lemma {:induction false} ExpenseWarningsMembers(es: seq<Expense>, w: string)
    ensures w in ExpenseWarnings(es) <==>
      w == "negative_expense_monthly_cost" && exists i :: 0 <= i < |es| && es[i].monthlyCost < 0.0
  {
    if |es| > 0 {
      var init := es[..|es| - 1];
      ExpenseWarningsMembers(init, w);
      if exists i :: 0 <= i < |es| && es[i].monthlyCost < 0.0 {
        var i :| 0 <= i < |es| && es[i].monthlyCost < 0.0;
        if i < |init| {
          assert init[i] == es[i];
        }
      }
      if exists i :: 0 <= i < |init| && init[i].monthlyCost < 0.0 {
        var i :| 0 <= i < |init| && init[i].monthlyCost < 0.0;
        assert es[i] == init[i];
      }
    }
  }

  /** Each warning appears exactly when its check fails. */
  lemma WarningsMembers(p: Plan, w: string)
    ensures w in Warnings(p) <==>
      (w == "price_per_unit_non_positive" && p.pricing.pricePerUnit <= 0.0)
      || (w == "growth_pct_implausible" && p.sales.growthPctMonth > 10000.0)
      || (w == "negative_inventory_unit_cost" && exists i :: 0 <= i < |p.inventory| && p.inventory[i].unitCost < 0.0)
      || (w == "negative_expense_monthly_cost" && exists i :: 0 <= i < |p.expenses| && p.expenses[i].monthlyCost < 0.0)
      || (w == "capital_required_negative" && p.pricing.capitalRequired < 0.0)
  {
    InventoryWarningsMembers(p.inventory, w);
    ExpenseWarningsMembers(p.expenses, w);
  }

  /** A normalised plan has no negative expense, so that warning never appears. */
  lemma NoExpenseWarningOnValidPlan(p: Plan)
    requires ValidPlan(p)
    ensures "negative_expense_monthly_cost" !in Warnings(p)
  {
    forall i | 0 <= i < |p.expenses| ensures p.expenses[i].monthlyCost >= 0.0 {
      assert ValidExpense(p.expenses[i]);
    }
    WarningsMembers(p, "negative_expense_monthly_cost");
  }
}
