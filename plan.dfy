/**
 * `normalizePlan` (`api/ai.js`): a model reply coerced into the business-plan
 * shape. Numbers go through `Number` with non-finite values read as `0`,
 * counts through `parseInt`, lists of strings through trim-and-filter with a
 * cap, and inventory and expense rows are filtered on their own fields.
 */
module Plan {
  import opened Strings
  import opened Json
  import opened Limits
  import opened Lists

  datatype Pricing = Pricing(pricePerUnit: real, capitalRequired: real)

  /** `estMonthlyUnits` is `None` when `parseInt` gives `NaN`. */
  datatype Sales = Sales(estMonthlyUnits: Option<int>, assumptions: seq<string>, growthPctMonth: real)

  datatype Item = Item(name: string, qty: int, unitCost: real)

  datatype Expense = Expense(name: string, monthlyCost: real)

  datatype Metrics = Metrics(grossMarginPct: real, operatingMarginPct: real, breakevenMonths: real)

  datatype Plan = Plan(
    title: string,
    summary: string,
    pricing: Pricing,
    sales: Sales,
    inventory: seq<Item>,
    expenses: seq<Expense>,
    milestones: seq<string>,
    innovations: seq<string>,
    metrics: Metrics)

  /** `num(v)`: `Number(v)` when finite, `0` otherwise. */
  function Num(v: Json): (r: real)
    ensures v.JNum? ==> r == v.n
    ensures !Truthy(v) ==> r == 0.0
  {
    ToNumber(v).GetOr(0.0)
  }

  /** `String(v || '').trim().slice(0, max)`. */
  function Text(v: Json, max: nat): (r: string)
    ensures |r| == Min(max, |Trim(StrOr(v))|) && r == Trim(StrOr(v))[..|r|]
    ensures |r| == 0 || !IsSpace(r[0])
  {
    var t := Trim(StrOr(v));
    var c := Take(t, max);
    assert |c| == Min(max, |t|);
    assert |c| > 0 ==> c[0] == t[0];
    c
  }

  /** `arrStrings(a, max)`. */
  function StringList(a: Json, max: nat): (r: seq<string>)
    ensures |r| <= max && CleanList(r)
    ensures var c := CleanStringsOr(ArrayOr(a)); |r| == Min(max, |c|) && r == c[..|r|]
  {
    var c := CleanStringsOr(ArrayOr(a));
    TakeClean(c, max);
    Take(c, max)
  }

  // ------------------------------------------------------------ inventory

  /** An inventory row after the `map`, with `None` for a `NaN` quantity. */
  datatype RawItem = RawItem(name: string, qty: Option<int>, unitCost: real)

  /** A row the `filter` keeps: a name and a positive quantity. */
  predicate ValidItem(x: Item) {
    |x.name| > 0 && Trimmed(x.name) && x.qty > 0
  }

  /** `String(x.name || '').trim()`. */
  function NameText(x: Json): (n: string)
    ensures Trimmed(n)
  {
    Trim(StrOr(Get(x, "name")))
  }

  function RawItemOf(x: Json): (r: RawItem)
    ensures Trimmed(r.name)
  {
    RawItem(NameText(x), ParseIntOrZero(Get(x, "qty")), Num(Get(x, "unitCost")))
  }

  function MapItems(xs: seq<Json>): (r: seq<RawItem>)
    ensures |r| == |xs| && forall i :: 0 <= i < |xs| ==> r[i] == RawItemOf(xs[i])
  {
    seq(|xs|, i requires 0 <= i < |xs| => RawItemOf(xs[i]))
  }

  /** `.filter(i => i.name && i.qty > 0)`. */
  function KeepItems(raw: seq<RawItem>): (r: seq<Item>)
    requires forall i :: 0 <= i < |raw| ==> Trimmed(raw[i].name)
    ensures |r| <= |raw|
    ensures forall i :: 0 <= i < |r| ==> ValidItem(r[i])
  {
    if |raw| == 0 then []
    else
      var x := raw[0];
      var rest := KeepItems(raw[1..]);
      if Passes(x) then [AsItem(x)] + rest
      else rest
  }

  /** `i.name && i.qty > 0` on a row after the `map` (`NaN > 0` is false). */
  predicate Passes(x: RawItem) {
    |x.name| > 0 && x.qty.Some? && x.qty.value > 0
  }

  function AsItem(x: RawItem): Item
    requires x.qty.Some?
  {
    Item(x.name, x.qty.value, x.unitCost)
  }

  /** An item is kept exactly when some row passes the filter and carries it. */
  lemma {:induction false} KeepItemsMembers(raw: seq<RawItem>, it: Item)
    requires forall i :: 0 <= i < |raw| ==> Trimmed(raw[i].name)
    ensures it in KeepItems(raw) <==> exists j :: 0 <= j < |raw| && Passes(raw[j]) && it == AsItem(raw[j])
  {
    if |raw| > 0 {
      KeepItemsMembers(raw[1..], it);
      if exists j :: 0 <= j < |raw[1..]| && Passes(raw[1..][j]) && it == AsItem(raw[1..][j]) {
        var j :| 0 <= j < |raw[1..]| && Passes(raw[1..][j]) && it == AsItem(raw[1..][j]);
        assert raw[1 + j] == raw[1..][j];
      }
      if exists j :: 0 <= j < |raw| && Passes(raw[j]) && it == AsItem(raw[j]) {
        var j :| 0 <= j < |raw| && Passes(raw[j]) && it == AsItem(raw[j]);
        if j > 0 {
          assert raw[1..][j - 1] == raw[j];
        }
      }
    }
  }

  /** The filter works row by row, so the rows it keeps stay in input order. */
  lemma {:induction false} KeepItemsAppend(a: seq<RawItem>, b: seq<RawItem>)
    requires forall i :: 0 <= i < |a| ==> Trimmed(a[i].name)
    requires forall i :: 0 <= i < |b| ==> Trimmed(b[i].name)
    ensures KeepItems(a + b) == KeepItems(a) + KeepItems(b)
  {
    if |a| == 0 {
      assert a + b == b;
    } else {
      assert (a + b)[0] == a[0] && (a + b)[1..] == a[1..] + b;
      KeepItemsAppend(a[1..], b);
    }
  }

  /** `items(a, 6)`: a `TypeError` exactly when some row is `null`. */
  function NormalizeItems(a: Json): (r: Result<seq<Item>>)
    ensures r.Ok? <==> NoNull(ArrayOr(a))
    ensures r.Ok? ==> |r.value| <= 6 && forall i :: 0 <= i < |r.value| ==> ValidItem(r.value[i])
    ensures r.Ok? ==> r.value == Take(KeepItems(MapItems(ArrayOr(a))), 6)
  {
    var xs := ArrayOr(a);
    if NoNull(xs) then Ok(Take(KeepItems(MapItems(xs)), 6)) else TypeError
  }

  // ------------------------------------------------------------- expenses

  /** A row the `filter` keeps: a name and a cost that is not negative. */
  predicate ValidExpense(e: Expense) {
    |e.name| > 0 && Trimmed(e.name) && e.monthlyCost >= 0.0
  }

  function ExpenseOf(x: Json): (r: Expense)
    ensures Trimmed(r.name)
  {
    Expense(NameText(x), Num(Get(x, "monthlyCost")))
  }

  function MapExpenses(xs: seq<Json>): (r: seq<Expense>)
    ensures |r| == |xs| && forall i :: 0 <= i < |xs| ==> r[i] == ExpenseOf(xs[i])
  {
    seq(|xs|, i requires 0 <= i < |xs| => ExpenseOf(xs[i]))
  }

  /** `.filter(e => e.name && e.monthlyCost >= 0)`. */
  function KeepExpenses(es: seq<Expense>): (r: seq<Expense>)
    requires forall i :: 0 <= i < |es| ==> Trimmed(es[i].name)
    ensures |r| <= |es|
    ensures forall i :: 0 <= i < |r| ==> ValidExpense(r[i])
  {
    if |es| == 0 then []
    else
      var rest := KeepExpenses(es[1..]);
      if |es[0].name| > 0 && es[0].monthlyCost >= 0.0 then [es[0]] + rest else rest
  }

  /** An expense is kept exactly when it is a row with a name and a cost that is not negative. */
  lemma {:induction false} KeepExpensesMembers(es: seq<Expense>, e: Expense)
    requires forall i :: 0 <= i < |es| ==> Trimmed(es[i].name)
    ensures e in KeepExpenses(es) <==> e in es && |e.name| > 0 && e.monthlyCost >= 0.0
  {
    if |es| > 0 {
      KeepExpensesMembers(es[1..], e);
      assert e in es <==> e == es[0] || e in es[1..];
    }
  }

  /** The filter works row by row, so the rows it keeps stay in input order. */
  lemma {:induction false} KeepExpensesAppend(a: seq<Expense>, b: seq<Expense>)
    requires forall i :: 0 <= i < |a| ==> Trimmed(a[i].name)
    requires forall i :: 0 <= i < |b| ==> Trimmed(b[i].name)
    ensures KeepExpenses(a + b) == KeepExpenses(a) + KeepExpenses(b)
  {
    if |a| == 0 {
      assert a + b == b;
    } else {
      assert (a + b)[0] == a[0] && (a + b)[1..] == a[1..] + b;
      KeepExpensesAppend(a[1..], b);
    }
  }

  /** `expenses(a, 8)`: a `TypeError` exactly when some row is `null`. */
  function NormalizeExpenses(a: Json): (r: Result<seq<Expense>>)
    ensures r.Ok? <==> NoNull(ArrayOr(a))
    ensures r.Ok? ==> |r.value| <= 8 && forall i :: 0 <= i < |r.value| ==> ValidExpense(r.value[i])
    ensures r.Ok? ==> r.value == Take(KeepExpenses(MapExpenses(ArrayOr(a))), 8)
  {
    var xs := ArrayOr(a);
    if NoNull(xs) then Ok(Take(KeepExpenses(MapExpenses(xs)), 8)) else TypeError
  }

  // ----------------------------------------------------------------- plan

  /** Every bound `normalizePlan` puts on its result. */
  predicate ValidPlan(p: Plan) {
    |p.title| <= 120 && |p.summary| <= 240
    && (|p.title| == 0 || !IsSpace(p.title[0])) && (|p.summary| == 0 || !IsSpace(p.summary[0]))
    && |p.sales.assumptions| <= 6 && CleanList(p.sales.assumptions)
    && |p.inventory| <= 6 && (forall i :: 0 <= i < |p.inventory| ==> ValidItem(p.inventory[i]))
    && |p.expenses| <= 8 && (forall i :: 0 <= i < |p.expenses| ==> ValidExpense(p.expenses[i]))
    && |p.milestones| <= 8 && CleanList(p.milestones)
    && |p.innovations| <= 6 && CleanList(p.innovations)
  }

  function NormalizePricing(v: Json): Pricing {
    Pricing(Num(Get(v, "pricePerUnit")), Num(Get(v, "capitalRequired")))
  }

  function NormalizeSales(v: Json): (r: Sales)
    ensures |r.assumptions| <= 6 && CleanList(r.assumptions)
    ensures r.assumptions == StringList(Get(v, "assumptions"), 6)
    ensures r.estMonthlyUnits == ParseIntOrZero(Get(v, "estMonthlyUnits"))
    ensures r.growthPctMonth == Num(Get(v, "growthPctMonth"))
  {
    Sales(ParseIntOrZero(Get(v, "estMonthlyUnits")), StringList(Get(v, "assumptions"), 6), Num(Get(v, "growthPctMonth")))
  }

  function NormalizeMetrics(v: Json): Metrics {
    Metrics(Num(Get(v, "grossMarginPct")), Num(Get(v, "operatingMarginPct")), Num(Get(v, "breakevenMonths")))
  }

  /**
   * `normalizePlan(obj)`: `null` for anything that is not an object (arrays
   * are objects); a `TypeError` when an inventory or expense row is `null`;
   * otherwise a plan within every bound of `ValidPlan`.
   */
  function NormalizePlan(obj: Json): (r: Result<Option<Plan>>)
    ensures !(obj.JObj? || obj.JArr?) ==> r == Ok(None)
    ensures (obj.JObj? || obj.JArr?) ==>
      (r.Ok? <==> NoNull(ArrayOr(Get(obj, "inventory"))) && NoNull(ArrayOr(Get(obj, "expenses"))))
    ensures r.Ok? ==> (r.value.Some? <==> obj.JObj? || obj.JArr?)
    ensures r.Ok? && r.value.Some? ==> ValidPlan(r.value.value)
    ensures r.Ok? && r.value.Some? ==>
      var p := r.value.value;
      && p.title == Text(Get(obj, "title"), 120)
      && p.summary == Text(Get(obj, "summary"), 240)
      && p.pricing == NormalizePricing(Get(obj, "pricing"))
      && p.sales == NormalizeSales(Get(obj, "sales"))
      && p.inventory == NormalizeItems(Get(obj, "inventory")).value
      && p.expenses == NormalizeExpenses(Get(obj, "expenses")).value
      && p.milestones == StringList(Get(obj, "milestones"), 8)
      && p.innovations == StringList(Get(obj, "innovations"), 6)
      && p.metrics == NormalizeMetrics(Get(obj, "metrics"))
  {
    if !(obj.JObj? || obj.JArr?) then Ok(None)
    else
      var inventory := NormalizeItems(Get(obj, "inventory"));
      var expenses := NormalizeExpenses(Get(obj, "expenses"));
      if inventory.TypeError? || expenses.TypeError? then TypeError
      else
        Ok(Some(Plan(
          Text(Get(obj, "title"), 120),
          Text(Get(obj, "summary"), 240),
          NormalizePricing(Get(obj, "pricing")),
          NormalizeSales(Get(obj, "sales")),
          inventory.value,
          expenses.value,
          StringList(Get(obj, "milestones"), 8),
          StringList(Get(obj, "innovations"), 6),
          NormalizeMetrics(Get(obj, "metrics")))))
  }

  // ----------------------------------------------------------- round trip

  function ItemJson(x: Item): Json {
    JObj(map["name" := JStr(x.name), "qty" := JNum(x.qty as real), "unitCost" := JNum(x.unitCost)])
  }

  function ExpenseJson(e: Expense): Json {
    JObj(map["name" := JStr(e.name), "monthlyCost" := JNum(e.monthlyCost)])
  }

  function ItemsJson(xs: seq<Item>): (r: seq<Json>)
    ensures |r| == |xs| && forall i :: 0 <= i < |xs| ==> r[i] == ItemJson(xs[i])
  {
    seq(|xs|, i requires 0 <= i < |xs| => ItemJson(xs[i]))
  }

  function ExpensesJson(es: seq<Expense>): (r: seq<Json>)
    ensures |r| == |es| && forall i :: 0 <= i < |es| ==> r[i] == ExpenseJson(es[i])
  {
    seq(|es|, i requires 0 <= i < |es| => ExpenseJson(es[i]))
  }

  /** The plan as `JSON.stringify` would send it, with the units as a number. */
  function PlanJson(p: Plan): Json
    requires p.sales.estMonthlyUnits.Some?
  {
    JObj(map[
      "title" := JStr(p.title),
      "summary" := JStr(p.summary),
      "pricing" := JObj(map["pricePerUnit" := JNum(p.pricing.pricePerUnit), "capitalRequired" := JNum(p.pricing.capitalRequired)]),
      "sales" := JObj(map[
        "estMonthlyUnits" := JNum(p.sales.estMonthlyUnits.value as real),
        "assumptions" := JArr(StrPayload(p.sales.assumptions)),
        "growthPctMonth" := JNum(p.sales.growthPctMonth)]),
      "inventory" := JArr(ItemsJson(p.inventory)),
      "expenses" := JArr(ExpensesJson(p.expenses)),
      "milestones" := JArr(StrPayload(p.milestones)),
      "innovations" := JArr(StrPayload(p.innovations)),
      "metrics" := JObj(map[
        "grossMarginPct" := JNum(p.metrics.grossMarginPct),
        "operatingMarginPct" := JNum(p.metrics.operatingMarginPct),
        "breakevenMonths" := JNum(p.metrics.breakevenMonths)])])
  }

  lemma TextOfTrimmed(t: string, max: nat)
    requires Trimmed(t) && |t| <= max
    ensures Text(JStr(t), max) == t
  {
    assert StrOr(JStr(t)) == t;
    TrimOfTrimmed(t);
    assert Take(t, max) == t;
  }

  lemma StringListOfClean(ss: seq<string>, max: nat)
    requires CleanList(ss) && |ss| <= max
    ensures StringList(JArr(StrPayload(ss)), max) == ss
  {
    CleanStringsOfPayload(ss);
  }

  lemma RawItemOfJson(x: Item)
    requires ValidItem(x)
    ensures RawItemOf(ItemJson(x)) == RawItem(x.name, Some(x.qty), x.unitCost)
  {
    var j := ItemJson(x);
    assert Get(j, "name") == JStr(x.name) && Get(j, "qty") == JNum(x.qty as real) && Get(j, "unitCost") == JNum(x.unitCost);
    RawItemOfFields(j, x);
  }

  lemma RawItemOfFields(j: Json, x: Item)
    requires Trimmed(x.name)
    requires Get(j, "name") == JStr(x.name) && Get(j, "qty") == JNum(x.qty as real) && Get(j, "unitCost") == JNum(x.unitCost)
    ensures RawItemOf(j) == RawItem(x.name, Some(x.qty), x.unitCost)
  {
    assert StrOr(Get(j, "name")) == x.name;
    TrimOfTrimmed(x.name);
    ParseIntOrZeroOfInt(x.qty);
    assert ParseIntOrZero(Get(j, "qty")) == Some(x.qty);
    assert Num(Get(j, "unitCost")) == x.unitCost;
  }

  lemma {:induction false} KeepValidItems(xs: seq<Item>, raw: seq<RawItem>)
    requires forall i :: 0 <= i < |xs| ==> ValidItem(xs[i])
    requires |raw| == |xs| && forall i :: 0 <= i < |xs| ==> raw[i] == RawItem(xs[i].name, Some(xs[i].qty), xs[i].unitCost)
    requires forall i :: 0 <= i < |raw| ==> Trimmed(raw[i].name)
    ensures KeepItems(raw) == xs
  {
    if |xs| > 0 {
      KeepValidItems(xs[1..], raw[1..]);
    }
  }

  /** Valid inventory rows survive the trip through JSON and `items(a, 6)`. */
  lemma NormalizeItemsRoundTrip(xs: seq<Item>)
    requires |xs| <= 6 && forall i :: 0 <= i < |xs| ==> ValidItem(xs[i])
    ensures NormalizeItems(JArr(ItemsJson(xs))) == Ok(xs)
  {
    var js := ItemsJson(xs);
    assert NoNull(js);
    var raw := MapItems(js);
    forall i | 0 <= i < |xs| ensures raw[i] == RawItem(xs[i].name, Some(xs[i].qty), xs[i].unitCost) {
      RawItemOfJson(xs[i]);
    }
    forall i | 0 <= i < |raw| ensures Trimmed(raw[i].name) {
      assert ValidItem(xs[i]);
    }
    KeepValidItems(xs, raw);
  }

  lemma ExpenseOfJson(e: Expense)
    requires ValidExpense(e)
    ensures ExpenseOf(ExpenseJson(e)) == e
  {
    var j := ExpenseJson(e);
    assert Get(j, "name") == JStr(e.name) && Get(j, "monthlyCost") == JNum(e.monthlyCost);
    TrimOfTrimmed(e.name);
  }

  lemma {:induction false} KeepValidExpenses(es: seq<Expense>)
    requires forall i :: 0 <= i < |es| ==> ValidExpense(es[i])
    requires forall i :: 0 <= i < |es| ==> Trimmed(es[i].name)
    ensures KeepExpenses(es) == es
  {
    if |es| > 0 {
      KeepValidExpenses(es[1..]);
    }
  }

  /** Valid expense rows survive the trip through JSON and `expenses(a, 8)`. */
  lemma NormalizeExpensesRoundTrip(es: seq<Expense>)
    requires |es| <= 8 && forall i :: 0 <= i < |es| ==> ValidExpense(es[i])
    ensures NormalizeExpenses(JArr(ExpensesJson(es))) == Ok(es)
  {
    var js := ExpensesJson(es);
    assert NoNull(js);
    forall i | 0 <= i < |es| ensures MapExpenses(js)[i] == es[i] {
      ExpenseOfJson(es[i]);
    }
    assert MapExpenses(js) == es;
    forall i | 0 <= i < |es| ensures Trimmed(es[i].name) {
      assert ValidExpense(es[i]);
    }
    KeepValidExpenses(es);
  }

  lemma SalesRoundTrip(p: Plan)
    requires p.sales.estMonthlyUnits.Some? && |p.sales.assumptions| <= 6 && CleanList(p.sales.assumptions)
    ensures NormalizeSales(Get(PlanJson(p), "sales")) == p.sales
  {
    var v := Get(PlanJson(p), "sales");
    assert Get(v, "estMonthlyUnits") == JNum(p.sales.estMonthlyUnits.value as real);
    assert Get(v, "assumptions") == JArr(StrPayload(p.sales.assumptions));
    assert Get(v, "growthPctMonth") == JNum(p.sales.growthPctMonth);
    ParseIntOrZeroOfInt(p.sales.estMonthlyUnits.value);
    StringListOfClean(p.sales.assumptions, 6);
  }

  lemma PricingMetricsRoundTrip(p: Plan)
    requires p.sales.estMonthlyUnits.Some?
    ensures NormalizePricing(Get(PlanJson(p), "pricing")) == p.pricing
    ensures NormalizeMetrics(Get(PlanJson(p), "metrics")) == p.metrics
  {
    var pr := Get(PlanJson(p), "pricing");
    assert Get(pr, "pricePerUnit") == JNum(p.pricing.pricePerUnit);
    assert Get(pr, "capitalRequired") == JNum(p.pricing.capitalRequired);
    var m := Get(PlanJson(p), "metrics");
    assert Get(m, "grossMarginPct") == JNum(p.metrics.grossMarginPct);
    assert Get(m, "operatingMarginPct") == JNum(p.metrics.operatingMarginPct);
    assert Get(m, "breakevenMonths") == JNum(p.metrics.breakevenMonths);
  }

  lemma InventoryRoundTrip(p: Plan)
    requires p.sales.estMonthlyUnits.Some? && ValidPlan(p)
    ensures NormalizeItems(Get(PlanJson(p), "inventory")) == Ok(p.inventory)
  {
    assert Get(PlanJson(p), "inventory") == JArr(ItemsJson(p.inventory));
    NormalizeItemsRoundTrip(p.inventory);
  }

  lemma ExpensesRoundTrip(p: Plan)
    requires p.sales.estMonthlyUnits.Some? && ValidPlan(p)
    ensures NormalizeExpenses(Get(PlanJson(p), "expenses")) == Ok(p.expenses)
  {
    assert Get(PlanJson(p), "expenses") == JArr(ExpensesJson(p.expenses));
    NormalizeExpensesRoundTrip(p.expenses);
  }

  lemma MilestonesRoundTrip(p: Plan)
    requires p.sales.estMonthlyUnits.Some? && ValidPlan(p)
    ensures StringList(Get(PlanJson(p), "milestones"), 8) == p.milestones
  {
    assert Get(PlanJson(p), "milestones") == JArr(StrPayload(p.milestones));
    StringListOfClean(p.milestones, 8);
  }

  lemma InnovationsRoundTrip(p: Plan)
    requires p.sales.estMonthlyUnits.Some? && ValidPlan(p)
    ensures StringList(Get(PlanJson(p), "innovations"), 6) == p.innovations
  {
    assert Get(PlanJson(p), "innovations") == JArr(StrPayload(p.innovations));
    StringListOfClean(p.innovations, 6);
  }

  /**
   * A normalised plan whose title and summary have no white-space ends, and
   * whose unit estimate is a number, survives the trip through JSON and
   * `normalizePlan` unchanged.
   */
  lemma NormalizePlanRoundTrip(p: Plan)
    requires ValidPlan(p) && Trimmed(p.title) && Trimmed(p.summary) && p.sales.estMonthlyUnits.Some?
    ensures NormalizePlan(PlanJson(p)) == Ok(Some(p))
  {
    var j := PlanJson(p);
    assert Get(j, "title") == JStr(p.title) && Get(j, "summary") == JStr(p.summary);
    TextOfTrimmed(p.title, 120);
    TextOfTrimmed(p.summary, 240);
    SalesRoundTrip(p);
    PricingMetricsRoundTrip(p);
    InventoryRoundTrip(p);
    ExpensesRoundTrip(p);
    MilestonesRoundTrip(p);
    InnovationsRoundTrip(p);
  }
}
