/** The discount applier: runs the selected strategies in order against the
    bill, adding every positive discount to the bill's running discount and
    recording its description. Each strategy is evaluated on the bill as the
    earlier ones left it, so the fixed-amount rule sees the net amount after
    the percentage rule. */
module DiscountService {
  import opened Errors
  import opened Entities
  import opened Calendar
  import opened DiscountStrategies
  import opened DiscountStrategyFactory
  import opened BillDtos

  /** One step of the applier: a positive result raises the discount and
      appends its description; any other result is skipped. */
  function Step(discount: real, applied: seq<Description>, r: DiscountResult): (after: (real, seq<Description>))
    ensures after.0 >= discount
    ensures after.0 > discount <==> r.discountAmount > 0.0
    ensures |after.1| == if after.0 > discount then |applied| + 1 else |applied|
  {
    if r.discountAmount > 0.0 then (discount + r.discountAmount, applied + [r.discountDescription])
    else (discount, applied)
  }

  /** The applier over results that are given up front (strategies that do
      not look at the bill). */
  function Accumulate(results: seq<DiscountResult>, discount: real, applied: seq<Description>): (after: (real, seq<Description>))
    ensures after.0 >= discount
    ensures |applied| <= |after.1| <= |applied| + |results|
    ensures after.1[..|applied|] == applied
    decreases |results|
  {
    if results == [] then (discount, applied)
    else
      var next := Step(discount, applied, results[0]);
      var final := Accumulate(results[1..], next.0, next.1);
      assert final.1[..|applied|] == final.1[..|next.1|][..|applied|];
      final
  }

  /** The sum of the positive amounts among `results`. */
  function PositiveTotal(results: seq<DiscountResult>): real {
    if results == [] then 0.0
    else (if results[0].discountAmount > 0.0 then results[0].discountAmount else 0.0) + PositiveTotal(results[1..])
  }

  /** The descriptions of the positive results, in order. */
  function PositiveDescriptions(results: seq<DiscountResult>): seq<Description> {
    if results == [] then []
    else (if results[0].discountAmount > 0.0 then [results[0].discountDescription] else [])
         + PositiveDescriptions(results[1..])
  }

  /** The results the strategies produce when each one sees the discount the
      earlier ones accumulated. */
  function SequentialResults(strategies: seq<DiscountStrategy>, products: seq<Product>, total: real, discount: real): seq<DiscountResult>
    decreases |strategies|
  {
    if strategies == [] then []
    else
      var r := CalculateDiscount(strategies[0], products, total - discount);
      [r] + SequentialResults(strategies[1..], products, total, Step(discount, [], r).0)
  }

  /** The bill's discount and applied list after running `strategies`, starting
      from `discount` and `applied`, on a bill with these products and total. */
  function ApplyAll(strategies: seq<DiscountStrategy>, products: seq<Product>, total: real,
                    discount: real, applied: seq<Description>): (real, seq<Description>)
    decreases |strategies|
  {
    if strategies == [] then (discount, applied)
    else
      var next := Step(discount, applied, CalculateDiscount(strategies[0], products, total - discount));
      ApplyAll(strategies[1..], products, total, next.0, next.1)
  }

  /** What the whole pipeline leaves on a fresh bill of `products` for `user`:
      total = sum of prices, discount starting at zero, the selected strategies
      applied in order. */
  function FinalDiscounts(user: User, today: Date, products: seq<Product>): (real, seq<Description>)
  {
    var total := TotalPrice(products);
    ApplyAll(ApplicableDiscounts(user, today, total), products, total, 0.0, [])
  }

  // ---------------------------------------------------------------------------
  // The applier over given results

  /** The final discount is the starting one plus the sum of the positive
      results; their descriptions are appended in order, the rest skipped. */
  lemma {:induction false} AccumulateSumsPositives(results: seq<DiscountResult>, discount: real, applied: seq<Description>)
    ensures Accumulate(results, discount, applied)
         == (discount + PositiveTotal(results), applied + PositiveDescriptions(results))
  {
    if results != [] {
      var next := Step(discount, applied, results[0]);
      AccumulateSumsPositives(results[1..], next.0, next.1);
      assert Accumulate(results, discount, applied) == Accumulate(results[1..], next.0, next.1);
      var head := if results[0].discountAmount > 0.0 then [results[0].discountDescription] else [];
      assert PositiveDescriptions(results) == head + PositiveDescriptions(results[1..]);
      assert next.1 == applied + head;
      assert applied + PositiveDescriptions(results) == (applied + head) + PositiveDescriptions(results[1..]);
    } else {
      assert applied + [] == applied;
    }
  }

  /** The four applier scenarios: one positive result, none, a positive then a
      zero one, two positive ones. */
  lemma AccumulateExamples(first: Description, second: Description)
    ensures Accumulate([DiscountResult(10.0, first)], 0.0, []) == (10.0, [first])
    ensures Accumulate([], 0.0, []) == (0.0, [])
    ensures Accumulate([DiscountResult(10.0, first), DiscountResult(0.0, second)], 0.0, []) == (10.0, [first])
    ensures Accumulate([DiscountResult(10.0, first), DiscountResult(20.0, second)], 0.0, []) == (30.0, [first, second])
  {
    var one := [DiscountResult(10.0, first)];
    assert one[1..] == [];
    assert [] + [first] == [first] && ([] + [first]) + [second] == [first, second];
    var zero := [DiscountResult(10.0, first), DiscountResult(0.0, second)];
    assert zero[1..][1..] == [] && zero[1..] == [DiscountResult(0.0, second)];
    var two := [DiscountResult(10.0, first), DiscountResult(20.0, second)];
    assert two[1..][1..] == [] && two[1..] == [DiscountResult(20.0, second)];
    assert Accumulate(two, 0.0, []) == Accumulate(two[1..], 10.0, [first]);
    assert Accumulate(two[1..], 10.0, [first]) == Accumulate([], 30.0, [first] + [second]);
  }

  /** Running the strategies is accumulating the results they produce one
      after the other, each on the bill as updated so far. */
  lemma {:induction false} ApplyAllIsSequentialAccumulate(strategies: seq<DiscountStrategy>, products: seq<Product>,
                                                         total: real, discount: real, applied: seq<Description>)
    ensures ApplyAll(strategies, products, total, discount, applied)
         == Accumulate(SequentialResults(strategies, products, total, discount), discount, applied)
  {
    if strategies != [] {
      var r := CalculateDiscount(strategies[0], products, total - discount);
      var next := Step(discount, applied, r);
      ApplyAllIsSequentialAccumulate(strategies[1..], products, total, next.0, next.1);
      var rs := SequentialResults(strategies, products, total, discount);
      assert rs[0] == r && rs[1..] == SequentialResults(strategies[1..], products, total, next.0);
    }
  }

  /** The discount never falls and the applied list only grows. */
  lemma {:induction false} ApplyAllExtends(strategies: seq<DiscountStrategy>, products: seq<Product>,
                                          total: real, discount: real, applied: seq<Description>)
    ensures ApplyAll(strategies, products, total, discount, applied).0 >= discount
    ensures |applied| <= |ApplyAll(strategies, products, total, discount, applied).1| <= |applied| + |strategies|
    ensures ApplyAll(strategies, products, total, discount, applied).1[..|applied|] == applied
  {
    if strategies != [] {
      var next := Step(discount, applied, CalculateDiscount(strategies[0], products, total - discount));
      ApplyAllExtends(strategies[1..], products, total, next.0, next.1);
      var final := ApplyAll(strategies[1..], products, total, next.0, next.1).1;
      assert final[..|next.1|] == next.1;
      assert next.1[..|applied|] == applied;
      assert final[..|applied|] == final[..|next.1|][..|applied|];
    }
  }

  // ---------------------------------------------------------------------------
  // The pipeline on the strategies the factory selects

  /** Two strategies in a row on a fresh bill: the second sees the net that
      the first left. */
  lemma ApplyAllTwo(first: DiscountStrategy, second: DiscountStrategy, products: seq<Product>, total: real)
    ensures var r1 := CalculateDiscount(first, products, total);
      var s1 := Step(0.0, [], r1);
      ApplyAll([first, second], products, total, 0.0, [])
      == Step(s1.0, s1.1, CalculateDiscount(second, products, total - s1.0))
  {
    var r1 := CalculateDiscount(first, products, total);
    var s1 := Step(0.0, [], r1);
    assert [first, second][1..] == [second];
    assert ApplyAll([second], products, total, s1.0, s1.1)
        == Step(s1.0, s1.1, CalculateDiscount(second, products, total - s1.0));
  }

  /** The result of the selected rules in closed form: the percentage rule's
      amount `p` (zero without one), then the fixed rule evaluated on the net
      that `p` left, when the initial net reached 100. */
  lemma FinalDiscountsClosedForm(user: User, today: Date, products: seq<Product>)
    requires NonNegativePrices(products)
    ensures var total := TotalPrice(products);
      var rule := PercentageRuleFor(user, today);
      var p := if rule.Some? then CalculateDiscount(rule.value, products, total).discountAmount else 0.0;
      var fixed := if total >= 100.0 then CalculateDiscount(FixedAmountDiscount, products, total - p).discountAmount else 0.0;
      FinalDiscounts(user, today, products).0 == p + fixed
  {
    var total := TotalPrice(products);
    var rule := PercentageRuleFor(user, today);
    var p := if rule.Some? then CalculateDiscount(rule.value, products, total).discountAmount else 0.0;
    if rule.Some? {
      PercentageDiscountBounds(rule.value, products, total);
    }
    assert 0.0 <= p <= 0.3 * total;
    var fixed := if total >= 100.0 then CalculateDiscount(FixedAmountDiscount, products, total - p).discountAmount else 0.0;
    if total >= 100.0 {
      FixedAmountDiscountShape(products, total - p);
    }
    assert fixed >= 0.0;
    if rule.Some? && total >= 100.0 {
      assert ApplicableDiscounts(user, today, total) == [rule.value, FixedAmountDiscount];
      ApplyAllTwo(rule.value, FixedAmountDiscount, products, total);
    } else if rule.Some? {
      assert ApplicableDiscounts(user, today, total) == [rule.value];
      assert [rule.value][1..] == [];
      var next := Step(0.0, [], CalculateDiscount(rule.value, products, total - 0.0));
      assert ApplyAll([rule.value], products, total, 0.0, []) == ApplyAll([], products, total, next.0, next.1);
      assert FinalDiscounts(user, today, products) == Step(0.0, [], CalculateDiscount(rule.value, products, total));
    } else if total >= 100.0 {
      assert ApplicableDiscounts(user, today, total) == [FixedAmountDiscount];
      assert [FixedAmountDiscount][1..] == [];
      var next := Step(0.0, [], CalculateDiscount(FixedAmountDiscount, products, total - 0.0));
      assert ApplyAll([FixedAmountDiscount], products, total, 0.0, []) == ApplyAll([], products, total, next.0, next.1);
      assert FinalDiscounts(user, today, products) == Step(0.0, [], CalculateDiscount(FixedAmountDiscount, products, total));
    } else {
      assert ApplicableDiscounts(user, today, total) == [];
    }
  }

  /** With non-negative prices the selected discounts never exceed the bill
      total: the net amount of a generated bill is never negative. */
  lemma FinalDiscountsWithinTotal(user: User, today: Date, products: seq<Product>)
    requires NonNegativePrices(products)
    ensures 0.0 <= FinalDiscounts(user, today, products).0 <= TotalPrice(products)
  {
    var total := TotalPrice(products);
    var rule := PercentageRuleFor(user, today);
    FinalDiscountsClosedForm(user, today, products);
    if rule.Some? {
      PercentageDiscountBounds(rule.value, products, total);
    }
    var p := if rule.Some? then CalculateDiscount(rule.value, products, total).discountAmount else 0.0;
    assert 0.0 <= p <= 0.3 * total;
    if total >= 100.0 {
      FixedAmountDiscountShape(products, total - p);
    }
  }

  /** A customer with three whole years and 200 of non-grocery goods gets 10
      from the loyalty rule and then 5 from the fixed rule computed on 190;
      both are recorded in that order. */
  lemma LoyalCustomerWithFixedAmount(user: User, today: Date, products: seq<Product>)
    requires user.userType == Customer && YearsBetween(user.registrationDate, today) >= 3
    requires products == OneItem(200.0, Clothing)
    ensures FinalDiscounts(user, today, products)
         == (15.0, [PercentageDescription("LoyalCustomerDiscountStrategy", 0.05, 10.0),
                    FixedAmountDescription("FixedAmountDiscountStrategy", 5.0)])
  {
    assert TotalPrice(products) == 200.0;
    assert DiscountableTotal(products) == 200.0;
    assert ApplicableDiscounts(user, today, 200.0) == [LoyalCustomerDiscount, FixedAmountDiscount];
    ApplyAllTwo(LoyalCustomerDiscount, FixedAmountDiscount, products, 200.0);
    var d1 := PercentageDescription("LoyalCustomerDiscountStrategy", 0.05, 10.0);
    var d2 := FixedAmountDescription("FixedAmountDiscountStrategy", 5.0);
    assert ([] + [d1]) + [d2] == [d1, d2];
    assert (190.0 / 100.0).Floor == 1;
  }

  /** An affiliate buying 300 of non-grocery goods gets 30 from the affiliate
      rule and 10 from the fixed rule on the remaining 270: the bill's net is
      260. */
  lemma AffiliateWithFixedAmount(user: User, today: Date, products: seq<Product>)
    requires user.userType == Affiliate
    requires products == OneItem(300.0, Electronics)
    ensures FinalDiscounts(user, today, products).0 == 40.0
    ensures TotalPrice(products) - FinalDiscounts(user, today, products).0 == 260.0
  {
    assert TotalPrice(products) == 300.0;
    assert DiscountableTotal(products) == 300.0;
    assert ApplicableDiscounts(user, today, 300.0) == [AffiliateDiscount, FixedAmountDiscount];
    ApplyAllTwo(AffiliateDiscount, FixedAmountDiscount, products, 300.0);
    assert (270.0 / 100.0).Floor == 2;
  }

  /** An employee buying one 100 item of groceries gets no percentage discount
      (groceries are excluded) but the fixed 5 on the whole net. */
  lemma EmployeeGroceriesOnly(user: User, today: Date, products: seq<Product>)
    requires user.userType == Employee
    requires products == OneItem(100.0, Grocery)
    ensures FinalDiscounts(user, today, products)
         == (5.0, [FixedAmountDescription("FixedAmountDiscountStrategy", 5.0)])
  {
    assert TotalPrice(products) == 100.0;
    assert DiscountableTotal(products) == 0.0;
    assert ApplicableDiscounts(user, today, 100.0) == [EmployeeDiscount, FixedAmountDiscount];
    ApplyAllTwo(EmployeeDiscount, FixedAmountDiscount, products, 100.0);
    var d := FixedAmountDescription("FixedAmountDiscountStrategy", 5.0);
    assert [] + [d] == [d];
    assert (100.0 / 100.0).Floor == 1;
  }

  // ---------------------------------------------------------------------------
  // The imperative applier

  /** One strategy of the applier, seen from the front of the list. */
  lemma ApplyAllUnfold(strategies: seq<DiscountStrategy>, products: seq<Product>, total: real,
                       discount: real, applied: seq<Description>)
    requires strategies != []
    ensures ApplyAll(strategies, products, total, discount, applied)
         == var next := Step(discount, applied, CalculateDiscount(strategies[0], products, total - discount));
            ApplyAll(strategies[1..], products, total, next.0, next.1)
  {
  }

  /** The body of the applier's loop for one strategy: the strategy is
      evaluated on the bill's current net, and a positive result is added to
      the discount and recorded. */
  method ApplyOne(bill: BillDto, s: DiscountStrategy)
    requires bill.discount.Some?
    modifies bill`discount, bill`appliedDiscounts
    ensures (bill.DiscountValue(), bill.AppliedList())
         == Step(old(bill.DiscountValue()), old(bill.AppliedList()),
                 CalculateDiscount(s, old(bill.products), old(bill.totalAmount) - old(bill.DiscountValue())))
    ensures bill.discount.Some?
    ensures bill.appliedDiscounts == old(bill.appliedDiscounts) || bill.appliedDiscounts == Some(bill.AppliedList())
  {
    var r := CalculateDiscount(s, bill.products, bill.NetAmount());
    if r.discountAmount > 0.0 {
      bill.AddDiscount(r.discountAmount);
      bill.AppendAppliedDiscount(r.discountDescription);
    }
  }

  /** `applyDiscount`: selects the strategies for the bill and runs them in
      order, mutating and returning the same bill. The products, total and
      user are untouched. */
  method ApplyDiscount(bill: BillDto, today: Date) returns (result: BillDto)
    requires bill.user.Some?
    modifies bill
    ensures result == bill
    ensures (bill.DiscountValue(), bill.AppliedList())
         == ApplyAll(ApplicableDiscounts(old(bill.user.value), today, old(bill.NetAmount())),
                     bill.products, bill.totalAmount, old(bill.DiscountValue()), old(bill.AppliedList()))
    ensures bill.discount.Some?
    ensures bill.appliedDiscounts == old(bill.appliedDiscounts) || bill.appliedDiscounts == Some(bill.AppliedList())
    ensures bill.products == old(bill.products) && bill.totalAmount == old(bill.totalAmount)
    ensures bill.user == old(bill.user) && bill.id == old(bill.id)
    ensures bill.netAmount == old(bill.netAmount) && bill.productIdList == old(bill.productIdList)
  {
    var selected := GetApplicableDiscounts(bill, today);
    var strategies := selected.value;
    ghost var products, total := bill.products, bill.totalAmount;
    ghost var start := (bill.DiscountValue(), bill.AppliedList());
    var i := 0;
    while i < |strategies|
      invariant 0 <= i <= |strategies|
      invariant bill.discount.Some?
      invariant ApplyAll(strategies[i..], products, total, bill.DiscountValue(), bill.AppliedList())
             == ApplyAll(strategies, products, total, start.0, start.1)
      invariant bill.appliedDiscounts == old(bill.appliedDiscounts) || bill.appliedDiscounts == Some(bill.AppliedList())
      modifies bill`discount, bill`appliedDiscounts
    {
      ghost var d, a := bill.DiscountValue(), bill.AppliedList();
      ghost var res := CalculateDiscount(strategies[i], products, total - d);
      ApplyAllUnfold(strategies[i..], products, total, d, a);
      assert strategies[i..][0] == strategies[i] && strategies[i..][1..] == strategies[i + 1..];
      ApplyOne(bill, strategies[i]);
      ghost var after := (bill.DiscountValue(), bill.AppliedList());
      assert after == Step(d, a, res);
      i := i + 1;
    }
    result := bill;
  }
}
