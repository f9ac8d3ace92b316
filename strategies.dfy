/** The four discount strategies. Each is a fixed rule with a priority order:
    the three percentage rules apply to the non-grocery subtotal and have order
    1; the fixed-amount rule takes 5 for every whole 100 of the bill's current
    net amount and has order 2. */
module DiscountStrategies {
  import opened Entities

  datatype DiscountStrategy = EmployeeDiscount | AffiliateDiscount | LoyalCustomerDiscount | FixedAmountDiscount
  {
    predicate IsPercentage() {
      !FixedAmountDiscount?
    }

    /** The priority order the strategy reports. */
    function Order(): (order: int)
      ensures order == 1 <==> IsPercentage()
      ensures order == 2 <==> FixedAmountDiscount?
    {
      if IsPercentage() then 1 else 2
    }

    /** The strategy's simple class name, used in its description. */
    function Name(): string {
      match this
      case EmployeeDiscount => "EmployeeDiscountStrategy"
      case AffiliateDiscount => "AffiliateDiscountStrategy"
      case LoyalCustomerDiscount => "LoyalCustomerDiscountStrategy"
      case FixedAmountDiscount => "FixedAmountDiscountStrategy"
    }

    /** The rate of a percentage strategy. */
    function Percentage(): real
      requires IsPercentage()
    {
      match this
      case EmployeeDiscount => 0.3
      case AffiliateDiscount => 0.1
      case LoyalCustomerDiscount => 0.05
    }
  }

  /** The result one strategy computes for a bill. */
  datatype DiscountResult = DiscountResult(discountAmount: real, discountDescription: Description)

  /** The sum of the prices of the products that are not groceries. */
  function DiscountableTotal(products: seq<Product>): real {
    if products == [] then 0.0
    else
      (if products[0].productType != Grocery then products[0].price else 0.0)
      + DiscountableTotal(products[1..])
  }

  /** The products that are not groceries, in their original order. */
  function NonGrocery(products: seq<Product>): (r: seq<Product>)
    ensures forall i :: 0 <= i < |r| ==> r[i].productType != Grocery
    ensures forall p :: p in products && p.productType != Grocery ==> p in r
    ensures forall p :: p in r ==> p in products
  {
    if products == [] then []
    else if products[0].productType != Grocery then [products[0]] + NonGrocery(products[1..])
    else NonGrocery(products[1..])
  }

  /** Integral part of x / d, truncated toward zero
      (`BigDecimal.divideToIntegralValue`). */
  function IntegralQuotient(x: real, d: real): (q: int)
    requires d > 0.0
    ensures x >= 0.0 ==> 0 <= q && q as real <= x / d < q as real + 1.0
    ensures x < 0.0 ==> q <= 0 && q as real - 1.0 < x / d <= q as real
  {
    if x >= 0.0 then (x / d).Floor
    else
      var y := (-x) / d;
      assert y == -(x / d);
      -(y.Floor)
  }

  /** What a strategy computes for a bill with these products whose current
      net amount is `net`. Only the fixed-amount rule looks at `net`; the
      percentage rules look only at the products. */
  function CalculateDiscount(s: DiscountStrategy, products: seq<Product>, net: real): (r: DiscountResult)
    ensures r.discountDescription.amount == r.discountAmount
    ensures r.discountDescription.PercentageDescription? <==> s.IsPercentage()
    ensures s.IsPercentage() ==> r.discountDescription.percentage == s.Percentage()
    ensures !s.IsPercentage() ==> (r.discountAmount > 0.0 <==> net >= 100.0)
  {
    if s.IsPercentage() then
      var discount := DiscountableTotal(products) * s.Percentage();
      DiscountResult(discount, PercentageDescription(s.Name(), s.Percentage(), discount))
    else
      var discount := IntegralQuotient(net, 100.0) as real * 5.0;
      DiscountResult(discount, FixedAmountDescription(s.Name(), discount))
  }

  /** The description as text, given the plain-string rendering of decimals.
      The fixed-amount skeleton has two spaces before "amount". */
  function DescriptionText(d: Description, plain: real -> string): (text: string)
    ensures |text| >= |d.name| && text[..|d.name|] == d.name
    ensures |text| >= |plain(d.amount)| && text[|text| - |plain(d.amount)|..] == plain(d.amount)
  {
    match d
    case PercentageDescription(name, pct, amount) =>
      name + " - with percentage " + plain(pct) + " amount: " + plain(amount)
    case FixedAmountDescription(name, amount) =>
      name + " -  amount: " + plain(amount)
  }

  /** The whole description text of a strategy's result: the percentage
      skeleton "<class> - with percentage <rate> amount: <amount>", or the
      fixed-amount skeleton "FixedAmountDiscountStrategy -  amount: <amount>". */
  lemma DiscountDescriptionText(s: DiscountStrategy, products: seq<Product>, net: real, plain: real -> string)
    ensures s.IsPercentage() ==>
      DescriptionText(CalculateDiscount(s, products, net).discountDescription, plain)
      == s.Name() + " - with percentage " + plain(s.Percentage()) + " amount: "
         + plain(CalculateDiscount(s, products, net).discountAmount)
    ensures !s.IsPercentage() ==>
      DescriptionText(CalculateDiscount(s, products, net).discountDescription, plain)
      == "FixedAmountDiscountStrategy -  amount: " + plain(CalculateDiscount(s, products, net).discountAmount)
  {
  }

  // ---------------------------------------------------------------------------
  // The discountable subtotal

  /** The discountable subtotal is the total of the non-grocery products. */
  lemma {:induction false} DiscountableTotalIsNonGroceryTotal(products: seq<Product>)
    ensures DiscountableTotal(products) == TotalPrice(NonGrocery(products))
  {
    if products != [] {
      DiscountableTotalIsNonGroceryTotal(products[1..]);
      if products[0].productType != Grocery {
        var rest := NonGrocery(products[1..]);
        assert ([products[0]] + rest)[1..] == rest;
      }
    }
  }

  /** An empty bill, or one holding only groceries, has nothing to discount. */
  lemma {:induction false} DiscountableTotalOfGroceries(products: seq<Product>)
    requires forall i :: 0 <= i < |products| ==> products[i].productType == Grocery
    ensures DiscountableTotal(products) == 0.0
  {
    if products != [] {
      DiscountableTotalOfGroceries(products[1..]);
    }
  }

  /** With non-negative prices the discountable subtotal lies between 0 and
      the bill total. */
  lemma {:induction false} DiscountableTotalBounds(products: seq<Product>)
    requires NonNegativePrices(products)
    ensures 0.0 <= DiscountableTotal(products) <= TotalPrice(products)
  {
    if products != [] {
      assert NonNegativePrices(products[1..]);
      DiscountableTotalBounds(products[1..]);
    }
  }

  lemma {:induction false} DiscountableTotalAppend(a: seq<Product>, b: seq<Product>)
    ensures DiscountableTotal(a + b) == DiscountableTotal(a) + DiscountableTotal(b)
  {
    if a == [] {
      assert a + b == b;
    } else {
      assert (a + b)[1..] == a[1..] + b;
      DiscountableTotalAppend(a[1..], b);
    }
  }

  // ---------------------------------------------------------------------------
  // Percentage strategies

  /** A percentage strategy takes its rate of the discountable subtotal and
      describes itself by class name, rate and amount; it ignores the net. */
  lemma PercentageDiscount(s: DiscountStrategy, products: seq<Product>, net: real)
    requires s.IsPercentage()
    ensures CalculateDiscount(s, products, net).discountAmount
         == s.Percentage() * TotalPrice(NonGrocery(products))
    ensures CalculateDiscount(s, products, net).discountDescription
         == PercentageDescription(s.Name(), s.Percentage(),
                                  CalculateDiscount(s, products, net).discountAmount)
    ensures s == EmployeeDiscount ==> s.Percentage() == 0.3 && s.Name() == "EmployeeDiscountStrategy"
    ensures s == AffiliateDiscount ==> s.Percentage() == 0.1 && s.Name() == "AffiliateDiscountStrategy"
    ensures s == LoyalCustomerDiscount ==> s.Percentage() == 0.05 && s.Name() == "LoyalCustomerDiscountStrategy"
  {
    DiscountableTotalIsNonGroceryTotal(products);
  }

  /** With non-negative prices a percentage discount is between 0 and its
      rate of the whole bill. */
  lemma PercentageDiscountBounds(s: DiscountStrategy, products: seq<Product>, net: real)
    requires s.IsPercentage()
    requires NonNegativePrices(products)
    ensures 0.0 <= CalculateDiscount(s, products, net).discountAmount
               <= s.Percentage() * TotalPrice(products)
    ensures CalculateDiscount(s, products, net).discountAmount <= 0.3 * TotalPrice(products)
  {
    DiscountableTotalBounds(products);
    var total := TotalPrice(products);
    assert s.Percentage() * total <= 0.3 * total by {
      assert total >= 0.0 && s.Percentage() <= 0.3;
    }
  }

  /** A single line item. */
  function OneItem(price: real, t: ProductType): seq<Product> {
    [Product("", "", price, t)]
  }

  /** The mixed bills of the strategy tests: `count / 2` pairs of unit-priced
      items, one of each of the two types. */
  function PairedItems(count: nat, t1: ProductType, t2: ProductType): seq<Product>
    decreases count
  {
    if count < 2 then [] else [Product("", "", 1.0, t1), Product("", "", 1.0, t2)] + PairedItems(count - 2, t1, t2)
  }

  function Weight(t: ProductType): real {
    if t == Grocery then 0.0 else 1.0
  }

  lemma {:induction false} PairedItemsDiscountable(count: nat, t1: ProductType, t2: ProductType)
    ensures DiscountableTotal(PairedItems(count, t1, t2)) == (count / 2) as real * (Weight(t1) + Weight(t2))
    decreases count
  {
    if count >= 2 {
      var pair := [Product("", "", 1.0, t1), Product("", "", 1.0, t2)];
      DiscountableTotalAppend(pair, PairedItems(count - 2, t1, t2));
      PairedItemsDiscountable(count - 2, t1, t2);
      assert DiscountableTotal(pair) == Weight(t1) + Weight(t2) by {
        assert pair[1..][1..] == [];
      }
      assert count / 2 == (count - 2) / 2 + 1;
    }
  }

  /** A percentage strategy on a paired test bill takes its rate of the
      unit items that are not groceries. */
  lemma PairedItemsDiscount(s: DiscountStrategy, count: nat, t1: ProductType, t2: ProductType, net: real)
    requires s.IsPercentage()
    ensures CalculateDiscount(s, PairedItems(count, t1, t2), net).discountAmount
         == s.Percentage() * ((count / 2) as real * (Weight(t1) + Weight(t2)))
  {
    var items := PairedItems(count, t1, t2);
    PairedItemsDiscountable(count, t1, t2);
    assert CalculateDiscount(s, items, net).discountAmount == DiscountableTotal(items) * s.Percentage();
  }

  lemma EmployeeSingleItems(net: real)
    ensures CalculateDiscount(EmployeeDiscount, OneItem(100.0, Electronics), net).discountAmount == 30.0
    ensures CalculateDiscount(EmployeeDiscount, OneItem(200.0, Clothing), net).discountAmount == 60.0
    ensures CalculateDiscount(EmployeeDiscount, OneItem(300.0, Electronics), net).discountAmount == 90.0
    ensures CalculateDiscount(EmployeeDiscount, OneItem(400.0, Clothing), net).discountAmount == 120.0
    ensures CalculateDiscount(EmployeeDiscount, OneItem(100.0, Grocery), net).discountAmount == 0.0
    ensures CalculateDiscount(EmployeeDiscount, OneItem(500.0, Grocery), net).discountAmount == 0.0
  {
  }

  lemma EmployeeMixedItems(count: nat, t1: ProductType, t2: ProductType, net: real)
    ensures count == 100 && t1 == Electronics && t2 == Grocery
            ==> CalculateDiscount(EmployeeDiscount, PairedItems(count, t1, t2), net).discountAmount == 15.0
    ensures count == 500 && t1 == Grocery && t2 == Electronics
            ==> CalculateDiscount(EmployeeDiscount, PairedItems(count, t1, t2), net).discountAmount == 75.0
    ensures count == 400 && t1 == Grocery && t2 == Clothing
            ==> CalculateDiscount(EmployeeDiscount, PairedItems(count, t1, t2), net).discountAmount == 60.0
  {
    PairedItemsDiscount(EmployeeDiscount, count, t1, t2, net);
  }

  /** The mixed employee bills without groceries. */
  lemma EmployeeMixedNonGrocery(count: nat, t1: ProductType, t2: ProductType, net: real)
    ensures count == 200 && t1 == Clothing && t2 == Electronics
            ==> CalculateDiscount(EmployeeDiscount, PairedItems(count, t1, t2), net).discountAmount == 60.0
    ensures count == 300 && t1 == Electronics && t2 == Clothing
            ==> CalculateDiscount(EmployeeDiscount, PairedItems(count, t1, t2), net).discountAmount == 90.0
  {
    PairedItemsDiscount(EmployeeDiscount, count, t1, t2, net);
  }

  lemma AffiliateSingleItems(net: real)
    ensures CalculateDiscount(AffiliateDiscount, OneItem(100.0, Electronics), net).discountAmount == 10.0
    ensures CalculateDiscount(AffiliateDiscount, OneItem(300.0, Electronics), net).discountAmount == 30.0
    ensures CalculateDiscount(AffiliateDiscount, OneItem(0.0, Electronics), net).discountAmount == 0.0
    ensures CalculateDiscount(AffiliateDiscount, OneItem(100.0, Grocery), net).discountAmount == 0.0
  {
  }

  lemma AffiliateMixedItems(count: nat, t1: ProductType, t2: ProductType, net: real)
    ensures count == 100 && t1 == Electronics && t2 == Grocery
            ==> CalculateDiscount(AffiliateDiscount, PairedItems(count, t1, t2), net).discountAmount == 5.0
    ensures count == 400 && t1 == Grocery && t2 == Clothing
            ==> CalculateDiscount(AffiliateDiscount, PairedItems(count, t1, t2), net).discountAmount == 20.0
  {
    PairedItemsDiscount(AffiliateDiscount, count, t1, t2, net);
  }

  lemma LoyalCustomerSingleItems(net: real)
    ensures CalculateDiscount(LoyalCustomerDiscount, OneItem(100.0, Electronics), net).discountAmount == 5.0
    ensures CalculateDiscount(LoyalCustomerDiscount, OneItem(300.0, Electronics), net).discountAmount == 15.0
    ensures CalculateDiscount(LoyalCustomerDiscount, OneItem(400.0, Clothing), net).discountAmount == 20.0
    ensures CalculateDiscount(LoyalCustomerDiscount, OneItem(500.0, Grocery), net).discountAmount == 0.0
  {
  }

  lemma LoyalCustomerMixedItems(count: nat, t1: ProductType, t2: ProductType, net: real)
    ensures count == 100 && t1 == Electronics && t2 == Grocery
            ==> CalculateDiscount(LoyalCustomerDiscount, PairedItems(count, t1, t2), net).discountAmount == 2.5
    ensures count == 500 && t1 == Grocery && t2 == Electronics
            ==> CalculateDiscount(LoyalCustomerDiscount, PairedItems(count, t1, t2), net).discountAmount == 12.5
  {
    PairedItemsDiscount(LoyalCustomerDiscount, count, t1, t2, net);
  }

  // ---------------------------------------------------------------------------
  // The fixed-amount strategy

  /** For a non-negative net the fixed discount is 5 per whole 100: a
      non-negative multiple of 5 and at most 5% of the net, whatever the
      products are. */
  lemma FixedAmountDiscountShape(products: seq<Product>, net: real)
    requires net >= 0.0
    ensures var d := CalculateDiscount(FixedAmountDiscount, products, net).discountAmount;
      && d == 5.0 * (net / 100.0).Floor as real
      && 0.0 <= d <= net / 20.0
      && (net < 100.0 <==> d == 0.0)
    ensures CalculateDiscount(FixedAmountDiscount, products, net).discountDescription
         == FixedAmountDescription("FixedAmountDiscountStrategy",
                                   CalculateDiscount(FixedAmountDiscount, products, net).discountAmount)
  {
    var q := (net / 100.0).Floor;
    assert q as real <= net / 100.0 < q as real + 1.0;
    assert q >= 0;
  }

  /** The fixed discount never decreases as the net grows, negative nets
      included: truncation toward zero is monotone. */
  lemma FixedAmountDiscountMonotone(products: seq<Product>, a: real, b: real)
    requires a <= b
    ensures CalculateDiscount(FixedAmountDiscount, products, a).discountAmount
         <= CalculateDiscount(FixedAmountDiscount, products, b).discountAmount
  {
    var qa, qb := IntegralQuotient(a, 100.0), IntegralQuotient(b, 100.0);
    assert a / 100.0 <= b / 100.0;
    if a >= 0.0 {
      assert qa as real <= a / 100.0 && b / 100.0 < qb as real + 1.0;
    } else if b >= 0.0 {
      assert qa <= 0 <= qb;
    } else {
      assert qa as real - 1.0 < a / 100.0 && b / 100.0 <= qb as real;
    }
    assert qa <= qb;
    assert CalculateDiscount(FixedAmountDiscount, products, a).discountAmount == qa as real * 5.0;
    assert CalculateDiscount(FixedAmountDiscount, products, b).discountAmount == qb as real * 5.0;
  }

  lemma FixedAmountExamples(products: seq<Product>)
    ensures CalculateDiscount(FixedAmountDiscount, products, 99.0).discountAmount == 0.0
    ensures CalculateDiscount(FixedAmountDiscount, products, 100.0).discountAmount == 5.0
    ensures CalculateDiscount(FixedAmountDiscount, products, 150.0).discountAmount == 5.0
    ensures CalculateDiscount(FixedAmountDiscount, products, 199.0).discountAmount == 5.0
    ensures CalculateDiscount(FixedAmountDiscount, products, 200.0).discountAmount == 10.0
    ensures CalculateDiscount(FixedAmountDiscount, products, 290.0).discountAmount == 10.0
    ensures CalculateDiscount(FixedAmountDiscount, products, 300.0).discountAmount == 15.0
  {
    assert (99.0 / 100.0).Floor == 0;
    assert (100.0 / 100.0).Floor == 1;
    assert (150.0 / 100.0).Floor == 1;
    assert (199.0 / 100.0).Floor == 1;
    assert (200.0 / 100.0).Floor == 2;
    assert (290.0 / 100.0).Floor == 2;
    assert (300.0 / 100.0).Floor == 3;
  }
}
