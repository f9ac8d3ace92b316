/** The stored entities of the store: products, users and persisted bills. An
    entity and its transfer object carry the same fields and the mapper copies
    them field for field, so each is one datatype here. Money is an exact
    decimal, modelled as `real`. */
module Entities {
  import opened Calendar

  datatype ProductType = Grocery | Electronics | Clothing

  datatype UserType = Employee | Affiliate | Customer

  datatype Product = Product(id: string, name: string, price: real, productType: ProductType)

  datatype User = User(
    id: string,
    userName: string,
    userType: UserType,
    registrationDate: Date,
    password: string)

  /** A line item's description as recorded in a bill: the strategy's class
      name, its percentage (percentage strategies only) and the amount. */
  datatype Description =
    | PercentageDescription(name: string, percentage: real, amount: real)
    | FixedAmountDescription(name: string, amount: real)

  /** A generated bill as the bill store keeps it. */
  datatype Bill = Bill(
    id: string,
    userId: string,
    userType: UserType,
    products: seq<Product>,
    totalAmount: real,
    discount: real,
    netAmount: real,
    appliedDiscounts: seq<Description>)

  /** Every price on the list is non-negative. */
  predicate NonNegativePrices(products: seq<Product>) {
    forall i :: 0 <= i < |products| ==> products[i].price >= 0.0
  }

  /** The sum of the prices of `products` (a reduce starting from zero). A
      bill of non-negative prices has a non-negative total. */
  function TotalPrice(products: seq<Product>): (total: real)
    ensures NonNegativePrices(products) ==> total >= 0.0
  {
    if products == [] then 0.0
    else
      assert NonNegativePrices(products) ==> NonNegativePrices(products[1..]);
      products[0].price + TotalPrice(products[1..])
  }

  lemma {:induction false} TotalPriceAppend(a: seq<Product>, b: seq<Product>)
    ensures TotalPrice(a + b) == TotalPrice(a) + TotalPrice(b)
  {
    if a == [] {
      assert a + b == b;
    } else {
      assert (a + b)[1..] == a[1..] + b;
      TotalPriceAppend(a[1..], b);
    }
  }
}
