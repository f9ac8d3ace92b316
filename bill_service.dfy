/** Bill generation: resolves the signed-in user and then every product id of
    the request, sums the prices, applies the discounts and saves the bill
    once. Lookups that fail end the generation with a not-found error before
    anything is saved. */
module BillServices {
  import opened Errors
  import opened Entities
  import opened Calendar
  import opened DiscountStrategies
  import opened DiscountStrategyFactory
  import opened BillDtos
  import opened DiscountService
  import opened ProductServices
  import opened UserRepositories

  /** `checkAndFillProducts`: one product per id, in order and duplicates
      included; the first unknown id gives PRODUCT_NOT_FOUND. */
  function ResolveProducts(ids: seq<string>, store: map<string, Product>): (r: Result<seq<Product>>)
    ensures r.Ok? <==> forall i :: 0 <= i < |ids| ==> ids[i] in store
    ensures r.Ok? ==> |r.value| == |ids| && forall i :: 0 <= i < |ids| ==> r.value[i] == store[ids[i]]
    ensures r.Err? ==> r.error == ProductNotFound
  {
    if ids == [] then Ok([])
    else if ids[0] !in store then Err(ProductNotFound)
    else
      match ResolveProducts(ids[1..], store)
      case Err(e) => Err(e)
      case Ok(rest) =>
        assert forall i :: 1 <= i < |ids| ==> ids[i] == ids[1..][i - 1];
        Ok([store[ids[0]]] + rest)
  }

  /** The bill that generation saves, as a function of the tables: the user
      is looked up first, so an unknown user is reported even when products
      are missing too. `applied` is the applied-discount list the request
      already carried. */
  function GenerateBill(users: seq<User>, store: map<string, Product>, userName: string, ids: seq<string>,
                        today: Date, applied: seq<Description>, id: string): (r: Result<Bill>)
  {
    match FindByUserName(users, userName)
    case None => Err(UserNotFound)
    case Some(user) =>
      match ResolveProducts(ids, store)
      case Err(e) => Err(e)
      case Ok(products) =>
        var total := TotalPrice(products);
        var result := ApplyAll(ApplicableDiscounts(user, today, total), products, total, 0.0, applied);
        Ok(Bill(id, user.id, user.userType, products, total, result.0, total - result.0, result.1))
  }

  /** The outcomes of generation: USER_NOT_FOUND exactly when the user is
      unknown, PRODUCT_NOT_FOUND exactly when the user is known and some id
      is not, and otherwise a bill carrying the user's id and type, one
      product per id in order, their total, and the discounts of the selected
      strategies, with net = total - discount. */
  lemma GenerateBillOutcomes(users: seq<User>, store: map<string, Product>, userName: string, ids: seq<string>,
                             today: Date, applied: seq<Description>, id: string)
    ensures var r := GenerateBill(users, store, userName, ids, today, applied, id);
      && (r == Err(UserNotFound) <==> FindByUserName(users, userName).None?)
      && (r == Err(ProductNotFound)
          <==> FindByUserName(users, userName).Some? && exists i :: 0 <= i < |ids| && ids[i] !in store)
      && (r.Ok? || r == Err(UserNotFound) || r == Err(ProductNotFound))
    ensures var r := GenerateBill(users, store, userName, ids, today, applied, id);
      r.Ok? ==>
      var b := r.value;
      var user := FindByUserName(users, userName).value;
      && b.id == id && b.userId == user.id && b.userType == user.userType
      && |b.products| == |ids| && (forall i :: 0 <= i < |ids| ==> b.products[i] == store[ids[i]])
      && b.totalAmount == TotalPrice(b.products)
      && b.netAmount == b.totalAmount - b.discount
      && (b.discount, b.appliedDiscounts)
         == ApplyAll(ApplicableDiscounts(user, today, b.totalAmount), b.products, b.totalAmount, 0.0, applied)
  {
  }

  /** Generation once both lookups succeeded. */
  lemma GenerateBillFound(users: seq<User>, store: map<string, Product>, userName: string, ids: seq<string>,
                          today: Date, applied: seq<Description>, id: string, user: User, products: seq<Product>)
    requires FindByUserName(users, userName) == Some(user) && ResolveProducts(ids, store) == Ok(products)
    ensures var total := TotalPrice(products);
      var result := ApplyAll(ApplicableDiscounts(user, today, total), products, total, 0.0, applied);
      GenerateBill(users, store, userName, ids, today, applied, id)
      == Ok(Bill(id, user.id, user.userType, products, total, result.0, total - result.0, result.1))
  {
  }

  /** A bill generated from a fresh request carries exactly the discounts of
      the pipeline; with non-negative prices its net amount is between zero
      and its total. */
  lemma GeneratedBillWithinTotal(users: seq<User>, store: map<string, Product>, userName: string,
                                 ids: seq<string>, today: Date, id: string)
    requires forall k :: k in store ==> store[k].price >= 0.0
    requires GenerateBill(users, store, userName, ids, today, [], id).Ok?
    ensures var b := GenerateBill(users, store, userName, ids, today, [], id).value;
      var user := FindByUserName(users, userName).value;
      && (b.discount, b.appliedDiscounts) == FinalDiscounts(user, today, b.products)
      && 0.0 <= b.netAmount <= b.totalAmount
  {
    GenerateBillOutcomes(users, store, userName, ids, today, [], id);
    var b := GenerateBill(users, store, userName, ids, today, [], id).value;
    var user := FindByUserName(users, userName).value;
    assert NonNegativePrices(b.products) by {
      forall i | 0 <= i < |b.products| ensures b.products[i].price >= 0.0 {
        assert b.products[i] == store[ids[i]];
      }
    }
    FinalDiscountsWithinTotal(user, today, b.products);
  }

  /** Generation scenarios: a loyal customer's 200 shirt is billed 15 off
      (10 loyalty, then 5 on the remaining 190); an unknown user is reported
      before an unknown product; a known user with an unknown product gets
      PRODUCT_NOT_FOUND. */
  lemma GenerateBillExamples(users: seq<User>, store: map<string, Product>)
    requires users == [User("u1", "john", Customer, Date(2020, 1, 1), "x")]
    requires store == map["p1" := Product("p1", "Shirt", 200.0, Clothing)]
    ensures GenerateBill(users, store, "john", ["p1"], Date(2024, 6, 1), [], "b1")
         == Ok(Bill("b1", "u1", Customer, [store["p1"]], 200.0, 15.0, 185.0,
                    [PercentageDescription("LoyalCustomerDiscountStrategy", 0.05, 10.0),
                     FixedAmountDescription("FixedAmountDiscountStrategy", 5.0)]))
    ensures GenerateBill(users, store, "jane", ["p2"], Date(2024, 6, 1), [], "b1") == Err(UserNotFound)
    ensures GenerateBill(users, store, "john", ["p1", "p2"], Date(2024, 6, 1), [], "b1") == Err(ProductNotFound)
  {
    var user := users[0];
    var products := [store["p1"]];
    assert FindByUserName(users, "john") == Some(user);
    assert "p1" in store;
    var resolved := ResolveProducts(["p1"], store);
    assert resolved.Ok? && |resolved.value| == 1 && resolved.value[0] == store["p1"];
    assert resolved.value == products;
    assert TotalPrice(products) == 200.0;
    assert YearsBetween(Date(2020, 1, 1), Date(2024, 6, 1)) == 4;
    assert DiscountableTotal(products) == 200.0;
    assert ApplicableDiscounts(user, Date(2024, 6, 1), 200.0) == [LoyalCustomerDiscount, FixedAmountDiscount];
    ApplyAllTwo(LoyalCustomerDiscount, FixedAmountDiscount, products, 200.0);
    assert (190.0 / 100.0).Floor == 1;
    var d1 := PercentageDescription("LoyalCustomerDiscountStrategy", 0.05, 10.0);
    var d2 := FixedAmountDescription("FixedAmountDiscountStrategy", 5.0);
    assert ([] + [d1]) + [d2] == [d1, d2];
    assert "jane" != "john";
    assert "p2" !in store;
    assert ["p1", "p2"][1] == "p2";
  }

  class BillService {
    const productService: ProductService
    const userRepository: UserRepository
    /** The bill table, keyed by id. */
    var bills: map<string, Bill>

    constructor (productService: ProductService, userRepository: UserRepository)
      ensures this.productService == productService && this.userRepository == userRepository
      ensures bills == map[]
    {
      this.productService := productService;
      this.userRepository := userRepository;
      bills := map[];
    }

    /** `getBillById`: the bill stored under `id`, or BILL_NOT_FOUND. */
    function GetBillById(id: string): (r: Result<Bill>)
      reads this
      ensures r.Ok? <==> id in bills
      ensures r.Ok? ==> r.value == bills[id]
      ensures r.Err? ==> r.error == BillNotFound
    {
      if id in bills then Ok(bills[id]) else Err(BillNotFound)
    }

    /** `gatherBillDto`: looks up the signed-in user, then resolves the
        product ids; on success fills in the products, the user, the total, a
        zero discount and a net equal to the total. A failed lookup leaves
        the request as it was. */
    method GatherBillDto(billDto: BillDto, currentUserName: string) returns (r: Result<User>)
      modifies billDto
      ensures r.Err? <==> FindByUserName(userRepository.users, currentUserName).None?
                          || ResolveProducts(old(billDto.productIdList), productService.products).Err?
      ensures FindByUserName(userRepository.users, currentUserName).None? ==> r == Err(UserNotFound)
      ensures FindByUserName(userRepository.users, currentUserName).Some?
              && ResolveProducts(old(billDto.productIdList), productService.products).Err?
              ==> r == Err(ProductNotFound)
      ensures r.Ok? ==> FindByUserName(userRepository.users, currentUserName) == Some(r.value)
      ensures r.Err? ==> (billDto.user == old(billDto.user) && billDto.products == old(billDto.products)
                          && billDto.totalAmount == old(billDto.totalAmount)
                          && billDto.discount == old(billDto.discount) && billDto.netAmount == old(billDto.netAmount))
      ensures r.Ok? ==> (billDto.user == Some(r.value)
                         && ResolveProducts(old(billDto.productIdList), productService.products) == Ok(billDto.products)
                         && billDto.totalAmount == TotalPrice(billDto.products)
                         && billDto.discount == Some(0.0) && billDto.netAmount == billDto.totalAmount)
      ensures billDto.appliedDiscounts == old(billDto.appliedDiscounts)
      ensures billDto.id == old(billDto.id) && billDto.productIdList == old(billDto.productIdList)
    {
      var found := userRepository.Find(currentUserName);
      if found.None? {
        return Err(UserNotFound);
      }
      var resolved := ResolveProducts(billDto.productIdList, productService.products);
      if resolved.Err? {
        return Err(resolved.error);
      }
      billDto.products := resolved.value;
      billDto.user := found;
      billDto.totalAmount := TotalPrice(billDto.products);
      billDto.discount := Some(0.0);
      billDto.netAmount := billDto.totalAmount;
      r := Ok(found.value);
    }

    /** The copy of the request into a bill entity, with the user's id and
        type, and its one save. The copy reads every getter, so an unset
        applied-discount list is stored as an empty one. A request without an
        id is stored under `assignedId`, the fresh id the store assigns; one
        with an id replaces the bill of that id, as a save of a known key does. */
    method SaveBill(billDto: BillDto, user: User, assignedId: string) returns (bill: Bill)
      requires billDto.discount.Some?
      requires billDto.id.None? ==> assignedId !in bills
      modifies this`bills, billDto`appliedDiscounts
      ensures bill == Bill(if billDto.id.Some? then billDto.id.value else assignedId, user.id, user.userType,
                           billDto.products, billDto.totalAmount, billDto.DiscountValue(), billDto.NetAmount(),
                           old(billDto.AppliedList()))
      ensures billDto.appliedDiscounts == Some(old(billDto.AppliedList()))
      ensures bills == old(bills)[bill.id := bill]
      ensures billDto.id.None? ==> bill.id !in old(bills)
    {
      var id := if billDto.id.Some? then billDto.id.value else assignedId;
      var applied := billDto.GetAppliedDiscounts();
      bill := Bill(id, user.id, user.userType, billDto.products, billDto.totalAmount,
                   billDto.discount.value, billDto.NetAmount(), applied);
      bills := bills[id := bill];
    }

    /** The second half of generation, on a request whose user and products
        are filled in and whose discount is zero: the selected strategies are
        applied to it and the result is saved once. */
    method DiscountAndSave(billDto: BillDto, user: User, today: Date, assignedId: string) returns (bill: Bill)
      requires billDto.user == Some(user) && billDto.discount == Some(0.0)
      requires billDto.id.None? ==> assignedId !in bills
      modifies this`bills, billDto
      ensures var total := old(billDto.totalAmount);
        var result := ApplyAll(ApplicableDiscounts(user, today, total), old(billDto.products), total, 0.0,
                               old(billDto.AppliedList()));
        bill == Bill(if old(billDto.id).Some? then old(billDto.id).value else assignedId, user.id, user.userType,
                     old(billDto.products), total, result.0, total - result.0, result.1)
      ensures bills == old(bills)[bill.id := bill]
      ensures old(billDto.id).None? ==> bill.id !in old(bills)
      ensures billDto.user == old(billDto.user) && billDto.products == old(billDto.products)
      ensures billDto.totalAmount == old(billDto.totalAmount) && billDto.netAmount == old(billDto.netAmount)
      ensures billDto.discount == Some(bill.discount) && billDto.appliedDiscounts == Some(bill.appliedDiscounts)
      ensures billDto.id == old(billDto.id) && billDto.productIdList == old(billDto.productIdList)
    {
      var discounted := ApplyDiscount(billDto, today);
      bill := SaveBill(billDto, user, assignedId);
    }

    /** `generateBillByProductIds` for the signed-in `currentUserName`. The
        saved bill is `GenerateBill` of the tables; it is saved once, under
        the request's id or, for a request without one, the fresh id the
        store assigns, so no earlier bill is replaced. A failed lookup
        changes neither the request nor the bill table. */
    method GenerateBillByProductIds(billDto: BillDto, currentUserName: string, today: Date, assignedId: string)
      returns (r: Result<Bill>)
      requires billDto.id.None? ==> assignedId !in bills
      modifies this`bills, billDto
      ensures var id := if old(billDto.id).Some? then old(billDto.id).value else assignedId;
        r == GenerateBill(userRepository.users, productService.products, currentUserName,
                          old(billDto.productIdList), today, old(billDto.AppliedList()), id)
      ensures r.Err? ==> bills == old(bills)
      ensures r.Err? ==> (billDto.user == old(billDto.user) && billDto.products == old(billDto.products)
                          && billDto.totalAmount == old(billDto.totalAmount)
                          && billDto.discount == old(billDto.discount)
                          && billDto.appliedDiscounts == old(billDto.appliedDiscounts))
      ensures r.Ok? ==> bills == old(bills)[r.value.id := r.value]
      ensures r.Ok? && old(billDto.id).None? ==> r.value.id !in old(bills)
      ensures r.Ok? ==> (billDto.user == FindByUserName(userRepository.users, currentUserName)
                         && billDto.products == r.value.products
                         && billDto.totalAmount == r.value.totalAmount
                         && billDto.netAmount == r.value.totalAmount
                         && billDto.discount == Some(r.value.discount)
                         && billDto.appliedDiscounts == Some(r.value.appliedDiscounts))
      ensures billDto.id == old(billDto.id) && billDto.productIdList == old(billDto.productIdList)
    {
      ghost var users, store, ids := userRepository.users, productService.products, billDto.productIdList;
      ghost var id := if billDto.id.Some? then billDto.id.value else assignedId;
      ghost var applied := billDto.AppliedList();
      ghost var spec := GenerateBill(users, store, currentUserName, ids, today, applied, id);
      var gathered := GatherBillDto(billDto, currentUserName);
      if gathered.Err? {
        assert spec == Err(gathered.error);
        return Err(gathered.error);
      }
      var user := gathered.value;
      ghost var products := billDto.products;
      ghost var total := billDto.totalAmount;
      assert total == TotalPrice(products);
      GenerateBillFound(users, store, currentUserName, ids, today, applied, id, user, products);
      ghost var result := ApplyAll(ApplicableDiscounts(user, today, total), products, total, 0.0, applied);
      var bill := DiscountAndSave(billDto, user, today, assignedId);
      assert bill == Bill(id, user.id, user.userType, products, total, result.0, total - result.0, result.1);
      r := Ok(bill);
      assert r == spec;
    }
  }
}
