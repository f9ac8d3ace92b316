/** Selection of the discount strategies that apply to a bill: at most one
    percentage rule chosen by user type, plus the fixed-amount rule when the
    bill's net amount is at least 100, in ascending priority order. */
module DiscountStrategyFactory {
  import opened Errors
  import opened Entities
  import opened Calendar
  import opened DiscountStrategies
  import opened BillDtos

  /** The one percentage rule the user qualifies for, if any. Customers
      qualify after more than two whole years, that is, three or more. */
  function PercentageRuleFor(user: User, today: Date): (r: Option<DiscountStrategy>)
    ensures r.Some? ==> r.value.IsPercentage()
    ensures r == Some(EmployeeDiscount) <==> user.userType == Employee
    ensures r == Some(AffiliateDiscount) <==> user.userType == Affiliate
    ensures r == Some(LoyalCustomerDiscount)
            <==> user.userType == Customer && YearsBetween(user.registrationDate, today) > 2
  {
    if user.userType == Employee then Some(EmployeeDiscount)
    else if user.userType == Affiliate then Some(AffiliateDiscount)
    else if user.userType == Customer && YearsBetween(user.registrationDate, today) > 2 then Some(LoyalCustomerDiscount)
    else None
  }

  /** The strategies that apply to a bill of this user with this net amount,
      in evaluation order. */
  function ApplicableDiscounts(user: User, today: Date, net: real): seq<DiscountStrategy> {
    (match PercentageRuleFor(user, today)
     case Some(s) => [s]
     case None => [])
    + (if net >= 100.0 then [FixedAmountDiscount] else [])
  }

  predicate SortedByOrder(s: seq<DiscountStrategy>) {
    forall i, j :: 0 <= i < j < |s| ==> s[i].Order() <= s[j].Order()
  }

  /** Inserts `x` before the first element whose order is not smaller. */
  function Insert(x: DiscountStrategy, s: seq<DiscountStrategy>): (r: seq<DiscountStrategy>)
    ensures multiset(r) == multiset([x]) + multiset(s)
    ensures |r| == |s| + 1
  {
    if s == [] || x.Order() <= s[0].Order() then [x] + s
    else
      assert s == [s[0]] + s[1..];
      [s[0]] + Insert(x, s[1..])
  }

  /** A stable sort by ascending order, as `List.sort` with a comparator on
      `getOrder` performs it. */
  function SortByOrder(s: seq<DiscountStrategy>): (r: seq<DiscountStrategy>)
    ensures multiset(r) == multiset(s)
    ensures |r| == |s|
  {
    if s == [] then []
    else
      assert s == [s[0]] + s[1..];
      Insert(s[0], SortByOrder(s[1..]))
  }

  /** A head no larger than any element of a sorted tail keeps it sorted. */
  lemma SortedCons(h: DiscountStrategy, t: seq<DiscountStrategy>)
    requires SortedByOrder(t)
    requires forall k :: 0 <= k < |t| ==> h.Order() <= t[k].Order()
    ensures SortedByOrder([h] + t)
  {
    var u := [h] + t;
    forall i, j | 0 <= i < j < |u| ensures u[i].Order() <= u[j].Order() {
      assert u[j] == t[j - 1];
      if i > 0 {
        assert u[i] == t[i - 1];
      }
    }
  }

  lemma {:induction false} InsertKeepsSorted(x: DiscountStrategy, s: seq<DiscountStrategy>)
    requires SortedByOrder(s)
    ensures SortedByOrder(Insert(x, s))
    ensures Insert(x, s)[0] == x || (s != [] && Insert(x, s)[0] == s[0])
  {
    if s == [] || x.Order() <= s[0].Order() {
      forall k | 0 <= k < |s| ensures x.Order() <= s[k].Order() {
        if k > 0 {
          assert s[0].Order() <= s[k].Order();
        }
      }
      SortedCons(x, s);
    } else {
      var t := Insert(x, s[1..]);
      assert SortedByOrder(s[1..]) by {
        forall i, j | 0 <= i < j < |s[1..]| ensures s[1..][i].Order() <= s[1..][j].Order() {
          assert s[1..][i] == s[i + 1] && s[1..][j] == s[j + 1];
        }
      }
      InsertKeepsSorted(x, s[1..]);
      forall k | 0 <= k < |t| ensures s[0].Order() <= t[k].Order() {
        assert t[k] in multiset(t);
        if t[k] != x {
          assert t[k] in multiset(s[1..]);
          var m :| 0 <= m < |s[1..]| && s[1..][m] == t[k];
          assert s[m + 1] == t[k];
        }
      }
      SortedCons(s[0], t);
    }
  }

  /** Sorting yields a sorted permutation of its input. */
  lemma {:induction false} SortByOrderSortsAndPermutes(s: seq<DiscountStrategy>)
    ensures SortedByOrder(SortByOrder(s))
    ensures multiset(SortByOrder(s)) == multiset(s)
  {
    if s != [] {
      SortByOrderSortsAndPermutes(s[1..]);
      InsertKeepsSorted(s[0], SortByOrder(s[1..]));
    }
  }

  /** A list that is already in order is left as it is. */
  lemma {:induction false} SortByOrderOfSorted(s: seq<DiscountStrategy>)
    requires SortedByOrder(s)
    ensures SortByOrder(s) == s
  {
    if s != [] {
      SortByOrderOfSorted(s[1..]);
      assert [s[0]] + s[1..] == s;
    }
  }

  /** `addStrategy`: fails on an order already taken, and otherwise appends
      the strategy and records its order. */
  method AddStrategy(applicable: seq<DiscountStrategy>, orders: set<int>, s: DiscountStrategy)
    returns (r: Result<(seq<DiscountStrategy>, set<int>)>)
    ensures s.Order() in orders <==> r == Err(SameOrderMultipleStrategies)
    ensures s.Order() !in orders ==> r == Ok((applicable + [s], orders + {s.Order()}))
  {
    if s.Order() in orders {
      return Err(SameOrderMultipleStrategies);
    }
    r := Ok((applicable + [s], orders + {s.Order()}));
  }

  /** The selection itself, on the values it reads from the bill. The
      duplicate-order error cannot arise: `AddStrategy` is called at most once,
      on an empty order set, and the fixed rule is appended directly. */
  method SelectStrategies(user: User, today: Date, net: real) returns (r: Result<seq<DiscountStrategy>>)
    ensures r == Ok(ApplicableDiscounts(user, today, net))
  {
    var applicable: seq<DiscountStrategy> := [];
    var orders: set<int> := {};
    if user.userType == Employee {
      var added := AddStrategy(applicable, orders, EmployeeDiscount);
      applicable, orders := added.value.0, added.value.1;
      assert applicable == [EmployeeDiscount];
    } else if user.userType == Affiliate {
      var added := AddStrategy(applicable, orders, AffiliateDiscount);
      applicable, orders := added.value.0, added.value.1;
      assert applicable == [AffiliateDiscount];
    } else if user.userType == Customer && YearsBetween(user.registrationDate, today) > 2 {
      var added := AddStrategy(applicable, orders, LoyalCustomerDiscount);
      applicable, orders := added.value.0, added.value.1;
      assert applicable == [LoyalCustomerDiscount];
    }
    assert applicable == match PercentageRuleFor(user, today) case Some(s) => [s] case None => [];
    if net >= 100.0 {
      applicable := applicable + [FixedAmountDiscount];
    }
    assert applicable == ApplicableDiscounts(user, today, net);
    ApplicableDiscountsSorted(user, today, net);
    SortByOrderOfSorted(applicable);
    applicable := SortByOrder(applicable);
    r := Ok(applicable);
  }

  /** `getApplicableDiscounts` on the bill: reading the net amount stores a
      zero discount if none was set; nothing else of the bill changes. */
  method GetApplicableDiscounts(bill: BillDto, today: Date) returns (r: Result<seq<DiscountStrategy>>)
    requires bill.user.Some?
    modifies bill`discount
    ensures r == Ok(ApplicableDiscounts(bill.user.value, today, old(bill.NetAmount())))
    ensures bill.discount == Some(old(bill.DiscountValue()))
  {
    var user := bill.user.value;
    var net := bill.GetNetAmount();
    r := SelectStrategies(user, today, net);
  }

  /** The selection holds at most two rules, in ascending order with distinct
      orders; each rule is present exactly when its condition holds. */
  lemma ApplicableDiscountsShape(user: User, today: Date, net: real)
    ensures var r := ApplicableDiscounts(user, today, net);
      && |r| <= 2
      && SortedByOrder(r)
      && (forall i, j :: 0 <= i < j < |r| ==> r[i].Order() != r[j].Order())
      && (FixedAmountDiscount in r <==> net >= 100.0)
      && (EmployeeDiscount in r <==> user.userType == Employee)
      && (AffiliateDiscount in r <==> user.userType == Affiliate)
      && (LoyalCustomerDiscount in r
          <==> user.userType == Customer && YearsBetween(user.registrationDate, today) > 2)
  {
  }

  /** The selection is already in order, so the sort leaves it as it is. */
  lemma ApplicableDiscountsSorted(user: User, today: Date, net: real)
    ensures SortedByOrder(ApplicableDiscounts(user, today, net))
  {
    ApplicableDiscountsShape(user, today, net);
  }

  /** The loyalty gate is strict: three whole years qualify a customer, one
      does not. */
  lemma LoyaltyGate(user: User, today: Date, net: real)
    requires ValidDate(today) && user.userType == Customer
    ensures user.registrationDate == MinusYears(today, 3)
            ==> ApplicableDiscounts(user, today, net)
                == [LoyalCustomerDiscount] + (if net >= 100.0 then [FixedAmountDiscount] else [])
    ensures user.registrationDate == MinusYears(today, 1)
            ==> ApplicableDiscounts(user, today, net)
                == (if net >= 100.0 then [FixedAmountDiscount] else [])
  {
    MinusYearsDistance(today, 3);
    MinusYearsDistance(today, 1);
  }

  /** The selections of the factory tests, with the bill's net at 200 or 50. */
  lemma SelectionExamples(user: User, today: Date)
    ensures user.userType == Employee
            ==> ApplicableDiscounts(user, today, 200.0) == [EmployeeDiscount, FixedAmountDiscount]
    ensures user.userType == Affiliate
            ==> ApplicableDiscounts(user, today, 200.0) == [AffiliateDiscount, FixedAmountDiscount]
    ensures user.userType == Customer && YearsBetween(user.registrationDate, today) <= 2
            ==> ApplicableDiscounts(user, today, 200.0) == [FixedAmountDiscount]
                && ApplicableDiscounts(user, today, 50.0) == []
  {
  }
}
