# Retail store: bill generation and discounts

This project models the core of a retail-store back end in Dafny. A signed-in
user asks for a bill over a list of product ids. The store then does five things:

- It looks the user up by user name.
- It resolves every product id against the product catalogue.
- It sums the prices.
- It selects the discount strategies that apply.
- It runs those strategies in order against the bill, and saves the result once.

There are four strategies:

- Employee: 30% of the non-grocery subtotal.
- Affiliate: 10% of the non-grocery subtotal.
- Loyal customer: 5% of the non-grocery subtotal, for customers registered more than two whole years.
- Fixed amount: 5 for every whole 100 of the bill's current net amount.

A bill gets at most one percentage rule. The fixed-amount rule is added when the
initial net is at least 100, and it runs after the percentage rule, so it sees
the net that the percentage rule left.

The model also covers:

- the product catalogue: lookup, create and update;
- user registration and authentication against the user table;
- the CSRF exemption of the security configuration, which is a loopback check plus four private-network regular expressions.

Modelling choices:

- Money is exact decimal arithmetic, modelled as `real`. `divideToIntegralValue` is integer division truncating toward zero.
- The bill being generated (`BillDto`) is a class whose fields the services update in place. Its lazily initialised discount and applied-discount list are `Option` fields that the getters fill in.
- The product, user and bill tables are fields of the service classes (`map` and `seq`).
- Library collaborators become parameters: the password encoder, the credential check of the authentication manager, the token generator, the clock ("today"), the signed-in principal, and the ids the database assigns.

Files, one module each:

- `errors.dfy`: the error registry and the `Option`/`Result` wrappers.
- `entities.dfy`: products, users, bills and the price total.
- `calendar.dfy`: dates and `ChronoUnit.YEARS.between`.
- `strategies.dfy`: the four strategies.
- `bill_dto.dfy`: the mutable bill transfer object.
- `factory.dfy`: strategy selection.
- `discount_service.dfy`: the discount applier.
- `product_service.dfy`: the catalogue.
- `user_repository.dfy`: the user table.
- `authentication_service.dfy`: register and authenticate.
- `security.dfy`: `isNotLocalhost` and its patterns.
- `bill_service.dfy`: bill generation and lookup.

## Model

| member | source | states |
|---|---|---|
| Errors.Error.Code | src/main/java/com/ahmeric/store/exception/ErrorRegistry.java:15-34 | every registry error carries a code between 2001 and 2007 |
| Errors.CodeIdentifiesError | src/main/java/com/ahmeric/store/exception/ErrorRegistry.java:15-34 | two errors have the same code exactly when they are the same error; the NOT_FOUND errors are exactly codes 2001 to 2003 |
| Entities.TotalPriceAppend | src/main/java/com/ahmeric/store/service/BillService.java:87-91 | the total of two product lists put together is the sum of their totals |
| Entities.TotalPrice | src/main/java/com/ahmeric/store/service/BillService.java:87-91 | the total of a bill of non-negative prices is non-negative |
| Calendar.MinusYears | src/test/java/com/ahmeric/store/service/discount/DiscountStrategyFactoryTest.java:27-30 | `minusYears` gives a valid date n years earlier with the same month and the same day, except that 29 February becomes the 28th in a common year |
| Calendar.MonthsBetween | src/main/java/com/ahmeric/store/service/discount/DiscountStrategyFactory.java:45 | the whole months between two dates: the packed day difference counted in blocks of 32 and rounded toward zero, so it is non-negative for ordered dates and non-positive otherwise |
| Calendar.YearsBetween | src/main/java/com/ahmeric/store/service/discount/DiscountStrategyFactory.java:45 | the whole years between two dates: the whole months counted in blocks of 12 and rounded toward zero, with the sign of the months |
| Calendar.YearsBetweenIsCompletedYears | src/main/java/com/ahmeric/store/service/discount/DiscountStrategyFactory.java:44-45 | the whole-years distance between two ordered dates is the number of anniversaries of the start that have passed |
| Calendar.MinusYearsDistance | src/test/java/com/ahmeric/store/service/discount/DiscountStrategyFactoryTest.java:27-30 | a date n years before today is exactly n whole years from today |
| DiscountStrategies.DiscountStrategy.Order | src/main/java/com/ahmeric/store/service/discount/AbstractPercentageDiscountStrategy.java:47-50 | a strategy has order 1 exactly when it is a percentage rule, and order 2 exactly when it is the fixed-amount rule |
| DiscountStrategies.NonGrocery | src/main/java/com/ahmeric/store/service/discount/AbstractPercentageDiscountStrategy.java:36-37 | the filter keeps only non-grocery products, keeps every one of them, and adds nothing |
| DiscountStrategies.DescriptionText | src/main/java/com/ahmeric/store/service/discount/AbstractPercentageDiscountStrategy.java:21-27 | a description starts with the strategy's class name and ends with the plain rendering of the amount |
| DiscountStrategies.DiscountDescriptionText | src/main/java/com/ahmeric/store/service/discount/AbstractPercentageDiscountStrategy.java:21-27 | the whole text of a result's description: "<class> - with percentage <rate> amount: <amount>" for a percentage rule, "FixedAmountDiscountStrategy -  amount: <amount>" for the fixed rule, with the rule's own rate and the result's amount |
| DiscountStrategies.IntegralQuotient | src/main/java/com/ahmeric/store/service/discount/FixedAmountDiscountStrategy.java:23 | the integral quotient truncates toward zero: for a non-negative dividend it is the largest whole number of divisors not above it, for a negative one the smallest not below it |
| DiscountStrategies.CalculateDiscount | src/main/java/com/ahmeric/store/service/discount/FixedAmountDiscountStrategy.java:21-25 | a result's description carries the result's amount; it is a percentage description exactly for the percentage rules, with the rule's rate; the fixed rule gives a positive amount exactly when the net is at least 100 |
| DiscountStrategies.DiscountableTotalIsNonGroceryTotal | src/main/java/com/ahmeric/store/service/discount/AbstractPercentageDiscountStrategy.java:35-40 | the discountable amount is the price total of the non-grocery products |
| DiscountStrategies.DiscountableTotalBounds | src/main/java/com/ahmeric/store/service/discount/AbstractPercentageDiscountStrategy.java:35-40 | with non-negative prices the discountable amount lies between 0 and the bill total |
| DiscountStrategies.DiscountableTotalOfGroceries | src/main/java/com/ahmeric/store/service/discount/AbstractPercentageDiscountStrategy.java:35-40 | an empty bill, or one holding only groceries, has a discountable amount of 0 |
| DiscountStrategies.DiscountableTotalAppend | src/main/java/com/ahmeric/store/service/discount/AbstractPercentageDiscountStrategy.java:35-40 | the discountable amount of two lists put together is the sum of their discountable amounts |
| DiscountStrategies.PercentageDiscount | src/main/java/com/ahmeric/store/service/discount/EmployeeDiscountStrategy.java:14-27 | a percentage rule takes its rate (employee 0.3, affiliate 0.1, loyal customer 0.05) of the non-grocery total, whatever the net; its description holds the class name, the rate and that amount |
| DiscountStrategies.PercentageDiscountBounds | src/main/java/com/ahmeric/store/service/discount/LoyalCustomerDiscountStrategy.java:14-27 | with non-negative prices a percentage discount lies between 0 and its rate of the whole bill |
| DiscountStrategies.PairedItemsDiscountable | src/test/java/com/ahmeric/store/service/discount/DiscountPolicyTestUtil.java:23-36 | a test bill of count/2 unit-priced pairs has a discountable amount of count/2 for each non-grocery type of the pair |
| DiscountStrategies.PairedItemsDiscount | src/test/java/com/ahmeric/store/service/discount/AbstractDiscountStrategyTestBase.java:37-52 | a percentage rule on such a test bill takes its rate of that discountable amount |
| DiscountStrategies.EmployeeSingleItems | src/test/java/com/ahmeric/store/service/discount/EmployeeDiscountStrategyTest.java:31-43 | single items: 100 and 300 electronics give 30 and 90, 200 and 400 clothing give 60 and 120, and groceries give 0 |
| DiscountStrategies.EmployeeMixedItems | src/test/java/com/ahmeric/store/service/discount/EmployeeDiscountStrategyTest.java:45-56 | mixed bills of 100 electronics/groceries, 500 groceries/electronics and 400 groceries/clothing give 15, 75 and 60 |
| DiscountStrategies.EmployeeMixedNonGrocery | src/test/java/com/ahmeric/store/service/discount/EmployeeDiscountStrategyTest.java:45-56 | mixed bills of 200 clothing/electronics and 300 electronics/clothing give 60 and 90 |
| DiscountStrategies.AffiliateSingleItems | src/test/java/com/ahmeric/store/service/discount/AffiliateDiscountStrategyTest.java:33-44 | single items: 100 and 300 electronics give 10 and 30; a zero price and a grocery both give 0 |
| DiscountStrategies.AffiliateMixedItems | src/test/java/com/ahmeric/store/service/discount/AffiliateDiscountStrategyTest.java:46-57 | mixed bills of 100 and 400 items give 5 and 20 |
| DiscountStrategies.LoyalCustomerSingleItems | src/test/java/com/ahmeric/store/service/discount/LoyalCustomerDiscountStrategyTest.java:35-47 | single items: 100, 300 and 400 of non-groceries give 5, 15 and 20; 500 of groceries gives 0 |
| DiscountStrategies.LoyalCustomerMixedItems | src/test/java/com/ahmeric/store/service/discount/LoyalCustomerDiscountStrategyTest.java:49-60 | mixed bills of 100 and 500 items give 2.5 and 12.5 |
| DiscountStrategies.FixedAmountDiscountShape | src/main/java/com/ahmeric/store/service/discount/FixedAmountDiscountStrategy.java:21-25 | for a non-negative net the fixed discount is 5 times the whole hundreds of the net, at most 5% of the net, and 0 exactly when the net is below 100; the products play no part, and the description holds the class name and the amount |
| DiscountStrategies.FixedAmountDiscountMonotone | src/main/java/com/ahmeric/store/service/discount/FixedAmountDiscountStrategy.java:21-25 | the fixed discount never falls as the net grows, over all nets, negative ones included |
| DiscountStrategies.FixedAmountExamples | src/test/java/com/ahmeric/store/service/discount/FixedAmountDiscountStrategyTest.java:26-45 | nets of 99, 100, 150, 199, 200, 290 and 300 give 0, 5, 5, 5, 10, 10 and 15 |
| BillDtos.BillDto.FromProductIds | src/main/java/com/ahmeric/store/controller/BillController.java:48 | a request bill carries the product ids and nothing else: no id, user, discount or applied list (each null in the source), an empty product list, and total and net of zero (null in the source) |
| BillDtos.BillDto.GetDiscount | src/main/java/com/ahmeric/store/model/dto/BillDto.java:61-66 | returns the discount, or zero when it is unset, and leaves it set to that value |
| BillDtos.BillDto.GetNetAmount | src/main/java/com/ahmeric/store/model/dto/BillDto.java:40-42 | returns the total less the discount and not the stored net; as a side effect it sets an unset discount to zero |
| BillDtos.BillDto.AddDiscount | src/main/java/com/ahmeric/store/model/dto/BillDto.java:36-38 | raises the discount by the amount, which lowers the net amount by the same |
| BillDtos.BillDto.GetAppliedDiscounts | src/main/java/com/ahmeric/store/model/dto/BillDto.java:49-54 | returns the applied list, or an empty one that it stores when the list is unset |
| BillDtos.BillDto.AppendAppliedDiscount | src/main/java/com/ahmeric/store/service/discount/DiscountService.java:34 | appending to the list the getter returns appends to the bill's own list |
| DiscountStrategyFactory.PercentageRuleFor | src/main/java/com/ahmeric/store/service/discount/DiscountStrategyFactory.java:39-47 | employees get exactly the employee rule, affiliates exactly the affiliate rule, customers of more than two whole years exactly the loyalty rule, and any rule chosen is a percentage rule |
| DiscountStrategyFactory.Insert | src/main/java/com/ahmeric/store/service/discount/DiscountStrategyFactory.java:54 | insertion adds exactly the inserted strategy to the list's elements, making it one longer |
| DiscountStrategyFactory.SortByOrder | src/main/java/com/ahmeric/store/service/discount/DiscountStrategyFactory.java:54 | the sort keeps exactly the elements of its input, with their multiplicities |
| DiscountStrategyFactory.SortedCons | src/main/java/com/ahmeric/store/service/discount/DiscountStrategyFactory.java:54 | a head whose order is at most that of every element of a sorted tail gives a sorted list |
| DiscountStrategyFactory.InsertKeepsSorted | src/main/java/com/ahmeric/store/service/discount/DiscountStrategyFactory.java:54 | insertion keeps the list sorted by order, and the new head is the inserted strategy or the old head |
| DiscountStrategyFactory.SortByOrderSortsAndPermutes | src/main/java/com/ahmeric/store/service/discount/DiscountStrategyFactory.java:54 | the sort by order yields a sorted permutation of its input |
| DiscountStrategyFactory.SortByOrderOfSorted | src/main/java/com/ahmeric/store/service/discount/DiscountStrategyFactory.java:54 | a list that is already in order is left as it is |
| DiscountStrategyFactory.AddStrategy | src/main/java/com/ahmeric/store/service/discount/DiscountStrategyFactory.java:65-71 | fails with SAME_ORDER_MULTIPLE_STRATEGIES exactly when the order is already taken; otherwise it appends the strategy and records its order |
| DiscountStrategyFactory.SelectStrategies | src/main/java/com/ahmeric/store/service/discount/DiscountStrategyFactory.java:34-55 | the imperative selection, sorting included, always succeeds with exactly `ApplicableDiscounts` |
| DiscountStrategyFactory.GetApplicableDiscounts | src/main/java/com/ahmeric/store/service/discount/DiscountStrategyFactory.java:33-56 | its result is the selection for the bill's user and its net before the call; its only effect on the bill is that an unset discount becomes zero |
| DiscountStrategyFactory.ApplicableDiscountsShape | src/main/java/com/ahmeric/store/service/discount/DiscountStrategyFactory.java:39-52 | at most two rules, sorted, with distinct orders; the fixed rule exactly when the net is at least 100; each percentage rule exactly when the user qualifies for it |
| DiscountStrategyFactory.ApplicableDiscountsSorted | src/main/java/com/ahmeric/store/service/discount/DiscountStrategyFactory.java:39-54 | the selected rules are already in ascending order, so the sort leaves them as they are |
| DiscountStrategyFactory.LoyaltyGate | src/main/java/com/ahmeric/store/service/discount/DiscountStrategyFactory.java:44-46 | a customer registered three years ago gets the loyalty rule; one registered a year ago does not |
| DiscountStrategyFactory.SelectionExamples | src/test/java/com/ahmeric/store/service/discount/DiscountStrategyFactoryTest.java:21-53 | on a net of 200, employees and affiliates get their rule plus the fixed one and new customers get only the fixed one; on a net of 50, new customers get none |
| DiscountService.Step | src/main/java/com/ahmeric/store/service/discount/DiscountService.java:32-35 | one result never lowers the discount; it raises it exactly when its amount is positive, and then, and only then, one description is appended |
| DiscountService.Accumulate | src/main/java/com/ahmeric/store/service/discount/DiscountService.java:29-36 | over given results the discount never falls and the applied list keeps its prefix and grows by at most one description per result |
| DiscountService.AccumulateSumsPositives | src/main/java/com/ahmeric/store/service/discount/DiscountService.java:29-36 | over given results, the final discount is the start plus the sum of the positive amounts, and their descriptions are appended in order |
| DiscountService.AccumulateExamples | src/test/java/com/ahmeric/store/service/discount/DiscountServiceTest.java:39-103 | one result of 10 gives 10 and one description; none gives 0 and none; 10 then 0 gives 10 and one description; 10 then 20 gives 30 and both descriptions, in order |
| DiscountService.ApplyAllIsSequentialAccumulate | src/main/java/com/ahmeric/store/service/discount/DiscountService.java:29-36 | running the strategies is accumulating the results each one computes on the bill as the earlier ones left it |
| DiscountService.ApplyAllExtends | src/main/java/com/ahmeric/store/service/discount/DiscountService.java:29-36 | the discount never falls, and the applied list keeps its prefix and grows by at most one per strategy |
| DiscountService.ApplyAllUnfold | src/main/java/com/ahmeric/store/service/discount/DiscountService.java:29-36 | running a list of strategies is one step of the first, evaluated on the net the bill has so far, followed by the rest |
| DiscountService.ApplyAllTwo | src/main/java/com/ahmeric/store/service/discount/DiscountService.java:29-36 | with two strategies, the second is evaluated on the net the first left |
| DiscountService.FinalDiscountsClosedForm | src/main/java/com/ahmeric/store/service/discount/DiscountService.java:24-39 | the final discount is the percentage amount (0 without a rule) plus the fixed amount computed on the net after it (0 under 100) |
| DiscountService.FinalDiscountsWithinTotal | src/main/java/com/ahmeric/store/service/discount/DiscountService.java:24-39 | with non-negative prices the final discount lies between 0 and the bill total |
| DiscountService.LoyalCustomerWithFixedAmount | src/main/java/com/ahmeric/store/service/discount/DiscountService.java:24-39 | a loyal customer's 200 shirt gets 10 from the loyalty rule and then 5 from the fixed rule on 190; both are recorded, in that order |
| DiscountService.AffiliateWithFixedAmount | src/main/java/com/ahmeric/store/service/discount/DiscountService.java:24-39 | an affiliate's 300 of electronics gets 30 and then 10 on 270, for a net of 260 |
| DiscountService.EmployeeGroceriesOnly | src/main/java/com/ahmeric/store/service/discount/DiscountService.java:24-39 | an employee's 100 of groceries gets no percentage discount, only the fixed 5 |
| DiscountService.ApplyOne | src/main/java/com/ahmeric/store/service/discount/DiscountService.java:30-35 | one strategy, evaluated on the bill's current net, changes the bill's discount and applied list exactly as one step of the applier does |
| DiscountService.ApplyDiscount | src/main/java/com/ahmeric/store/service/discount/DiscountService.java:24-39 | the loop leaves on the same bill the discount and applied list of `ApplyAll` over the selected strategies; products, total, user, id and stored net are untouched |
| ProductServices.WithId | src/main/java/com/ahmeric/store/service/ProductService.java:30 | mapping a transfer object to a product copies name, price and type and sets the given id |
| ProductServices.ToDto | src/main/java/com/ahmeric/store/service/ProductService.java:32 | mapping a product back to a transfer object and then to a product again restores the product, id included |
| ProductServices.ProductService.constructor | src/main/java/com/ahmeric/store/service/ProductService.java:16-21 | a new catalogue is empty and well formed |
| ProductServices.ProductService.GetProductById | src/main/java/com/ahmeric/store/service/ProductService.java:51-55 | succeeds exactly when the id is stored, with the product stored under it (which carries that id); otherwise PRODUCT_NOT_FOUND |
| ProductServices.ProductService.AllProducts | src/main/java/com/ahmeric/store/service/ProductService.java:40-42 | holds every stored product, and nothing that is not stored under its own id |
| ProductServices.ProductService.CreateProduct | src/main/java/com/ahmeric/store/service/ProductService.java:29-33 | stores the product under its id, or under the assigned one when it has none, replacing any product there; returns it with that id, and it is then found by that id |
| ProductServices.ProductService.UpdateProduct | src/main/java/com/ahmeric/store/service/ProductService.java:63-72 | succeeds exactly when the id is stored, and then replaces name, price and type under that id; an unknown id gives PRODUCT_NOT_FOUND and nothing changes; other ids are untouched; the catalogue stays well formed |
| ProductServices.ProductScenario | src/test/java/com/ahmeric/store/service/ProductServiceTest.java:49-120 | a created product gets its id, an update of it returns the new fields, and an unknown id is not found |
| UserRepositories.FindByUserName | src/main/java/com/ahmeric/store/repository/UserRepository.java:21 | finds a user exactly when one with that name is stored, and the user found has that name |
| UserRepositories.FindByUserNameUnique | src/main/java/com/ahmeric/store/repository/UserRepository.java:21 | with unique user names, the lookup finds the one user with that name |
| UserRepositories.FindAfterAppend | src/main/java/com/ahmeric/store/service/AuthenticationService.java:36-42 | saving a user with a new name makes it findable and leaves every other lookup as it was |
| UserRepositories.UserRepository.constructor | src/main/java/com/ahmeric/store/repository/UserRepository.java:12-13 | a new user table is empty, with unique names and ids |
| UserRepositories.UserRepository.Find | src/main/java/com/ahmeric/store/repository/UserRepository.java:21 | finds a user exactly when one with that name is stored; with unique names it is that user |
| UserRepositories.UserRepository.Insert | src/main/java/com/ahmeric/store/service/AuthenticationService.java:42 | appends the user and keeps names and ids unique; the new user is found by name, and every other name finds what it found before |
| AuthenticationServices.AuthenticationService.constructor | src/main/java/com/ahmeric/store/service/AuthenticationService.java:20-28 | the service works on the given user table |
| AuthenticationServices.AuthenticationService.Register | src/main/java/com/ahmeric/store/service/AuthenticationService.java:35-43 | fails with USER_ALREADY_EXISTS exactly when the name is taken, and then saves nothing; otherwise it saves exactly one user, with the encoded password and today as registration date, who is then found by name |
| AuthenticationServices.AuthenticationService.Authenticate | src/main/java/com/ahmeric/store/service/AuthenticationService.java:53-65 | an unknown name gives USER_NOT_FOUND, and nothing else gives it; a known user with accepted credentials gets the token for the name, and no other case does |
| AuthenticationServices.UnknownUserIgnoresCredentials | src/main/java/com/ahmeric/store/service/AuthenticationService.java:54-55 | for an unknown name the credential check is never consulted: any check gives USER_NOT_FOUND |
| AuthenticationServices.RegistrationScenario | src/test/java/com/ahmeric/store/service/AuthenticationServiceTest.java:62-101 | a first registration succeeds and a second with the same name is refused; the user then authenticates, and an unknown name is not found |
| Security.OctetIsByteValue | src/main/java/com/ahmeric/store/config/SecurityConfiguration.java:29-31 | the octet alternative matches exactly the one- to three-digit strings of value at most 255, leading zeros allowed |
| Security.IsOctet | src/main/java/com/ahmeric/store/config/SecurityConfiguration.java:30 | a string the octet alternative matches is one to three digits |
| Security.DottedOctetsSplitIsDigitRun | src/main/java/com/ahmeric/store/config/SecurityConfiguration.java:29-31 | the repeated dot-octet group has a unique split: each octet is the whole digit run after its dot |
| Security.DottedOctetsIsByRun | src/main/java/com/ahmeric/store/config/SecurityConfiguration.java:29-31 | a split into dot-octet groups is the split at digit-run boundaries |
| Security.DottedOctetsByRunIsSplit | src/main/java/com/ahmeric/store/config/SecurityConfiguration.java:29-31 | a split at digit-run boundaries into octets is a match of the repeated group |
| Security.DottedOctetsByRunUncons | src/main/java/com/ahmeric/store/config/SecurityConfiguration.java:29-31 | one more group read by digit runs is a leading dot and octet followed by the shorter reading |
| Security.DottedOctetsUncons | src/main/java/com/ahmeric/store/config/SecurityConfiguration.java:29-31 | a dot, a digit run and a dot-or-end form one group exactly when the run is an octet |
| Security.PrivateSecondOctetRange | src/main/java/com/ahmeric/store/config/SecurityConfiguration.java:34-36 | the second-octet pattern of the 172 range matches exactly the two-digit values 16 to 31 |
| Security.Ipv4PrivateRange1 | src/main/java/com/ahmeric/store/config/SecurityConfiguration.java:28-31 | an address the 10 pattern matches starts with "10." and goes on |
| Security.Ipv4PrivateRange2 | src/main/java/com/ahmeric/store/config/SecurityConfiguration.java:33-36 | an address the 172 pattern matches starts with "172.", has its second dot at position 6, and goes on |
| Security.Ipv4PrivateRange3 | src/main/java/com/ahmeric/store/config/SecurityConfiguration.java:38-41 | an address the 192.168 pattern matches starts with "192.168." and goes on |
| Security.DottedOctetsLength | src/main/java/com/ahmeric/store/config/SecurityConfiguration.java:29-31 | n dot-octet groups take between 2n and 4n characters |
| Security.PrivateRangeLengths | src/main/java/com/ahmeric/store/config/SecurityConfiguration.java:28-41 | a 10 address has 8 to 14 characters, a 172 address 10 to 14, a 192.168 address 11 to 15 |
| Security.Ipv6PrivateRangeGroups | src/main/java/com/ahmeric/store/config/SecurityConfiguration.java:44-46 | the whole-string IPv6 pattern matches exactly the non-empty strings made of whole five-character groups, each of the group form |
| Security.Ipv6PrivateRange | src/main/java/com/ahmeric/store/config/SecurityConfiguration.java:44-46 | a match of the IPv6 pattern is a non-empty whole number of five-character groups and starts with f or F |
| Security.IsNotLocalhost | src/main/java/com/ahmeric/store/config/SecurityConfiguration.java:96-106 | CSRF protection is required exactly when the address is neither a loopback address nor matched by a private-network pattern |
| Security.LoopbackIsExempt | src/main/java/com/ahmeric/store/config/SecurityConfiguration.java:25-26 | both loopback addresses are exempt |
| Security.Range1Exactly | src/main/java/com/ahmeric/store/config/SecurityConfiguration.java:28-31 | 10.a.b.c over digit runs is matched exactly when a, b and c are octets |
| Security.Range1WrongCount | src/main/java/com/ahmeric/store/config/SecurityConfiguration.java:29-31 | after 10, two groups or four groups are not matched |
| Security.Range2Exactly | src/main/java/com/ahmeric/store/config/SecurityConfiguration.java:33-36 | 172.x.a.b with a two-digit x is matched exactly when x is 16 to 31 and a and b are octets |
| Security.Range3Exactly | src/main/java/com/ahmeric/store/config/SecurityConfiguration.java:38-41 | 192.168.a.b is matched exactly when a and b are octets |
| Security.Ipv6NeedsF | src/main/java/com/ahmeric/store/config/SecurityConfiguration.java:44-46 | an address starting with a digit never matches the IPv6 pattern |
| Security.TenNetworkWrongCountNotExempt | src/main/java/com/ahmeric/store/config/SecurityConfiguration.java:96-106 | addresses after 10 with too few or too many groups must carry a CSRF token |
| Security.Ipv6UniqueLocalNotMatched | src/main/java/com/ahmeric/store/config/SecurityConfiguration.java:43-46 | the IPv6 pattern does not match unique local addresses such as fd12:3456::1, since their fourth character is not a literal 2 |
| Security.Ipv6LiteralTwoMatched | src/main/java/com/ahmeric/store/config/SecurityConfiguration.java:43-46 | the strings the IPv6 pattern does match are groups such as "fca2:" and "FDb2:fc02:" |
| Security.UniqueLocalNotExempt | src/main/java/com/ahmeric/store/config/SecurityConfiguration.java:96-106 | a request from fd12:3456::1 must carry a CSRF token |
| BillServices.ResolveProducts | src/main/java/com/ahmeric/store/service/BillService.java:48-53 | succeeds exactly when every id is in the catalogue, with one product per id, in order; otherwise PRODUCT_NOT_FOUND |
| BillServices.GenerateBillOutcomes | src/main/java/com/ahmeric/store/service/BillService.java:38-46 | USER_NOT_FOUND exactly when the user is unknown; PRODUCT_NOT_FOUND exactly when the user is known and some id is not; otherwise the user's id and type, one product per id, their total, the selected discounts, and net = total - discount |
| BillServices.GenerateBillFound | src/main/java/com/ahmeric/store/service/BillService.java:38-46 | once both lookups succeed, the bill is built from the user, the products, their total and the result of the pipeline |
| BillServices.GeneratedBillWithinTotal | src/main/java/com/ahmeric/store/service/BillService.java:38-46 | a fresh request's bill carries the pipeline's discounts; with non-negative prices its net lies between 0 and its total |
| BillServices.GenerateBillExamples | src/main/java/com/ahmeric/store/service/BillService.java:77-85 | a loyal customer's 200 shirt gives total 200, discount 15 and net 185; an unknown user is reported before an unknown product; a known user with an unknown id gets PRODUCT_NOT_FOUND |
| BillServices.BillService.constructor | src/main/java/com/ahmeric/store/service/BillService.java:21-29 | the service starts with the given catalogue and user table and no bills |
| BillServices.BillService.GetBillById | src/main/java/com/ahmeric/store/service/BillService.java:71-75 | succeeds exactly when the id is stored, with that bill; otherwise BILL_NOT_FOUND |
| BillServices.BillService.GatherBillDto | src/main/java/com/ahmeric/store/service/BillService.java:77-85 | fails exactly when the user or some product is unknown, the user being checked first, and then leaves the bill as it was; otherwise it sets the products, the user, the total, a zero discount and a net equal to the total |
| BillServices.BillService.SaveBill | src/main/java/com/ahmeric/store/service/BillService.java:41-44 | copies the request into a bill with the user's id and type, net = total - discount, and the applied list (empty when unset), and saves it once under its id; a request without an id gets the fresh assigned id, so no stored bill is replaced |
| BillServices.BillService.DiscountAndSave | src/main/java/com/ahmeric/store/service/BillService.java:40-44 | the bill saved under its id carries the request's products and total and the discounts of the selected strategies, with net = total - discount; a request without an id gets a fresh id, so every earlier bill is kept; the request keeps its products, total, user and ids |
| BillServices.BillService.GenerateBillByProductIds | src/main/java/com/ahmeric/store/service/BillService.java:38-46 | the result is `GenerateBill` of the tables; a failure changes neither the request nor the bill table; on success exactly that bill is saved under its id, which for a request without an id is fresh, so every earlier bill is kept; the request holds its products, total, discount and applied list |

## Left out

- Java's `null`: the model has no nulls. In the source a request whose product id list is missing, a customer without a registration date, or a product without a price ends in a `NullPointerException`. A user without a type matches none of the three user-type tests and simply gets no percentage rule; the model's user types have no such value.
- BigDecimal scale and rendering: amounts are exact reals, so `30.0` and `30` are equal here, and `toPlainString` is a parameter of `DescriptionText`. The source's descriptions are strings; the model keeps them as structured `Description` values.
- The controllers, the JWT filter and service, the logging aspect and the Spring wiring are not part of this model.
- The password encoder, the credential check of the authentication manager and the token generator are function parameters. A rejected credential is the outcome `BadCredentials` and not a library exception.
- The clock is a parameter: callers pass today's date. The signed-in principal is the `currentUserName` parameter, in place of `SecurityContextHolder`.
- Ids the database assigns are the `assignedId` parameters. Callers must pass one that is not in use when the entity has no id, as a fresh database key would be. The database's persistence and its concurrency are not modelled.
- `BillService.getAllBills`, `UserService.getAllUsers` and the final mapping of a saved bill back to a transfer object are left out: each is a plain copy of a table.
- `UserService.findByUserName` is modelled through `UserRepository.Find`, followed by USER_NOT_FOUND inside `GenerateBill` and `GatherBillDto`.
- ProductServices.ProductService.AllProducts: returns a set, so the order in which the database lists products is not modelled.
- ProductServices.ProductService.UpdateProduct: requires the transfer object to carry an id. The source would pass a null id on to the database.
- ProductServices.ProductService.CreateProduct: requires an assigned id that is not yet in use when the product has no id, standing in for the database's fresh id.
- AuthenticationServices.AuthenticationService.Register: the user's id is always the caller-supplied `assignedId`, free in the table. An id carried by the incoming transfer object is not modelled.
- UserRepositories.UserRepository.Insert: requires a name and an id not yet in the table. The database's own handling of duplicate keys is not modelled.
- DiscountStrategyFactory.SelectStrategies: the duplicate-order error of `addStrategy` is modelled by `AddStrategy` but cannot arise in the selection, because at most one strategy goes through it.
