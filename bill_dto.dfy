/** The bill being generated: a mutable aggregate that the discount applier
    updates in place. Its net amount is never stored by the getter: it is
    always the total less the discount. The discount and the list of applied
    discounts start unset (`None`) and are set on first read. */
module BillDtos {
  import opened Errors
  import opened Entities

  class BillDto {
    var id: Option<string>
    var user: Option<User>
    var products: seq<Product>
    var totalAmount: real
    var discount: Option<real>
    /** Written by the bill service, never read: `NetAmount()` derives it. */
    var netAmount: real
    var appliedDiscounts: Option<seq<Description>>
    var productIdList: seq<string>

    /** The bill the controller builds from a request: only the product ids. */
    constructor FromProductIds(ids: seq<string>)
      ensures productIdList == ids
      ensures id == None && user == None && products == [] && totalAmount == 0.0
      ensures discount == None && appliedDiscounts == None && netAmount == 0.0
    {
      productIdList := ids;
      id, user, products, totalAmount := None, None, [], 0.0;
      discount, netAmount, appliedDiscounts := None, 0.0, None;
    }

    /** The discount a read reports: zero while unset. */
    function DiscountValue(): real
      reads this
    {
      match discount
      case Some(d) => d
      case None => 0.0
    }

    /** The applied-discount list a read reports: empty while unset. */
    function AppliedList(): seq<Description>
      reads this
    {
      match appliedDiscounts
      case Some(l) => l
      case None => []
    }

    /** Net amount: total less discount; the stored `netAmount` is not consulted. */
    function NetAmount(): real
      reads this
    {
      totalAmount - DiscountValue()
    }

    /** Reads the discount, storing zero first when it is unset. */
    method GetDiscount() returns (d: real)
      modifies this`discount
      ensures d == old(DiscountValue())
      ensures discount == Some(d)
    {
      if discount.None? {
        discount := Some(0.0);
      }
      d := discount.value;
    }

    /** Reads the net amount; like every read of the discount it stores zero
        into an unset discount. */
    method GetNetAmount() returns (n: real)
      modifies this`discount
      ensures n == old(NetAmount()) && n == NetAmount()
      ensures n == totalAmount - old(DiscountValue())
      ensures discount == Some(old(DiscountValue()))
    {
      var d := GetDiscount();
      n := totalAmount - d;
    }

    /** Raises the discount by `amount`, which lowers the net by the same. */
    method AddDiscount(amount: real)
      modifies this`discount
      ensures discount == Some(old(DiscountValue()) + amount)
      ensures NetAmount() == old(NetAmount()) - amount
    {
      var d := GetDiscount();
      discount := Some(d + amount);
    }

    /** Reads the applied-discount list, storing an empty one first when it is
        unset. Later reads return that same list. */
    method GetAppliedDiscounts() returns (l: seq<Description>)
      modifies this`appliedDiscounts
      ensures l == old(AppliedList())
      ensures appliedDiscounts == Some(l)
    {
      if appliedDiscounts.None? {
        appliedDiscounts := Some([]);
      }
      l := appliedDiscounts.value;
    }

    /** `getAppliedDiscounts().add(description)`: since the getter hands out the
        stored list, the append is kept by the bill. */
    method AppendAppliedDiscount(description: Description)
      modifies this`appliedDiscounts
      ensures appliedDiscounts == Some(old(AppliedList()) + [description])
    {
      var l := GetAppliedDiscounts();
      appliedDiscounts := Some(l + [description]);
    }
  }
}
