/** The Order schema (model/order.js): the buyer, the frozen line items, the
    total, the payment method, the two status enums with their defaults and
    the shipping address. Line items have no `subtotal` path. */
module OrderModel {
  import opened Base
  import opened Text

  datatype PaymentMethod = CreditCard | DebitCard | PayPal | BankTransfer
  datatype PaymentStatus = Pending | Paid | Failed
  datatype OrderStatus = Processing | Shipped | Delivered | Cancelled

  function PaymentMethodName(m: PaymentMethod): string {
    match m
    case CreditCard => "credit_card"
    case DebitCard => "debit_card"
    case PayPal => "paypal"
    case BankTransfer => "bank_transfer"
  }

  function PaymentStatusName(s: PaymentStatus): string {
    match s
    case Pending => "pending"
    case Paid => "paid"
    case Failed => "failed"
  }

  function OrderStatusName(s: OrderStatus): string {
    match s
    case Processing => "processing"
    case Shipped => "shipped"
    case Delivered => "delivered"
    case Cancelled => "cancelled"
  }

  /** The `enum` validator of paymentMethod. */
  function ParsePaymentMethod(s: string): (r: Option<PaymentMethod>)
    ensures r.Some? <==> s in ["credit_card", "debit_card", "paypal", "bank_transfer"]
    ensures r.Some? ==> PaymentMethodName(r.value) == s
  {
    if s == "credit_card" then Some(CreditCard)
    else if s == "debit_card" then Some(DebitCard)
    else if s == "paypal" then Some(PayPal)
    else if s == "bank_transfer" then Some(BankTransfer)
    else None
  }

  /** The `enum` validator of paymentStatus. */
  function ParsePaymentStatus(s: string): (r: Option<PaymentStatus>)
    ensures r.Some? <==> s in ["pending", "paid", "failed"]
    ensures r.Some? ==> PaymentStatusName(r.value) == s
  {
    if s == "pending" then Some(Pending)
    else if s == "paid" then Some(Paid)
    else if s == "failed" then Some(Failed)
    else None
  }

  /** The `enum` validator of orderStatus. */
  function ParseOrderStatus(s: string): (r: Option<OrderStatus>)
    ensures r.Some? <==> s in ["processing", "shipped", "delivered", "cancelled"]
    ensures r.Some? ==> OrderStatusName(r.value) == s
  {
    if s == "processing" then Some(Processing)
    else if s == "shipped" then Some(Shipped)
    else if s == "delivered" then Some(Delivered)
    else if s == "cancelled" then Some(Cancelled)
    else None
  }

  /** Every stored enum value reads back as itself. */
  lemma EnumRoundTrips(m: PaymentMethod, p: PaymentStatus, o: OrderStatus)
    ensures ParsePaymentMethod(PaymentMethodName(m)) == Some(m)
    ensures ParsePaymentStatus(PaymentStatusName(p)) == Some(p)
    ensures ParseOrderStatus(OrderStatusName(o)) == Some(o)
  {
  }

  /** The schema defaults of the two status paths. */
  const DefaultPaymentStatus := Pending
  const DefaultOrderStatus := Processing

  datatype ShippingAddress = ShippingAddress(
    street: string,
    city: string,
    state: string,
    postalCode: string,
    country: string)

  /** The shipping address as it arrives in the request body: any of the
      five parts may be missing. */
  datatype AddressInput = AddressInput(
    street: Option<string>,
    city: Option<string>,
    state: Option<string>,
    postalCode: Option<string>,
    country: Option<string>)

  /** One address part through its `trim` setter and `required` validator:
      a missing part, or one that is empty once trimmed, is rejected. */
  function RequiredText(f: Option<string>): (r: Option<string>)
    ensures r.Some? <==> f.Some? && Trim(f.value) != ""
    ensures r.Some? ==> r.value == Trim(f.value)
  {
    match f
    case None => None
    case Some(s) => if Trim(s) == "" then None else Some(Trim(s))
  }

  /** The address sub-document: all five parts are required. */
  function BuildAddress(a: AddressInput): (r: Option<ShippingAddress>)
    ensures r.Some? <==>
      && RequiredText(a.street).Some? && RequiredText(a.city).Some?
      && RequiredText(a.state).Some? && RequiredText(a.postalCode).Some?
      && RequiredText(a.country).Some?
    ensures r.Some? ==>
      && r.value.street != "" && r.value.city != "" && r.value.state != ""
      && r.value.postalCode != "" && r.value.country != ""
  {
    match (RequiredText(a.street), RequiredText(a.city), RequiredText(a.state),
           RequiredText(a.postalCode), RequiredText(a.country))
    case (Some(st), Some(ci), Some(sa), Some(pc), Some(co)) => Some(ShippingAddress(st, ci, sa, pc, co))
    case _ => None
  }

  /** A frozen line: product, quantity and the unit price paid. */
  datatype OrderItem = OrderItem(product: Id, quantity: int, price: int)

  datatype Order = Order(
    user: Id,
    items: seq<OrderItem>,
    totalAmount: int,
    paymentMethod: PaymentMethod,
    paymentStatus: PaymentStatus,
    orderStatus: OrderStatus,
    shippingAddress: ShippingAddress,
    createdAt: nat)

  /** Sum of `price * quantity` over the frozen lines. */
  function ItemsTotal(items: seq<OrderItem>): int {
    if |items| == 0 then 0 else items[0].price * items[0].quantity + ItemsTotal(items[1..])
  }

  /** The numeric path validators of an order: each item's quantity at
      least 1 and price at least 0, and a total of at least 0. The enums and
      the required address parts are enforced by the types above. */
  predicate ValidOrder(o: Order) {
    && (forall i :: 0 <= i < |o.items| ==> o.items[i].quantity >= 1 && o.items[i].price >= 0)
    && o.totalAmount >= 0
  }

  /** Items with positive quantities and non-negative prices sum to a
      non-negative total, so the total validator never rejects such an
      order. */
  lemma {:induction false} ItemsTotalNonNegative(items: seq<OrderItem>)
    requires forall i :: 0 <= i < |items| ==> items[i].quantity >= 1 && items[i].price >= 0
    ensures ItemsTotal(items) >= 0
  {
    if |items| > 0 {
      ItemsTotalNonNegative(items[1..]);
      assert items[0].price * items[0].quantity >= 0;
    }
  }
}
