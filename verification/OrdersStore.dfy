/** The order store: one storage slot holding every order, year-scoped
    order codes, status updates and the dashboard summary. The slot is an
    explicit value; each mutating operation returns the list it saves. */
module OrdersStore {
  import opened Wrappers
  import opened JsStrings
  import opened Seqs
  import opened Data
  import OrderCode

  datatype OrderSource = FromCustomer | FromSales

  datatype OrderItem = OrderItem(
    sku: string,
    name: string,
    brand: string,
    unitPrice: int,
    quantity: int,
    unit: string,
    subtotal: int)

  /** A stored order; `createdAt` is a millisecond timestamp. */
  datatype Order = Order(
    id: string,
    customerId: string,
    customerName: string,
    source: OrderSource,
    status: OrderStatus,
    items: seq<OrderItem>,
    totalAmount: int,
    createdAt: int)

  /** What a caller supplies to `AddOrder`: an order without id, status
      and creation time. */
  datatype OrderInput = OrderInput(
    customerId: string,
    customerName: string,
    source: OrderSource,
    items: seq<OrderItem>,
    totalAmount: int)

  /** The storage slot: None when absent or unreadable. */
  type Slot = Option<seq<Order>>

  /** Loading: the stored list; an absent or unreadable slot reads as no orders. */
  function LoadOrders(slot: Slot): (orders: seq<Order>)
    ensures slot.None? ==> orders == []
    ensures slot.Some? ==> orders == slot.value
  {
    slot.GetOr([])
  }

  /** Saving overwrites the whole slot. */
  function SaveOrders(orders: seq<Order>): (slot: Slot)
    ensures LoadOrders(slot) == orders
  {
    Some(orders)
  }

  predicate UniqueIds(orders: seq<Order>)
  {
    forall i, j :: 0 <= i < j < |orders| ==> orders[i].id != orders[j].id
  }

  // ---------------------------------------------------------------- codes

  /** Whether an order's id carries the code prefix of `year`. */
  function InYear(year: nat): Order -> bool
  {
    (o: Order) => StartsWith(o.id, OrderCode.Prefix(year))
  }

  /** What one order contributes to the numbering of `year`: the number
      in its id when the id has the year's prefix and the number parses. */
  function YearNumber(year: nat, id: string): (r: Option<int>)
    ensures r.Some? ==> StartsWith(id, OrderCode.Prefix(year)) && r == OrderCode.NumberOf(id)
    ensures r.Some? ==> r.value >= 0
  {
    if StartsWith(id, OrderCode.Prefix(year)) then OrderCode.NumberOf(id) else None
  }

  /** The numbers in use in `year`: for each order whose id has the
      year's prefix, in list order, the number its id parses to, if any. */
  function YearIndices(orders: seq<Order>, year: nat): (r: seq<int>)
    ensures forall k :: k in r ==> k >= 0
  {
    if |orders| == 0 then []
    else
      var head := match YearNumber(year, orders[0].id) case Some(n) => [n] case None => [];
      head + YearIndices(orders[1..], year)
  }

  /** Every number in use is collected: the number of each stored id of
      the year. */
  lemma {:induction false} YearIndicesComplete(orders: seq<Order>, year: nat)
    ensures forall i :: 0 <= i < |orders| && YearNumber(year, orders[i].id).Some? ==>
      YearNumber(year, orders[i].id).value in YearIndices(orders, year)
  {
    if |orders| > 0 {
      YearIndicesComplete(orders[1..], year);
      YearIndicesCons(orders[0], orders[1..], year);
      assert orders == [orders[0]] + orders[1..];
      forall i | 1 <= i < |orders|
        ensures orders[i] == orders[1..][i - 1]
      {
      }
    }
  }

  /** Nothing else is collected: every number in use comes from a stored
      id of the year. */
  lemma {:induction false} YearIndicesSound(orders: seq<Order>, year: nat)
    ensures forall k :: k in YearIndices(orders, year) ==>
      exists i :: 0 <= i < |orders| && YearNumber(year, orders[i].id) == Some(k)
  {
    if |orders| > 0 {
      YearIndicesSound(orders[1..], year);
      YearIndicesCons(orders[0], orders[1..], year);
      assert orders == [orders[0]] + orders[1..];
      forall k | k in YearIndices(orders, year)
        ensures exists i :: 0 <= i < |orders| && YearNumber(year, orders[i].id) == Some(k)
      {
        if YearNumber(year, orders[0].id) != Some(k) {
          var i :| 0 <= i < |orders[1..]| && YearNumber(year, orders[1..][i].id) == Some(k);
          assert orders[i + 1] == orders[1..][i];
        }
      }
    }
  }

  /** The largest element of a non-empty list, as `Math.max` gives it. */
  function MaxOf(s: seq<int>): (m: int)
    requires |s| > 0
    ensures m in s
    ensures forall k :: k in s ==> k <= m
  {
    if |s| == 1 then s[0]
    else
      var rest := MaxOf(s[1..]);
      assert s == [s[0]] + s[1..];
      if s[0] >= rest then s[0] else rest
  }

  /** One past the largest of `indices`, or 1 for none. */
  function NextNumber(indices: seq<int>): (n: int)
    requires forall k :: k in indices ==> k >= 0
    ensures n >= 1
    ensures forall k :: k in indices ==> k < n
    ensures indices != [] ==> n - 1 in indices
    ensures indices == [] ==> n == 1
  {
    if |indices| > 0 then MaxOf(indices) + 1 else 1
  }

  /** The next number of `year`: one past the largest number in use, or 1
      (`NextIndexOverOrders` states this over the orders themselves). */
  function NextIndex(orders: seq<Order>, year: nat): (n: int)
    ensures n >= 1
    ensures forall k :: k in YearIndices(orders, year) ==> k < n
    ensures YearIndices(orders, year) != [] ==> n - 1 in YearIndices(orders, year)
    ensures YearIndices(orders, year) == [] ==> n == 1
  {
    NextNumber(YearIndices(orders, year))
  }

  /** The next number of `year` is above the number of every stored id of
      the year, and is one past the number of one of them; it is 1 when
      no stored id of the year carries a number. */
  lemma NextIndexOverOrders(orders: seq<Order>, year: nat)
    ensures forall i :: 0 <= i < |orders| && YearNumber(year, orders[i].id).Some? ==>
      YearNumber(year, orders[i].id).value < NextIndex(orders, year)
    ensures NextIndex(orders, year) == 1
         || exists i :: 0 <= i < |orders| && YearNumber(year, orders[i].id) == Some(NextIndex(orders, year) - 1)
  {
    NumbersOfOrders(orders, year, NextIndex(orders, year));
  }

  /** Bounds on the collected numbers, read as bounds on the orders. */
  lemma NumbersOfOrders(orders: seq<Order>, year: nat, n: int)
    requires n == NextNumber(YearIndices(orders, year))
    ensures forall i :: 0 <= i < |orders| && YearNumber(year, orders[i].id).Some? ==>
      YearNumber(year, orders[i].id).value < n
    ensures n == 1 || exists i :: 0 <= i < |orders| && YearNumber(year, orders[i].id) == Some(n - 1)
  {
    var indices := YearIndices(orders, year);
    assert forall k :: k in indices ==> k < n;
    YearIndicesComplete(orders, year);
    forall i | 0 <= i < |orders| && YearNumber(year, orders[i].id).Some?
      ensures YearNumber(year, orders[i].id).value < n
    {
      assert YearNumber(year, orders[i].id).value in indices;
    }
    if indices != [] {
      assert n - 1 in indices;
      YearIndicesSound(orders, year);
    }
  }

  /** The id `addOrder` assigns in `year`: its number is fresh for the
      year, so the id differs from every existing order id. The equation
      with `OrderCode.Format` only names the code; the clauses after it
      say what the code is. */
  function NewOrderId(orders: seq<Order>, year: nat): (id: string)
    ensures StartsWith(id, OrderCode.Prefix(year))
    ensures id == OrderCode.Format(year, NextIndex(orders, year))
    ensures var d := id[|OrderCode.Prefix(year)|..];
      && AllRadixDigits(d, 10) && RadixValue(d, 10) == NextIndex(orders, year)
      && |d| == (if |NatToString(NextIndex(orders, year))| >= 3 then |NatToString(NextIndex(orders, year))| else 3)
    ensures OrderCode.NumberOf(id) == Some(NextIndex(orders, year))
    ensures forall i :: 0 <= i < |orders| ==> orders[i].id != id
  {
    var n := NextIndex(orders, year);
    var id := OrderCode.Format(year, n);
    OrderCode.FormatRoundTrip(year, n);
    assert YearNumber(year, id) == Some(n);
    NextIndexUnused(orders, year);
    id
  }

  /** No stored id of the year carries the next number. */
  lemma NextIndexUnused(orders: seq<Order>, year: nat)
    ensures forall i :: 0 <= i < |orders| ==> YearNumber(year, orders[i].id) != Some(NextIndex(orders, year))
  {
    YearIndicesComplete(orders, year);
  }

  // ----------------------------------------------------------- operations

  /** What `addOrder` produces: the new order and the list it saves. */
  datatype Added = Added(order: Order, orders: seq<Order>)

  /** `addOrder`: a pending order with a fresh year-scoped id, prepended. */
  function AddOrder(slot: Slot, input: OrderInput, year: nat, now: int): (r: Added)
    ensures r.order.status == Pending
    ensures r.order.createdAt == now
    ensures r.order.customerId == input.customerId && r.order.customerName == input.customerName
    ensures r.order.source == input.source && r.order.items == input.items
    ensures r.order.totalAmount == input.totalAmount
    ensures InYear(year)(r.order)
    ensures r.order.id == NewOrderId(LoadOrders(slot), year)
    ensures |r.orders| == |LoadOrders(slot)| + 1
    ensures r.orders[0] == r.order && r.orders[1..] == LoadOrders(slot)
    ensures forall i :: 0 <= i < |LoadOrders(slot)| ==> LoadOrders(slot)[i].id != r.order.id
  {
    var orders := LoadOrders(slot);
    var order := Order(NewOrderId(orders, year), input.customerId, input.customerName,
                       input.source, Pending, input.items, input.totalAmount, now);
    Added(order, [order] + orders)
  }

  /** `updateOrderStatus`: only the status of orders with the given id
      changes; an unknown id leaves the list as it was. */
  function UpdateOrderStatus(slot: Slot, id: string, status: OrderStatus): (r: seq<Order>)
    ensures |r| == |LoadOrders(slot)|
    ensures forall i :: 0 <= i < |r| ==> r[i] == LoadOrders(slot)[i].(status := r[i].status)
    ensures forall i :: 0 <= i < |r| ==>
      r[i].status == if LoadOrders(slot)[i].id == id then status else LoadOrders(slot)[i].status
    ensures (forall i :: 0 <= i < |LoadOrders(slot)| ==> LoadOrders(slot)[i].id != id) ==> r == LoadOrders(slot)
  {
    var orders := LoadOrders(slot);
    seq(|orders|, i requires 0 <= i < |orders| =>
      if orders[i].id == id then orders[i].(status := status) else orders[i])
  }

  /** The status filter of the order views: everything, or one status. */
  datatype StatusFilter = AllStatuses | OnlyStatus(status: OrderStatus)

  function WithStatus(status: OrderStatus): Order -> bool
  {
    (o: Order) => o.status == status
  }

  /** `filterOrdersByStatus`. */
  function FilterOrdersByStatus(orders: seq<Order>, filter: StatusFilter): (r: seq<Order>)
    ensures filter.AllStatuses? ==> r == orders
    ensures filter.OnlyStatus? ==>
      && (forall i :: 0 <= i < |r| ==> r[i].status == filter.status && r[i] in orders)
      && (forall i :: 0 <= i < |orders| && orders[i].status == filter.status ==> orders[i] in r)
      && |r| == Count(orders, WithStatus(filter.status))
  {
    match filter
    case AllStatuses => orders
    case OnlyStatus(s) =>
      FilterMembers(orders, WithStatus(s));
      Filter(orders, WithStatus(s))
  }

  function ForCustomer(customerId: string): Order -> bool
  {
    (o: Order) => o.customerId == customerId
  }

  /** `getOrdersByCustomer`: the stored orders of one customer, each as
      often as it is stored, in stored order (see `CustomerOrdersKeepOrder`). */
  function GetOrdersByCustomer(slot: Slot, customerId: string): (r: seq<Order>)
    ensures forall i :: 0 <= i < |r| ==> r[i].customerId == customerId && r[i] in LoadOrders(slot)
    ensures forall i :: 0 <= i < |LoadOrders(slot)| && LoadOrders(slot)[i].customerId == customerId ==>
      LoadOrders(slot)[i] in r
    ensures |r| == Count(LoadOrders(slot), ForCustomer(customerId))
  {
    FilterMembers(LoadOrders(slot), ForCustomer(customerId));
    Filter(LoadOrders(slot), ForCustomer(customerId))
  }

  /** The customer view keeps the stored order: the view of two lists
      stored one after the other is the view of the first followed by
      that of the second. */
  lemma CustomerOrdersKeepOrder(a: seq<Order>, b: seq<Order>, customerId: string)
    ensures GetOrdersByCustomer(SaveOrders(a + b), customerId)
         == GetOrdersByCustomer(SaveOrders(a), customerId) + GetOrdersByCustomer(SaveOrders(b), customerId)
  {
    FilterAppend(a, b, ForCustomer(customerId));
  }

  /** A single stored order shows up in its customer's view and in no
      other customer's. */
  lemma CustomerOrdersOfOne(o: Order, customerId: string)
    ensures GetOrdersByCustomer(SaveOrders([o]), customerId) == if o.customerId == customerId then [o] else []
  {
    FilterCons(o, [], ForCustomer(customerId));
    assert [o] + [] == [o];
  }

  // -------------------------------------------------------------- summary

  datatype Summary = Summary(
    totalOrders: nat,
    totalPending: nat,
    totalProcessing: nat,
    totalDelivered: nat,
    totalCancelled: nat,
    totalRevenue: int)

  function Amount(o: Order): int
  {
    o.totalAmount
  }

  predicate NotCancelled(o: Order)
  {
    o.status != Cancelled
  }

  /** Revenue counts every order that is not cancelled. */
  function Revenue(orders: seq<Order>): int
  {
    Sum(Filter(orders, NotCancelled), Amount)
  }

  /** `getOrdersSummary` over the stored orders. */
  function GetOrdersSummary(slot: Slot): (r: Summary)
    ensures r.totalOrders == |LoadOrders(slot)|
    ensures r.totalPending + r.totalProcessing + r.totalDelivered + r.totalCancelled == r.totalOrders
    ensures r.totalPending == Count(LoadOrders(slot), WithStatus(Pending))
    ensures r.totalProcessing == Count(LoadOrders(slot), WithStatus(Processing))
    ensures r.totalDelivered == Count(LoadOrders(slot), WithStatus(Delivered))
    ensures r.totalCancelled == Count(LoadOrders(slot), WithStatus(Cancelled))
    ensures r.totalRevenue == Sum(LoadOrders(slot), Amount) - Sum(Filter(LoadOrders(slot), WithStatus(Cancelled)), Amount)
  {
    var orders := LoadOrders(slot);
    StatusesPartition(orders);
    SumSplit(orders, NotCancelled, WithStatus(Cancelled), Amount);
    Summary(
      |orders|,
      Count(orders, WithStatus(Pending)),
      Count(orders, WithStatus(Processing)),
      Count(orders, WithStatus(Delivered)),
      Count(orders, WithStatus(Cancelled)),
      Revenue(orders))
  }

  /** Every order has exactly one of the four statuses. */
  lemma {:induction false} StatusesPartition(orders: seq<Order>)
    ensures Count(orders, WithStatus(Pending)) + Count(orders, WithStatus(Processing))
          + Count(orders, WithStatus(Delivered)) + Count(orders, WithStatus(Cancelled)) == |orders|
  {
    if |orders| > 0 {
      StatusesPartition(orders[1..]);
    }
  }

  // ---------------------------------------------------------------- lemmas

  /** Orders of other years, and ids whose number does not parse, play no
      part in the numbering: numbering the year's orders alone gives the
      same next number. */
  lemma {:induction false} OtherYearsIgnored(orders: seq<Order>, year: nat)
    ensures YearIndices(Filter(orders, InYear(year)), year) == YearIndices(orders, year)
    ensures NextIndex(Filter(orders, InYear(year)), year) == NextIndex(orders, year)
  {
    if |orders| > 0 {
      var o, rest := orders[0], orders[1..];
      OtherYearsIgnored(rest, year);
      var f := Filter(rest, InYear(year));
      if InYear(year)(o) {
        assert Filter(orders, InYear(year)) == [o] + f;
        assert ([o] + f)[0] == o && ([o] + f)[1..] == f;
      } else {
        assert Filter(orders, InYear(year)) == f;
        assert YearNumber(year, o.id) == None;
      }
    }
  }

  lemma {:induction false} NoIndicesWithoutPrefix(orders: seq<Order>, year: nat)
    requires forall i :: 0 <= i < |orders| ==> !InYear(year)(orders[i])
    ensures YearIndices(orders, year) == []
  {
    if |orders| > 0 {
      NoIndicesWithoutPrefix(orders[1..], year);
    }
  }

  /** When every stored order belongs to an earlier year, the first order
      of the new year is numbered 001. */
  lemma NewYearRestarts(orders: seq<Order>, previous: nat, year: nat)
    requires previous != year
    requires forall i :: 0 <= i < |orders| ==> StartsWith(orders[i].id, OrderCode.Prefix(previous))
    ensures NewOrderId(orders, year) == OrderCode.Prefix(year) + "001"
  {
    forall i | 0 <= i < |orders|
      ensures !InYear(year)(orders[i])
    {
      OrderCode.PrefixExclusive(previous, year, orders[i].id);
    }
    NoIndicesWithoutPrefix(orders, year);
    assert NatToString(1) == "1";
  }

  /** Adding an order moves the year's next number on by exactly one, so
      numbers within a year increase with every order. */
  lemma AddOrderAdvances(slot: Slot, input: OrderInput, year: nat, now: int)
    ensures NextIndex(AddOrder(slot, input, year, now).orders, year) == NextIndex(LoadOrders(slot), year) + 1
  {
    var before := LoadOrders(slot);
    var r := AddOrder(slot, input, year, now);
    var n := NextIndex(before, year);
    assert r.orders == [r.order] + before;
    assert YearNumber(year, r.order.id) == Some(n);
    YearIndicesCons(r.order, before, year);
    NextNumberAfterTop(n, YearIndices(before, year));
  }

  lemma NextNumberAfterTop(n: int, indices: seq<int>)
    requires n >= 0 && forall k :: k in indices ==> 0 <= k < n
    ensures NextNumber([n] + indices) == n + 1
  {
    var s := [n] + indices;
    assert forall k :: k in s ==> k <= n;
    assert MaxOf(s) == n;
  }

  /** Adding keeps ids unique. */
  lemma AddOrderKeepsIdsUnique(slot: Slot, input: OrderInput, year: nat, now: int)
    requires UniqueIds(LoadOrders(slot))
    ensures UniqueIds(AddOrder(slot, input, year, now).orders)
  {
    var before := LoadOrders(slot);
    var r := AddOrder(slot, input, year, now);
    var after := r.orders;
    assert after[0] == r.order && after[1..] == before;
    forall i, j | 0 <= i < j < |after|
      ensures after[i].id != after[j].id
    {
      assert after[j] == before[j - 1];
      if i == 0 {
        assert before[j - 1].id != r.order.id;
      } else {
        assert after[i] == before[i - 1];
      }
    }
  }

  /** A status update keeps every id in place, hence keeps ids unique. */
  lemma UpdateKeepsIdsUnique(slot: Slot, id: string, status: OrderStatus)
    requires UniqueIds(LoadOrders(slot))
    ensures UniqueIds(UpdateOrderStatus(slot, id, status))
  {
    var r := UpdateOrderStatus(slot, id, status);
    assert forall i :: 0 <= i < |r| ==> r[i].id == LoadOrders(slot)[i].id;
  }

  /** Two updates of the same id: the second one wins. */
  lemma UpdateLastWriteWins(slot: Slot, id: string, first: OrderStatus, second: OrderStatus)
    ensures UpdateOrderStatus(SaveOrders(UpdateOrderStatus(slot, id, first)), id, second)
         == UpdateOrderStatus(slot, id, second)
  {
    var once := UpdateOrderStatus(slot, id, first);
    var twice := UpdateOrderStatus(SaveOrders(once), id, second);
    var direct := UpdateOrderStatus(slot, id, second);
    assert |twice| == |direct|;
    forall i | 0 <= i < |twice|
      ensures twice[i] == direct[i]
    {
      assert once[i].id == LoadOrders(slot)[i].id;
    }
  }

  /** The status filter keeps the relative order of the orders it selects. */
  lemma FilterKeepsOrder(a: seq<Order>, b: seq<Order>, filter: StatusFilter)
    ensures FilterOrdersByStatus(a + b, filter) == FilterOrdersByStatus(a, filter) + FilterOrdersByStatus(b, filter)
  {
    if filter.OnlyStatus? {
      FilterAppend(a, b, WithStatus(filter.status));
    }
  }

  /** A single order is in the view of its own status and of no other. */
  lemma StatusFilterOfOne(o: Order, status: OrderStatus)
    ensures FilterOrdersByStatus([o], OnlyStatus(status)) == if o.status == status then [o] else []
  {
    FilterCons(o, [], WithStatus(status));
    assert [o] + [] == [o];
  }

  /** The four status views together show every order exactly once. */
  lemma StatusViewsCoverAll(orders: seq<Order>)
    ensures |FilterOrdersByStatus(orders, OnlyStatus(Pending))| + |FilterOrdersByStatus(orders, OnlyStatus(Processing))|
          + |FilterOrdersByStatus(orders, OnlyStatus(Delivered))| + |FilterOrdersByStatus(orders, OnlyStatus(Cancelled))|
         == |FilterOrdersByStatus(orders, AllStatuses)|
  {
    StatusesPartition(orders);
  }

  /** With `ORD-2025-001` and `ORD-2025-002` stored, the next 2025 order
      is `ORD-2025-003`. */
  lemma ThirdOrderOf2025(a: Order, b: Order)
    requires a.id == "ORD-2025-001" && b.id == "ORD-2025-002"
    ensures NewOrderId([a, b], 2025) == "ORD-2025-003"
  {
    FormatExamples();
    OrderCode.FormatRoundTrip(2025, 1);
    OrderCode.FormatRoundTrip(2025, 2);
    assert YearNumber(2025, a.id) == Some(1);
    assert YearNumber(2025, b.id) == Some(2);
    NextAfterTwo(a, b, 2025, 1, 2);
  }

  lemma NextAfterTwo(a: Order, b: Order, year: nat, m: int, n: int)
    requires YearNumber(year, a.id) == Some(m) && YearNumber(year, b.id) == Some(n) && m <= n
    ensures NextIndex([a, b], year) == n + 1
  {
    YearIndicesCons(b, [], year);
    YearIndicesCons(a, [b], year);
    assert [a, b] == [a] + [b];
    assert YearIndices([a, b], year) == [m, n];
    assert [m, n][1..] == [n];
    assert MaxOf([m, n]) == n;
  }

  lemma YearIndicesCons(o: Order, rest: seq<Order>, year: nat)
    ensures YearIndices([o] + rest, year)
         == (match YearNumber(year, o.id) case Some(n) => [n] case None => []) + YearIndices(rest, year)
  {
    assert ([o] + rest)[1..] == rest;
  }

  lemma FormatExamples()
    ensures OrderCode.Format(2025, 1) == "ORD-2025-001"
    ensures OrderCode.Format(2025, 2) == "ORD-2025-002"
    ensures OrderCode.Format(2025, 3) == "ORD-2025-003"
  {
    assert NatToString(2) == "2";
    assert NatToString(20) == NatToString(2) + "0";
    assert NatToString(202) == NatToString(20) + "2";
    assert NatToString(2025) == NatToString(202) + "5";
    assert OrderCode.Prefix(2025) == "ORD-2025-";
    PaddedDigit(1);
    PaddedDigit(2);
    PaddedDigit(3);
  }

  lemma PaddedDigit(d: nat)
    requires 0 < d < 10
    ensures PadStart(IntToString(d), 3, '0') == "00" + [DigitChar(d)]
  {
    assert IntToString(d) == [DigitChar(d)];
    assert Repeat('0', 2) == "00";
  }

  /** Amounts 100, 200 and 300 with statuses pending, delivered and
      cancelled give revenue 300: the cancelled order is left out. */
  lemma RevenueExcludesCancelled(a: Order, b: Order, c: Order)
    requires a.totalAmount == 100 && a.status == Pending
    requires b.totalAmount == 200 && b.status == Delivered
    requires c.totalAmount == 300 && c.status == Cancelled
    ensures GetOrdersSummary(Some([a, b, c])).totalRevenue == 300
  {
    assert [a, b, c][1..] == [b, c] && [b, c][1..] == [c] && [c][1..] == [];
    assert Filter([c], NotCancelled) == [];
    assert Filter([b, c], NotCancelled) == [b];
    assert Filter([a, b, c], NotCancelled) == [a, b];
    assert [a, b][1..] == [b] && [b][1..] == [];
    assert Sum([b], Amount) == 200;
  }
}
