/**
 * The order ledger on its JSON path (backend/helpers.php saveOrder(),
 * allOrders(), findOrderById(), lookupOrder()): the orders file is a list of
 * orders that new orders are appended to.
 */
module Ledger {
  import opened Wrappers
  import opened Text
  import opened Responses
  import opened Pricing

  /** A saved order; `id` is absent until saveOrder() assigns one. */
  datatype Order = Order(
    id: Option<int>,
    customerName: string,
    email: string,
    phone: string,
    currency: string,
    items: seq<LineItem>,
    subtotal: real,
    shipping: real,
    total: real)

  /** The id the listing sorts and searches by: `(int)($order['id'] ?? 0)`. */
  function OrderId(o: Order): int {
    o.id.GetOr(0)
  }

  // ---------------------------------------------------------------------------
  // saveOrder(), JSON branch
  // ---------------------------------------------------------------------------

  /** The order as saveOrder() stores it: numbered one past the orders already in the file. */
  function Numbering(orders: seq<Order>, order: Order): (saved: Order)
    ensures OrderId(saved) == |orders| + 1 && saved.id.Some?
    ensures saved.(id := order.id) == order
  {
    order.(id := Some(|orders| + 1))
  }

  /** The file's orders carry the ids 1, 2, 3, ... in file order. */
  predicate Numbered(orders: seq<Order>) {
    forall k :: 0 <= k < |orders| ==> orders[k].id == Some(k + 1)
  }

  /** Appending keeps the file numbered, so ids stay unique as long as only this path writes the file. */
  lemma AppendKeepsNumbered(orders: seq<Order>, order: Order)
    requires Numbered(orders)
    ensures Numbered(orders + [Numbering(orders, order)])
    ensures forall k :: 0 <= k < |orders| ==> OrderId(orders[k]) < OrderId(Numbering(orders, order))
  {
  }

  /** `count + 1` repeats an id as soon as the file holds a gap, such as [1, 3]. */
  lemma CountPlusOneCanRepeat(a: Order, b: Order, c: Order)
    requires a.id == Some(1) && b.id == Some(3)
    ensures OrderId(Numbering([a, b], c)) == OrderId(b)
  {
  }

  // ---------------------------------------------------------------------------
  // allOrders(), JSON branch
  // ---------------------------------------------------------------------------

  /** The email filter: strcasecmp($order['email'] ?? '', $email) === 0, keeping file order. */
  function FilterByEmail(orders: seq<Order>, email: string): (r: seq<Order>)
    ensures |r| <= |orders|
    ensures forall o :: o in r <==> o in orders && EqualsIgnoreCase(o.email, email)
    ensures forall o :: multiset(r)[o] == if EqualsIgnoreCase(o.email, email) then multiset(orders)[o] else 0
  {
    if |orders| == 0 then []
    else
      var rest := FilterByEmail(orders[1..], email);
      assert orders == [orders[0]] + orders[1..];
      if EqualsIgnoreCase(orders[0].email, email) then [orders[0]] + rest else rest
  }

  predicate Descending(orders: seq<Order>) {
    forall i, j :: 0 <= i < j < |orders| ==> OrderId(orders[i]) >= OrderId(orders[j])
  }

  /** Inserts an order before the first one with a smaller or equal id. */
  function InsertDesc(o: Order, sorted: seq<Order>): (r: seq<Order>)
    requires Descending(sorted)
    ensures Descending(r)
    ensures multiset(r) == multiset(sorted) + multiset{o}
    decreases |sorted|, 0
  {
    if |sorted| == 0 || OrderId(o) >= OrderId(sorted[0]) then [o] + sorted
    else
      var rest := InsertDesc(o, sorted[1..]);
      InsertBelow(o, sorted[1..], OrderId(sorted[0]));
      assert sorted == [sorted[0]] + sorted[1..];
      [sorted[0]] + rest
  }

  /** Inserting keeps every id at or below a bound that the order and the list respect. */
  lemma {:induction false} InsertBelow(o: Order, sorted: seq<Order>, bound: int)
    requires Descending(sorted)
    requires OrderId(o) <= bound && forall k :: 0 <= k < |sorted| ==> OrderId(sorted[k]) <= bound
    ensures forall k :: 0 <= k < |InsertDesc(o, sorted)| ==> OrderId(InsertDesc(o, sorted)[k]) <= bound
    decreases |sorted|, 1
  {
    if |sorted| > 0 && OrderId(o) < OrderId(sorted[0]) {
      InsertBelow(o, sorted[1..], bound);
    }
  }

  /** usort by `$b['id'] <=> $a['id']`: newest first. */
  function SortByIdDesc(orders: seq<Order>): (r: seq<Order>)
    ensures Descending(r)
    ensures multiset(r) == multiset(orders)
  {
    if |orders| == 0 then []
    else
      assert orders == [orders[0]] + orders[1..];
      InsertDesc(orders[0], SortByIdDesc(orders[1..]))
  }

  /**
   * allOrders($email): with a non-empty email, the orders whose email matches
   * it case-insensitively; otherwise every order. Newest first.
   */
  function AllOrders(orders: seq<Order>, email: Option<string>): (r: seq<Order>)
    ensures Descending(r)
    ensures forall o :: o in r <==> o in orders && (email.None? || email.value == "" || EqualsIgnoreCase(o.email, email.value))
    ensures email.None? || email.value == "" ==> multiset(r) == multiset(orders)
    ensures email.Some? && email.value != "" ==> multiset(r) == multiset(FilterByEmail(orders, email.value))
  {
    var kept := if email.Some? && email.value != "" then FilterByEmail(orders, email.value) else orders;
    var r := SortByIdDesc(kept);
    assert forall o :: o in r <==> o in kept by {
      forall o ensures o in r <==> o in kept {
        assert o in r <==> o in multiset(r);
        assert o in kept <==> o in multiset(kept);
      }
    }
    r
  }

  function Reverse(orders: seq<Order>): (r: seq<Order>)
    ensures |r| == |orders| && forall k :: 0 <= k < |orders| ==> r[k] == orders[|orders| - 1 - k]
  {
    if |orders| == 0 then [] else Reverse(orders[1..]) + [orders[0]]
  }

  /** An order whose id is below every id in a sorted list goes to its end. */
  lemma {:induction false} InsertSmallest(o: Order, sorted: seq<Order>)
    requires Descending(sorted)
    requires forall k :: 0 <= k < |sorted| ==> OrderId(sorted[k]) > OrderId(o)
    ensures InsertDesc(o, sorted) == sorted + [o]
  {
    if |sorted| > 0 {
      InsertSmallest(o, sorted[1..]);
      assert sorted == [sorted[0]] + sorted[1..];
    }
  }

  /** Orders numbered upwards from `start`. */
  predicate NumberedFrom(orders: seq<Order>, start: int) {
    forall k :: 0 <= k < |orders| ==> orders[k].id == Some(start + k)
  }

  lemma {:induction false} SortNumberedFrom(orders: seq<Order>, start: int)
    requires NumberedFrom(orders, start)
    ensures SortByIdDesc(orders) == Reverse(orders)
  {
    if |orders| > 0 {
      var tail := orders[1..];
      assert NumberedFrom(tail, start + 1);
      SortNumberedFrom(tail, start + 1);
      var rt := Reverse(tail);
      assert forall k :: 0 <= k < |rt| ==> OrderId(rt[k]) > OrderId(orders[0]);
      InsertSmallest(orders[0], rt);
    }
  }

  /** On a file only this path wrote, the unfiltered listing is the file reversed: the newest order first. */
  lemma ListingOfNumberedLedger(orders: seq<Order>)
    requires Numbered(orders)
    ensures AllOrders(orders, None) == Reverse(orders)
  {
    SortNumberedFrom(orders, 1);
  }

  // ---------------------------------------------------------------------------
  // findOrderById() / lookupOrder()
  // ---------------------------------------------------------------------------

  /** The first order with id `id` in a list, if any. */
  function FirstWithId(orders: seq<Order>, id: int): (r: Option<Order>)
    ensures r.Some? ==> r.value in orders && OrderId(r.value) == id
    ensures r.None? <==> forall k :: 0 <= k < |orders| ==> OrderId(orders[k]) != id
  {
    if |orders| == 0 then None
    else if OrderId(orders[0]) == id then Some(orders[0])
    else
      var r := FirstWithId(orders[1..], id);
      assert forall k :: 0 < k < |orders| ==> orders[k] == orders[1..][k - 1];
      r
  }

  /** findOrderById($id): searched in the newest-first listing of every order. */
  function FindOrderById(orders: seq<Order>, id: int): (r: Option<Order>)
    ensures r.Some? ==> r.value in orders && OrderId(r.value) == id
    ensures r.None? <==> forall k :: 0 <= k < |orders| ==> OrderId(orders[k]) != id
  {
    var listed := AllOrders(orders, None);
    var r := FirstWithId(listed, id);
    assert r.Some? ==> r.value in orders by {
      if r.Some? {
        assert r.value in multiset(listed);
      }
    }
    assert (exists k :: 0 <= k < |orders| && OrderId(orders[k]) == id) ==> r.Some? by {
      if exists k :: 0 <= k < |orders| && OrderId(orders[k]) == id {
        var k :| 0 <= k < |orders| && OrderId(orders[k]) == id;
        assert orders[k] in multiset(listed);
      }
    }
    r
  }

  /** lookupOrder($id): not found for a non-positive id or an id no order carries. */
  function LookupOrder(orders: seq<Order>, id: int): (r: Result<Order>)
    ensures r.Ok? ==> id > 0 && r.value in orders && OrderId(r.value) == id
    ensures r.Err? ==> r.failure == OrderNotFound
    ensures r.Err? <==> id <= 0 || forall k :: 0 <= k < |orders| ==> OrderId(orders[k]) != id
  {
    if id <= 0 then Err(OrderNotFound)
    else
      match FindOrderById(orders, id)
      case None => Err(OrderNotFound)
      case Some(o) => Ok(o)
  }

  /** An order saved without an id is listed under id 0, but lookupOrder(0) still reports it missing. */
  lemma UnnumberedOrderNotLookedUp(o: Order)
    requires o.id.None?
    ensures FindOrderById([o], 0) == Some(o)
    ensures LookupOrder([o], 0) == Err(OrderNotFound)
  {
    assert AllOrders([o], None) == [o] by {
      assert [o][1..] == [];
    }
  }

  /** In a file only this path wrote, order k is found by id k. */
  lemma LookupNumbered(orders: seq<Order>, k: int)
    requires Numbered(orders) && 1 <= k <= |orders|
    ensures LookupOrder(orders, k) == Ok(orders[k - 1])
  {
    assert OrderId(orders[k - 1]) == k;
    var r := LookupOrder(orders, k);
    assert r.Ok?;
    NumberedIdsUnique(orders, r.value, k);
  }

  /** In a numbered file, the only order with id k is the k-th. */
  lemma NumberedIdsUnique(orders: seq<Order>, o: Order, k: int)
    requires Numbered(orders) && o in orders && OrderId(o) == k
    ensures 1 <= k <= |orders| && o == orders[k - 1]
  {
    var j :| 0 <= j < |orders| && orders[j] == o;
    assert OrderId(orders[j]) == j + 1;
  }
}
