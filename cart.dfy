/**
 * The session cart and the session id lists (backend/helpers.php cart(),
 * saveCart(), saveWishlist(), saveCompare(), cartItemCount(); backend/api.php
 * addToCart(), removeFromCart()).
 *
 * The cart is a PHP array keyed by product id whose values are
 * `['product_id' => id, 'quantity' => n]`. It is modelled as the sequence of
 * its values in the array's order: assigning to an existing key keeps the
 * line where it is, a new key goes at the end, and unset() removes the line.
 */
module Cart {
  import opened Wrappers
  import opened Money

  datatype CartLine = CartLine(productId: int, quantity: int)

  /** The array's keys are distinct: at most one line per product. */
  predicate Keyed(cart: seq<CartLine>) {
    forall i, j :: 0 <= i < j < |cart| ==> cart[i].productId != cart[j].productId
  }

  predicate InCart(cart: seq<CartLine>, id: int) {
    exists k :: 0 <= k < |cart| && cart[k].productId == id
  }

  /** Where the line for `id` sits. */
  function Position(cart: seq<CartLine>, id: int): (k: nat)
    requires InCart(cart, id)
    ensures k < |cart| && cart[k].productId == id
    ensures forall j :: 0 <= j < k ==> cart[j].productId != id
  {
    if cart[0].productId == id then 0
    else
      assert InCart(cart[1..], id) by {
        var k :| 0 <= k < |cart| && cart[k].productId == id;
        assert cart[1..][k - 1].productId == id;
      }
      1 + Position(cart[1..], id)
  }

  /** `$cart[$id]['quantity'] ?? 0`. */
  function QuantityOf(cart: seq<CartLine>, id: int): (q: int)
    ensures !InCart(cart, id) ==> q == 0
    ensures InCart(cart, id) ==> q == cart[Position(cart, id)].quantity
  {
    if |cart| == 0 then 0
    else if cart[0].productId == id then cart[0].quantity
    else
      assert InCart(cart, id) ==> InCart(cart[1..], id) by {
        if InCart(cart, id) {
          var k :| 0 <= k < |cart| && cart[k].productId == id;
          assert cart[1..][k - 1].productId == id;
        }
      }
      assert InCart(cart[1..], id) ==> InCart(cart, id) by {
        if InCart(cart[1..], id) {
          var k :| 0 <= k < |cart[1..]| && cart[1..][k].productId == id;
          assert cart[k + 1].productId == id;
        }
      }
      QuantityOf(cart[1..], id)
  }

  /** In a keyed cart, the line at any index is the one found for its id. */
  lemma PositionOfKeyed(cart: seq<CartLine>, k: int)
    requires Keyed(cart) && 0 <= k < |cart|
    ensures InCart(cart, cart[k].productId) && Position(cart, cart[k].productId) == k
  {
  }

  /** `$cart[$line['product_id']] = $line`: overwrite in place, or append. */
  function Put(cart: seq<CartLine>, line: CartLine): (r: seq<CartLine>)
    ensures InCart(cart, line.productId) ==> r == cart[Position(cart, line.productId) := line]
    ensures !InCart(cart, line.productId) ==> r == cart + [line]
  {
    if InCart(cart, line.productId) then cart[Position(cart, line.productId) := line] else cart + [line]
  }

  /** Assignment to a key keeps the array keyed, adds that key and no other, and leaves every other line alone. */
  lemma PutFacts(cart: seq<CartLine>, line: CartLine)
    requires Keyed(cart)
    ensures Keyed(Put(cart, line))
    ensures forall id :: InCart(Put(cart, line), id) <==> InCart(cart, id) || id == line.productId
    ensures QuantityOf(Put(cart, line), line.productId) == line.quantity
    ensures forall id :: id != line.productId ==> QuantityOf(Put(cart, line), id) == QuantityOf(cart, id)
  {
    var r := Put(cart, line);
    forall id ensures InCart(r, id) <==> InCart(cart, id) || id == line.productId {
      if InCart(cart, id) && id != line.productId {
        var k :| 0 <= k < |cart| && cart[k].productId == id;
        assert r[k].productId == id;
      }
      if id == line.productId {
        if InCart(cart, id) {
          assert r[Position(cart, id)].productId == id;
        } else {
          assert r[|cart|].productId == id;
        }
      }
    }
    forall id | id != line.productId && InCart(r, id)
      ensures QuantityOf(r, id) == QuantityOf(cart, id)
    {
      PositionOfKeyed(r, Position(r, id));
      var k := Position(r, id);
      assert r[k] == cart[k];
      PositionOfKeyed(cart, k);
    }
    PositionOfKeyed(r, Position(r, line.productId));
  }

  /**
   * addToCart's update once the product is known: the quantity becomes the
   * old quantity (or 0) plus max(1, quantity).
   */
  function AddLine(cart: seq<CartLine>, id: int, quantity: int): (r: seq<CartLine>)
    ensures InCart(cart, id) ==>
      && |r| == |cart|
      && r[Position(cart, id)] == CartLine(id, cart[Position(cart, id)].quantity + Max(1, quantity))
      && forall k :: 0 <= k < |r| && k != Position(cart, id) ==> r[k] == cart[k]
    ensures !InCart(cart, id) ==> r == cart + [CartLine(id, Max(1, quantity))]
  {
    Put(cart, CartLine(id, QuantityOf(cart, id) + Max(1, quantity)))
  }

  /** Adding raises the product's quantity by max(1, quantity) and changes no other line. */
  lemma AddLineQuantities(cart: seq<CartLine>, id: int, quantity: int)
    requires Keyed(cart)
    ensures Keyed(AddLine(cart, id, quantity))
    ensures QuantityOf(AddLine(cart, id, quantity), id) == QuantityOf(cart, id) + Max(1, quantity)
    ensures forall other :: other != id ==> QuantityOf(AddLine(cart, id, quantity), other) == QuantityOf(cart, other)
    ensures forall other :: InCart(AddLine(cart, id, quantity), other) <==> InCart(cart, other) || other == id
  {
    PutFacts(cart, CartLine(id, QuantityOf(cart, id) + Max(1, quantity)));
  }

  /** unset($cart[$id]): the line for `id` goes, the others stay in order. */
  function RemoveLine(cart: seq<CartLine>, id: int): (r: seq<CartLine>)
    ensures |r| <= |cart|
    ensures !InCart(r, id)
    ensures !InCart(cart, id) ==> r == cart
    ensures forall k :: 0 <= k < |r| ==> r[k] in cart
  {
    if |cart| == 0 then []
    else
      var rest := RemoveLine(cart[1..], id);
      if cart[0].productId == id then rest
      else
        assert !InCart(cart, id) ==> !InCart(cart[1..], id) by {
          if InCart(cart[1..], id) {
            var k :| 0 <= k < |cart[1..]| && cart[1..][k].productId == id;
            assert cart[k + 1].productId == id;
          }
        }
        assert cart == [cart[0]] + cart[1..];
        [cart[0]] + rest
  }

  /** Removing keeps the cart keyed and leaves every other product's quantity as it was. */
  lemma {:induction false} RemoveLineFacts(cart: seq<CartLine>, id: int)
    requires Keyed(cart)
    ensures Keyed(RemoveLine(cart, id))
    ensures forall other :: other != id ==> QuantityOf(RemoveLine(cart, id), other) == QuantityOf(cart, other)
    ensures forall other :: other != id ==> (InCart(RemoveLine(cart, id), other) <==> InCart(cart, other))
  {
    if |cart| > 0 {
      var rest := RemoveLine(cart[1..], id);
      RemoveLineFacts(cart[1..], id);
      var r := RemoveLine(cart, id);
      if cart[0].productId == id {
        forall other | other != id
          ensures InCart(r, other) <==> InCart(cart, other)
          ensures QuantityOf(r, other) == QuantityOf(cart, other)
        {
          InCartTail(cart, other);
        }
      } else {
        assert r[1..] == rest;
        forall other | other != id
          ensures InCart(r, other) <==> InCart(cart, other)
          ensures QuantityOf(r, other) == QuantityOf(cart, other)
        {
          InCartTail(cart, other);
          InCartTail(r, other);
        }
        forall k | 0 < k < |r| ensures r[k].productId != cart[0].productId {
          var m :| 0 <= m < |cart| && cart[m] == r[k];
          assert m != 0;
        }
      }
    }
  }

  /** In a keyed cart, removal cuts out exactly the product's line; the lines before and after keep their order. */
  lemma {:induction false} RemoveLineKeepsOrder(cart: seq<CartLine>, id: int)
    ensures Keyed(cart) && InCart(cart, id) ==>
      RemoveLine(cart, id) == cart[..Position(cart, id)] + cart[Position(cart, id) + 1..]
  {
    if Keyed(cart) && InCart(cart, id) {
      var rest := RemoveLine(cart[1..], id);
      if cart[0].productId == id {
        forall k | 0 <= k < |cart[1..]| ensures cart[1..][k].productId != id {
          assert cart[1..][k] == cart[k + 1];
        }
        assert rest == cart[1..];
      } else {
        InCartTail(cart, id);
        var p := Position(cart[1..], id);
        assert Position(cart, id) == p + 1;
        RemoveLineKeepsOrder(cart[1..], id);
        assert rest == cart[1..][..p] + cart[1..][p + 1..];
        assert cart[..p + 1] == [cart[0]] + cart[1..][..p];
        assert cart[p + 2..] == cart[1..][p + 1..];
      }
    }
  }

  /** Looking past the first line. */
  lemma InCartTail(cart: seq<CartLine>, id: int)
    requires |cart| > 0
    ensures InCart(cart, id) <==> cart[0].productId == id || InCart(cart[1..], id)
    ensures cart[0].productId != id ==> QuantityOf(cart, id) == QuantityOf(cart[1..], id)
  {
    if InCart(cart[1..], id) {
      var k :| 0 <= k < |cart[1..]| && cart[1..][k].productId == id;
      assert cart[k + 1].productId == id;
    }
    if InCart(cart, id) && cart[0].productId != id {
      var k :| 0 <= k < |cart| && cart[k].productId == id;
      assert cart[1..][k - 1].productId == id;
    }
  }

  /** Removing a product undoes adding it to a cart that did not hold it. */
  lemma RemoveUndoesAdd(cart: seq<CartLine>, id: int, quantity: int)
    requires !InCart(cart, id)
    ensures RemoveLine(AddLine(cart, id, quantity), id) == cart
  {
    RemoveAppended(cart, CartLine(id, Max(1, quantity)));
  }

  lemma {:induction false} RemoveAppended(cart: seq<CartLine>, line: CartLine)
    requires !InCart(cart, line.productId)
    ensures RemoveLine(cart + [line], line.productId) == cart
  {
    if |cart| == 0 {
      assert RemoveLine([line], line.productId) == RemoveLine([], line.productId);
    } else {
      InCartTail(cart, line.productId);
      assert (cart + [line])[1..] == cart[1..] + [line];
      RemoveAppended(cart[1..], line);
      assert cart == [cart[0]] + cart[1..];
    }
  }

  /**
   * cartItemCount(): array_sum(array_column($cart, 'quantity')), over every
   * line. It counts items, not lines: with every quantity at least 1 it is at
   * least the number of lines.
   */
  function ItemCount(cart: seq<CartLine>): (n: int)
    ensures (forall k :: 0 <= k < |cart| ==> cart[k].quantity >= 1) ==> n >= |cart|
  {
    if |cart| == 0 then 0 else cart[0].quantity + ItemCount(cart[1..])
  }

  lemma {:induction false} ItemCountAppend(a: seq<CartLine>, b: seq<CartLine>)
    ensures ItemCount(a + b) == ItemCount(a) + ItemCount(b)
  {
    if |a| > 0 {
      assert (a + b)[1..] == a[1..] + b;
      ItemCountAppend(a[1..], b);
    } else {
      assert a + b == b;
    }
  }

  lemma {:induction false} ItemCountUpdate(cart: seq<CartLine>, k: int, line: CartLine)
    requires 0 <= k < |cart|
    ensures ItemCount(cart[k := line]) == ItemCount(cart) - cart[k].quantity + line.quantity
  {
    if k > 0 {
      assert cart[k := line][1..] == cart[1..][k - 1 := line];
      ItemCountUpdate(cart[1..], k - 1, line);
    }
  }

  /** Every add raises the item count by exactly max(1, quantity). */
  lemma AddLineItemCount(cart: seq<CartLine>, id: int, quantity: int)
    ensures ItemCount(AddLine(cart, id, quantity)) == ItemCount(cart) + Max(1, quantity)
  {
    if InCart(cart, id) {
      ItemCountUpdate(cart, Position(cart, id), CartLine(id, QuantityOf(cart, id) + Max(1, quantity)));
    } else {
      ItemCountAppend(cart, [CartLine(id, Max(1, quantity))]);
      assert ItemCount([CartLine(id, Max(1, quantity))]) == Max(1, quantity) + ItemCount([]);
    }
  }

  /** Removing a product lowers the item count by its quantity. */
  lemma {:induction false} RemoveLineItemCount(cart: seq<CartLine>, id: int)
    requires Keyed(cart)
    ensures ItemCount(RemoveLine(cart, id)) == ItemCount(cart) - QuantityOf(cart, id)
  {
    if |cart| > 0 {
      InCartTail(cart, id);
      RemoveLineItemCount(cart[1..], id);
      if cart[0].productId == id {
        forall k | 0 <= k < |cart[1..]| ensures cart[1..][k].productId != id {
          assert cart[1..][k] == cart[k + 1];
        }
      }
    }
  }

  /** Adding the same product twice leaves one line carrying the sum of both quantities. */
  lemma AddTwice(cart: seq<CartLine>, id: int, q1: int, q2: int)
    requires Keyed(cart)
    ensures |AddLine(AddLine(cart, id, q1), id, q2)| == |AddLine(cart, id, q1)|
    ensures QuantityOf(AddLine(AddLine(cart, id, q1), id, q2), id) == QuantityOf(cart, id) + Max(1, q1) + Max(1, q2)
  {
    AddLineQuantities(cart, id, q1);
    AddLineQuantities(AddLine(cart, id, q1), id, q2);
  }

  /** Adding product 7 twice, with quantities 2 and 3, to an empty cart gives one line of 5. */
  lemma AddSevenTwice()
    ensures AddLine(AddLine([], 7, 2), 7, 3) == [CartLine(7, 5)]
  {
    var once := AddLine([], 7, 2);
    assert once == [CartLine(7, 2)];
    assert InCart(once, 7) by { assert once[0].productId == 7; }
    assert Position(once, 7) == 0;
  }

  // ---------------------------------------------------------------------------
  // saveWishlist()/saveCompare(): array_values(array_unique($ids))
  // ---------------------------------------------------------------------------

  /** Where `x` first occurs in `s`. */
  function FirstIndex(s: seq<int>, x: int): (k: nat)
    requires x in s
    ensures k < |s| && s[k] == x && x !in s[..k]
  {
    if s[0] == x then 0
    else
      var k := 1 + FirstIndex(s[1..], x);
      assert s[..k] == [s[0]] + s[1..][..k - 1];
      k
  }

  /** array_unique keeps the first occurrence of each value; array_values renumbers from 0. */
  function Unique(ids: seq<int>): (r: seq<int>)
    ensures Distinct(r)
    ensures forall x :: x in r <==> x in ids
    ensures forall i, j :: 0 <= i < j < |r| ==> FirstIndex(ids, r[i]) < FirstIndex(ids, r[j])
  {
    if |ids| == 0 then []
    else
      var init := ids[..|ids| - 1];
      var x := ids[|ids| - 1];
      var u := Unique(init);
      FirstIndexPrefix(ids);
      if x in u then u
      else
        assert FirstIndex(ids, x) == |ids| - 1;
        u + [x]
  }

  /** An index holding `x` with no `x` before it is the first index. */
  lemma {:induction false} FirstIndexAt(s: seq<int>, x: int, k: int)
    requires 0 <= k < |s| && s[k] == x && x !in s[..k]
    ensures FirstIndex(s, x) == k
  {
    if k > 0 {
      assert s[0] in s[..k];
      assert s[1..][k - 1] == x;
      assert s[1..][..k - 1] == s[..k][1..];
      FirstIndexAt(s[1..], x, k - 1);
    }
  }

  /** First occurrences in a prefix are first occurrences in the whole. */
  lemma FirstIndexPrefix(ids: seq<int>)
    requires |ids| > 0
    ensures forall y :: y in ids[..|ids| - 1] ==> FirstIndex(ids, y) == FirstIndex(ids[..|ids| - 1], y)
    ensures ids[|ids| - 1] !in ids[..|ids| - 1] ==> FirstIndex(ids, ids[|ids| - 1]) == |ids| - 1
  {
    var init := ids[..|ids| - 1];
    forall y | y in init ensures FirstIndex(ids, y) == FirstIndex(init, y) {
      var k := FirstIndex(init, y);
      assert init[..k] == ids[..k];
      FirstIndexAt(ids, y, k);
    }
    if ids[|ids| - 1] !in init {
      FirstIndexAt(ids, ids[|ids| - 1], |ids| - 1);
    }
  }

  /** Saving an already duplicate-free list stores it unchanged. */
  lemma {:induction false} UniqueOfDistinct(ids: seq<int>)
    requires Distinct(ids)
    ensures Unique(ids) == ids
  {
    if |ids| > 0 {
      var init := ids[..|ids| - 1];
      UniqueOfDistinct(init);
      assert ids[|ids| - 1] !in init;
      assert init + [ids[|ids| - 1]] == ids;
    }
  }

  /** Saving the saved list again changes nothing. */
  lemma UniqueIdempotent(ids: seq<int>)
    ensures Unique(Unique(ids)) == Unique(ids)
  {
    UniqueOfDistinct(Unique(ids));
  }
}
