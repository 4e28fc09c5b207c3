/** The shopping cart: an ordered list of lines keyed by product id, the two
    operations the page applies to it, and the badge count derived from it. */
module Cart {
  import opened Catalog

  /** A cart line: the product the line was created from and its quantity. */
  datatype CartItem = CartItem(product: Product, quantity: int)

  /** Some line carries the product id `id`. */
  predicate HasId(cart: seq<CartItem>, id: string)
  {
    exists i :: 0 <= i < |cart| && cart[i].product.id == id
  }

  /** No two lines carry the same product id. */
  predicate UniqueIds(cart: seq<CartItem>)
  {
    forall i, j :: 0 <= i < j < |cart| ==> cart[i].product.id != cart[j].product.id
  }

  /** Every line has a quantity of at least one. */
  predicate AllPositive(cart: seq<CartItem>)
  {
    forall i :: 0 <= i < |cart| ==> cart[i].quantity > 0
  }

  /** The invariant the page keeps on its cart. */
  predicate Valid(cart: seq<CartItem>)
  {
    UniqueIds(cart) && AllPositive(cart)
  }

  /** The cart count shown on the badge: the quantities folded from the left,
      starting at zero, as `reduce` does. With positive quantities it is at
      least the number of lines; with non-negative ones it is never negative. */
  function Count(cart: seq<CartItem>): (n: int)
    ensures AllPositive(cart) ==> n >= |cart|
    ensures (forall i :: 0 <= i < |cart| ==> cart[i].quantity >= 0) ==> n >= 0
  {
    if |cart| == 0 then 0 else Count(cart[..|cart| - 1]) + cart[|cart| - 1].quantity
  }

  /** How many lines carry the id `id`. */
  function Occurrences(cart: seq<CartItem>, id: string): nat
  {
    if |cart| == 0 then 0
    else Occurrences(cart[..|cart| - 1], id) + (if cart[|cart| - 1].product.id == id then 1 else 0)
  }

  /** The lines whose id is not `id`, in cart order. */
  function Without(cart: seq<CartItem>, id: string): seq<CartItem>
  {
    if |cart| == 0 then []
    else Without(cart[..|cart| - 1], id) + (if cart[|cart| - 1].product.id != id then [cart[|cart| - 1]] else [])
  }

  // ---------------------------------------------------------------- addToCart

  /** The `map` of the merge branch: every line with the id gains one unit.
      The lines that change are exactly the lines carrying the id. */
  function Increment(cart: seq<CartItem>, id: string): (r: seq<CartItem>)
    ensures |r| == |cart|
    ensures forall i :: 0 <= i < |cart| ==> r[i].product == cart[i].product
    ensures forall i :: 0 <= i < |cart| ==> (r[i] != cart[i] <==> cart[i].product.id == id)
    ensures forall i :: 0 <= i < |cart| && cart[i].product.id == id ==> r[i].quantity == cart[i].quantity + 1
  {
    seq(|cart|, i requires 0 <= i < |cart| =>
      if cart[i].product.id == id then cart[i].(quantity := cart[i].quantity + 1) else cart[i])
  }

  /** Adds one unit of `p`: merges into the line with the same id when there is
      one, and otherwise appends a new line of quantity one. */
  function AddToCart(cart: seq<CartItem>, p: Product): (r: seq<CartItem>)
    ensures HasId(cart, p.id) ==>
              |r| == |cart|
              && (forall i :: 0 <= i < |cart| ==> r[i].product == cart[i].product)
              && (forall i :: 0 <= i < |cart| && cart[i].product.id == p.id ==> r[i].quantity == cart[i].quantity + 1)
              && (forall i :: 0 <= i < |cart| && cart[i].product.id != p.id ==> r[i] == cart[i])
    ensures !HasId(cart, p.id) ==> |r| == |cart| + 1 && r[..|cart|] == cart && r[|cart|] == CartItem(p, 1)
    ensures HasId(r, p.id)
  {
    if HasId(cart, p.id) then Increment(cart, p.id) else cart + [CartItem(p, 1)]
  }

  /** When the product is already in a valid cart, exactly its line gains one
      unit and nothing else moves. */
  lemma AddToCartExisting(cart: seq<CartItem>, p: Product, i: int)
    requires UniqueIds(cart)
    requires 0 <= i < |cart| && cart[i].product.id == p.id
    ensures AddToCart(cart, p) == cart[i := cart[i].(quantity := cart[i].quantity + 1)]
  {
  }

  /** Adding a product twice to a cart without it yields one line of quantity two. */
  lemma AddTwice(cart: seq<CartItem>, p: Product)
    requires !HasId(cart, p.id)
    ensures AddToCart(AddToCart(cart, p), p) == cart + [CartItem(p, 2)]
  {
  }

  /** Adding keeps the cart valid. */
  lemma AddToCartValid(cart: seq<CartItem>, p: Product)
    requires Valid(cart)
    ensures Valid(AddToCart(cart, p))
  {
  }

  /** The count folds over concatenation. */
  lemma {:induction false} CountAppend(a: seq<CartItem>, b: seq<CartItem>)
    ensures Count(a + b) == Count(a) + Count(b)
    decreases |b|
  {
    if |b| == 0 {
      assert a + b == a;
    } else {
      var b' := b[..|b| - 1];
      assert (a + b)[..|a + b| - 1] == a + b';
      CountAppend(a, b');
    }
  }

  /** Merging adds one unit per line carrying the id. */
  lemma {:induction false} IncrementCount(cart: seq<CartItem>, id: string)
    ensures Count(Increment(cart, id)) == Count(cart) + Occurrences(cart, id)
    decreases |cart|
  {
    if |cart| > 0 {
      var n := |cart|;
      var inc := Increment(cart, id);
      assert inc[..n - 1] == Increment(cart[..n - 1], id);
      IncrementCount(cart[..n - 1], id);
    }
  }

  /** An id absent from the cart occurs nowhere in it. */
  lemma {:induction false} AbsentOccursNever(cart: seq<CartItem>, id: string)
    requires !HasId(cart, id)
    ensures Occurrences(cart, id) == 0
    decreases |cart|
  {
    if |cart| > 0 {
      var pre := cart[..|cart| - 1];
      assert forall k :: 0 <= k < |pre| ==> pre[k] == cart[k];
      AbsentOccursNever(pre, id);
    }
  }

  /** With unique ids, an id present in the cart occurs on exactly one line. */
  lemma {:induction false} UniqueOccursOnce(cart: seq<CartItem>, id: string)
    requires UniqueIds(cart) && HasId(cart, id)
    ensures Occurrences(cart, id) == 1
    decreases |cart|
  {
    var n := |cart|;
    var pre := cart[..n - 1];
    if cart[n - 1].product.id == id {
      assert forall k :: 0 <= k < |pre| ==> pre[k] == cart[k];
      AbsentOccursNever(pre, id);
    } else {
      var i :| 0 <= i < n && cart[i].product.id == id;
      assert pre[i] == cart[i];
      UniqueOccursOnce(pre, id);
    }
  }

  /** Adding a product raises the cart count by exactly one. */
  lemma AddToCartCount(cart: seq<CartItem>, p: Product)
    requires UniqueIds(cart)
    ensures Count(AddToCart(cart, p)) == Count(cart) + 1
  {
    if HasId(cart, p.id) {
      IncrementCount(cart, p.id);
      UniqueOccursOnce(cart, p.id);
    } else {
      CountAppend(cart, [CartItem(p, 1)]);
      assert Count([CartItem(p, 1)]) == Count([]) + 1;
    }
  }

  // ----------------------------------------------------------- updateQuantity

  /** `Math.max(0, q + delta)`. */
  function Clamp(q: int, delta: int): (r: int)
    ensures r >= 0 && r >= q + delta
    ensures r == 0 || r == q + delta
  {
    if q + delta > 0 then q + delta else 0
  }

  /** The `map` step: the line(s) with the id get the clamped new quantity.
      Positions and products are kept, lines with other ids are untouched, and
      no adjusted quantity is negative or below `quantity + delta`. */
  function Adjust(cart: seq<CartItem>, id: string, delta: int): (r: seq<CartItem>)
    ensures |r| == |cart|
    ensures forall i :: 0 <= i < |cart| ==> r[i].product == cart[i].product
    ensures forall i :: 0 <= i < |cart| && cart[i].product.id != id ==> r[i] == cart[i]
    ensures forall i :: 0 <= i < |cart| && cart[i].product.id == id ==>
              r[i].quantity >= 0 && r[i].quantity >= cart[i].quantity + delta
              && (r[i].quantity == 0 || r[i].quantity == cart[i].quantity + delta)
  {
    seq(|cart|, i requires 0 <= i < |cart| =>
      if cart[i].product.id == id then cart[i].(quantity := Clamp(cart[i].quantity, delta)) else cart[i])
  }

  /** The `filter` step: drops every line whose quantity is not positive. */
  function Prune(cart: seq<CartItem>): (r: seq<CartItem>)
    ensures AllPositive(r)
    ensures AllPositive(cart) ==> r == cart
  {
    if |cart| == 0 then []
    else
      var pre := cart[..|cart| - 1];
      assert cart == pre + [cart[|cart| - 1]];
      Prune(pre) + (if cart[|cart| - 1].quantity > 0 then [cart[|cart| - 1]] else [])
  }

  /** Applies a signed change to the quantity of the line with the id, clamps
      it at zero and then removes the lines left at zero. */
  function UpdateQuantity(cart: seq<CartItem>, id: string, delta: int): (r: seq<CartItem>)
    ensures AllPositive(r)
  {
    Prune(Adjust(cart, id, delta))
  }

  /** The filter keeps exactly the positive lines. */
  lemma {:induction false} PruneMembership(cart: seq<CartItem>, x: CartItem)
    ensures x in Prune(cart) <==> x in cart && x.quantity > 0
    decreases |cart|
  {
    if |cart| > 0 {
      var pre := cart[..|cart| - 1];
      assert cart == pre + [cart[|cart| - 1]];
      PruneMembership(pre, x);
    }
  }

  /** The filter distributes over concatenation. */
  lemma {:induction false} PruneAppend(a: seq<CartItem>, b: seq<CartItem>)
    ensures Prune(a + b) == Prune(a) + Prune(b)
    decreases |b|
  {
    if |b| == 0 {
      assert a + b == a;
    } else {
      var b' := b[..|b| - 1];
      assert (a + b)[..|a + b| - 1] == a + b';
      PruneAppend(a, b');
    }
  }

  /** The filter keeps ids unique. */
  lemma {:induction false} PruneUnique(cart: seq<CartItem>)
    requires UniqueIds(cart)
    ensures UniqueIds(Prune(cart))
    decreases |cart|
  {
    if |cart| > 0 {
      var n := |cart|;
      var pre := cart[..n - 1];
      var last := cart[n - 1];
      PruneUnique(pre);
      var r := Prune(cart);
      var rp := Prune(pre);
      if last.quantity > 0 {
        forall i | 0 <= i < |rp|
          ensures rp[i].product.id != last.product.id
        {
          PruneMembership(pre, rp[i]);
          var k :| 0 <= k < |pre| && pre[k] == rp[i];
          assert cart[k] == pre[k];
        }
        forall i, j | 0 <= i < j < |r|
          ensures r[i].product.id != r[j].product.id
        {
          if j < |rp| {
            assert r[i] == rp[i] && r[j] == rp[j];
          } else {
            assert r[i] == rp[i];
          }
        }
      }
    }
  }

  /** The map step keeps every id, position by position. */
  lemma AdjustKeepsIds(cart: seq<CartItem>, id: string, delta: int)
    ensures |Adjust(cart, id, delta)| == |cart|
    ensures forall i :: 0 <= i < |cart| ==> Adjust(cart, id, delta)[i].product == cart[i].product
    ensures UniqueIds(cart) ==> UniqueIds(Adjust(cart, id, delta))
  {
  }

  /** Updating keeps the cart valid. */
  lemma UpdateQuantityValid(cart: seq<CartItem>, id: string, delta: int)
    requires Valid(cart)
    ensures Valid(UpdateQuantity(cart, id, delta))
  {
    AdjustKeepsIds(cart, id, delta);
    PruneUnique(Adjust(cart, id, delta));
  }

  /** An unknown id, or a zero change, leaves a cart of positive lines as it is. */
  lemma UpdateQuantityNoop(cart: seq<CartItem>, id: string, delta: int)
    requires AllPositive(cart)
    requires !HasId(cart, id) || delta == 0
    ensures UpdateQuantity(cart, id, delta) == cart
  {
  }

  /** The filter on a single line keeps it exactly when it is positive. */
  lemma PruneSingle(x: CartItem)
    ensures Prune([x]) == if x.quantity > 0 then [x] else []
  {
  }

  /** The map step distributes over concatenation. */
  lemma AdjustAppend(a: seq<CartItem>, b: seq<CartItem>, id: string, delta: int)
    ensures Adjust(a + b, id, delta) == Adjust(a, id, delta) + Adjust(b, id, delta)
  {
  }

  /** The map step on a single line. */
  lemma AdjustSingle(x: CartItem, id: string, delta: int)
    ensures Adjust([x], id, delta) == [if x.product.id == id then x.(quantity := Clamp(x.quantity, delta)) else x]
  {
  }

  /** The map step leaves a part of the cart without the id untouched. */
  lemma AdjustAbsent(a: seq<CartItem>, id: string, delta: int)
    requires !HasId(a, id)
    ensures Adjust(a, id, delta) == a
  {
  }

  /** A cart cut around line `i`; the pieces keep positivity, and with unique
      ids neither piece carries the id of line `i`. */
  lemma SplitAround(cart: seq<CartItem>, i: int)
    requires 0 <= i < |cart|
    ensures cart == cart[..i] + [cart[i]] + cart[i + 1..]
    ensures AllPositive(cart) ==> AllPositive(cart[..i]) && AllPositive(cart[i + 1..])
    ensures UniqueIds(cart) ==> !HasId(cart[..i], cart[i].product.id) && !HasId(cart[i + 1..], cart[i].product.id)
  {
  }

  /** An id occurs in a concatenation exactly when it occurs in a part. */
  lemma HasIdAppend(a: seq<CartItem>, b: seq<CartItem>, id: string)
    ensures HasId(a + b, id) <==> HasId(a, id) || HasId(b, id)
  {
    if HasId(a, id) {
      var k :| 0 <= k < |a| && a[k].product.id == id;
      assert (a + b)[k] == a[k];
    }
    if HasId(b, id) {
      var k :| 0 <= k < |b| && b[k].product.id == id;
      assert (a + b)[|a| + k] == b[k];
    }
  }

  /** Filtering a cart whose only questionable line is the middle one. */
  lemma PruneSplice(a: seq<CartItem>, x: CartItem, b: seq<CartItem>)
    requires AllPositive(a) && AllPositive(b)
    ensures Prune(a + [x] + b) == a + Prune([x]) + b
  {
    PruneAppend(a + [x], b);
    PruneAppend(a, [x]);
  }

  /** With unique ids, the update touches the one line that carries the id and
      leaves the lines before and after it as they are. */
  lemma UpdateQuantityAt(cart: seq<CartItem>, id: string, delta: int, i: int)
    requires Valid(cart)
    requires 0 <= i < |cart| && cart[i].product.id == id
    ensures UpdateQuantity(cart, id, delta)
            == cart[..i] + Prune([cart[i].(quantity := Clamp(cart[i].quantity, delta))]) + cart[i + 1..]
  {
    var a, x, b := cart[..i], cart[i], cart[i + 1..];
    SplitAround(cart, i);
    AdjustAppend(a + [x], b, id, delta);
    AdjustAppend(a, [x], id, delta);
    AdjustSingle(x, id, delta);
    AdjustAbsent(a, id, delta);
    AdjustAbsent(b, id, delta);
    PruneSplice(a, x.(quantity := Clamp(x.quantity, delta)), b);
  }

  /** In a valid cart, the target line takes the new quantity when that stays
      positive; otherwise it disappears and no line with the id is left. */
  lemma UpdateQuantityTarget(cart: seq<CartItem>, id: string, delta: int, i: int)
    requires Valid(cart)
    requires 0 <= i < |cart| && cart[i].product.id == id
    ensures cart[i].quantity + delta > 0 ==>
              UpdateQuantity(cart, id, delta) == cart[i := cart[i].(quantity := cart[i].quantity + delta)]
    ensures cart[i].quantity + delta <= 0 ==>
              UpdateQuantity(cart, id, delta) == cart[..i] + cart[i + 1..]
              && !HasId(UpdateQuantity(cart, id, delta), id)
  {
    var x' := cart[i].(quantity := Clamp(cart[i].quantity, delta));
    UpdateQuantityAt(cart, id, delta, i);
    PruneSingle(x');
    if cart[i].quantity + delta > 0 {
      ReplaceAt(cart, i, x');
    } else {
      assert cart[..i] + [] + cart[i + 1..] == cart[..i] + cart[i + 1..];
      CutOutAbsent(cart, i);
    }
  }

  /** Replacing one line is splicing the new line between its neighbours. */
  lemma ReplaceAt(cart: seq<CartItem>, i: int, x: CartItem)
    requires 0 <= i < |cart|
    ensures cart[i := x] == cart[..i] + [x] + cart[i + 1..]
  {
  }

  /** With unique ids, cutting a line out leaves no line with its id. */
  lemma CutOutAbsent(cart: seq<CartItem>, i: int)
    requires UniqueIds(cart) && 0 <= i < |cart|
    ensures !HasId(cart[..i] + cart[i + 1..], cart[i].product.id)
  {
    SplitAround(cart, i);
    HasIdAppend(cart[..i], cart[i + 1..], cart[i].product.id);
  }

  /** Dropping a line of a given id commutes with the update: every other line
      keeps its quantity and its relative order. */
  lemma {:induction false} UpdateQuantityOthers(cart: seq<CartItem>, id: string, delta: int)
    requires AllPositive(cart)
    ensures Without(UpdateQuantity(cart, id, delta), id) == Without(cart, id)
    decreases |cart|
  {
    if |cart| > 0 {
      var n := |cart|;
      var pre, last := cart[..n - 1], cart[n - 1];
      var x := if last.product.id == id then last.(quantity := Clamp(last.quantity, delta)) else last;
      assert cart == pre + [last];
      UpdateQuantitySnoc(pre, last, id, delta);
      WithoutAppend(UpdateQuantity(pre, id, delta), Prune([x]), id);
      UpdateQuantityOthers(pre, id, delta);
      LastLineUnchanged(last, x, id);
      WithoutAppend(pre, [last], id);
    }
  }

  /** The update of a cart with one more line at the end. */
  lemma UpdateQuantitySnoc(pre: seq<CartItem>, last: CartItem, id: string, delta: int)
    ensures UpdateQuantity(pre + [last], id, delta)
            == UpdateQuantity(pre, id, delta)
               + Prune([if last.product.id == id then last.(quantity := Clamp(last.quantity, delta)) else last])
  {
    AdjustAppend(pre, [last], id, delta);
    AdjustSingle(last, id, delta);
    PruneAppend(Adjust(pre, id, delta), Adjust([last], id, delta));
  }

  /** One step of the proof above: the adjusted last line contributes to the
      lines of other ids what the original last line did. */
  lemma LastLineUnchanged(last: CartItem, x: CartItem, id: string)
    requires last.quantity > 0 && x.product == last.product
    requires x.product.id != id ==> x == last
    ensures Without(Prune([x]), id) == Without([last], id)
  {
  }

  /** Dropping an id distributes over concatenation. */
  lemma {:induction false} WithoutAppend(a: seq<CartItem>, b: seq<CartItem>, id: string)
    ensures Without(a + b, id) == Without(a, id) + Without(b, id)
    decreases |b|
  {
    if |b| == 0 {
      assert a + b == a;
    } else {
      var b' := b[..|b| - 1];
      assert (a + b)[..|a + b| - 1] == a + b';
      WithoutAppend(a, b', id);
    }
  }

  /** The badge count moves by exactly the clamped change of the target line. */
  lemma UpdateQuantityCount(cart: seq<CartItem>, id: string, delta: int, i: int)
    requires Valid(cart)
    requires 0 <= i < |cart| && cart[i].product.id == id
    ensures Count(UpdateQuantity(cart, id, delta)) == Count(cart) - cart[i].quantity + Clamp(cart[i].quantity, delta)
  {
    var a, x, b := cart[..i], cart[i], cart[i + 1..];
    var x' := x.(quantity := Clamp(x.quantity, delta));
    UpdateQuantityAt(cart, id, delta, i);
    SplitAround(cart, i);
    CountReplaceMiddle(a, x, x', b);
  }

  /** Replacing the middle line of a cart by a filtered line of non-negative
      quantity moves the count by the difference of the quantities. */
  lemma CountReplaceMiddle(a: seq<CartItem>, x: CartItem, x': CartItem, b: seq<CartItem>)
    requires x'.quantity >= 0
    ensures Count(a + Prune([x']) + b) == Count(a + [x] + b) - x.quantity + x'.quantity
  {
    CountAround(a, [x], b);
    CountAround(a, Prune([x']), b);
    CountOfLine(x);
    CountOfLine(x');
  }

  /** The count of a cart cut into three pieces. */
  lemma CountAround(a: seq<CartItem>, m: seq<CartItem>, b: seq<CartItem>)
    ensures Count(a + m + b) == Count(a) + Count(m) + Count(b)
  {
    CountAppend(a + m, b);
    CountAppend(a, m);
  }

  /** A single line counts its quantity, and after the filter it counts its
      quantity if that is not negative. */
  lemma CountOfLine(x: CartItem)
    ensures Count([x]) == x.quantity
    ensures x.quantity >= 0 ==> Count(Prune([x])) == x.quantity
  {
  }

  /** In a valid cart the count is at least the number of lines, so it is
      positive exactly when the cart is not empty. */
  lemma {:induction false} CountBounds(cart: seq<CartItem>)
    requires AllPositive(cart)
    ensures Count(cart) >= |cart|
    ensures Count(cart) > 0 <==> |cart| > 0
    decreases |cart|
  {
    if |cart| > 0 {
      CountBounds(cart[..|cart| - 1]);
    }
  }
}
