/** The cart as the Store persists it: an ordered list of line items, and the
    pure rules that each Store operation applies to that list. The Store
    class (module Storage) reads the list, applies one of these rules and
    writes the list back. */
module Cart {
  import opened Seqs
  import opened Catalog

  /** One line of the cart. `stock` is the product's stock when the line was
      created; later additions do not refresh it. */
  datatype Item = Item(
    id: int,
    name: string,
    price: real,
    image: string,
    quantity: int,
    stock: int)

  /** `Math.min` on integers. */
  function Min(a: int, b: int): (r: int)
    ensures r <= a && r <= b && (r == a || r == b)
  {
    if a <= b then a else b
  }

  /** `Math.max` on integers. */
  function Max(a: int, b: int): (r: int)
    ensures r >= a && r >= b && (r == a || r == b)
  {
    if a >= b then a else b
  }

  /** `cart.find(item => item.id === id)`, as the index of the first match. */
  function Find(c: seq<Item>, id: int): (r: Option<nat>)
    ensures r.Some? ==> r.value < |c| && c[r.value].id == id
    ensures r.Some? ==> forall j :: 0 <= j < r.value ==> c[j].id != id
    ensures r.None? ==> forall j :: 0 <= j < |c| ==> c[j].id != id
  {
    if c == [] then None
    else if c[0].id == id then Some(0)
    else match Find(c[1..], id)
      case None => None
      case Some(k) => Some(k + 1)
  }

  /** No two lines share a product id. */
  predicate UniqueIds(c: seq<Item>) {
    forall i, j :: 0 <= i < j < |c| ==> c[i].id != c[j].id
  }

  /** The set of product ids in the cart. */
  function Ids(c: seq<Item>): set<int> {
    set i | 0 <= i < |c| :: c[i].id
  }

  /** The cart the user interface aims for: unique ids and every quantity
      between 1 and the line's stock. */
  predicate WellFormed(c: seq<Item>) {
    && UniqueIds(c)
    && forall i :: 0 <= i < |c| ==> 1 <= c[i].quantity <= c[i].stock
  }

  /** The line `addToCart` creates for a product it does not find. */
  function NewItem(p: Product, quantity: int): Item {
    Item(p.id, p.name, p.price, p.image, quantity, p.stock)
  }

  // ---------------------------------------------------------------------
  // addToCart

  /** `addToCart(product, quantity)`: raise the existing line, clamped to the
      product's current stock, or append a new line clamped the same way. */
  function AddedToCart(c: seq<Item>, p: Product, q: int): (r: seq<Item>)
    ensures |r| == if p.id in Ids(c) then |c| else |c| + 1
    ensures forall i :: 0 <= i < |c| ==> r[i].id == c[i].id
  {
    match Find(c, p.id)
    case Some(i) => c[i := c[i].(quantity := Min(c[i].quantity + q, p.stock))]
    case None => c + [NewItem(p, Min(q, p.stock))]
  }

  /** With unique ids, the line found for an id is the one holding it. */
  lemma FindUnique(c: seq<Item>, i: nat)
    requires UniqueIds(c) && i < |c|
    ensures Find(c, c[i].id) == Some(i)
  {
  }

  /** Replacing a line by one with the same id does not move `find`. */
  lemma FindAfterUpdate(c: seq<Item>, i: nat, it: Item, id: int)
    requires i < |c| && it.id == c[i].id
    ensures Find(c[i := it], id) == Find(c, id)
  {
    var d := c[i := it];
    assert forall j :: 0 <= j < |c| ==> d[j].id == c[j].id;
    match Find(c, id) {
      case None =>
      case Some(k) =>
        assert d[k].id == id;
    }
  }

  /** Adding a product that is already in the cart changes only that line's
      quantity, to the old quantity plus the request, capped at the stock. */
  lemma AddToCartExisting(c: seq<Item>, p: Product, q: int, i: nat)
    requires UniqueIds(c) && i < |c| && c[i].id == p.id
    ensures |AddedToCart(c, p, q)| == |c|
    ensures AddedToCart(c, p, q)[i] == c[i].(quantity := Min(c[i].quantity + q, p.stock))
    ensures forall j :: 0 <= j < |c| && j != i ==> AddedToCart(c, p, q)[j] == c[j]
  {
    FindUnique(c, i);
  }

  /** Adding a product that is not in the cart appends one line at the end,
      with the request capped at the stock. */
  lemma AddToCartNew(c: seq<Item>, p: Product, q: int)
    requires p.id !in Ids(c)
    ensures AddedToCart(c, p, q) == c + [NewItem(p, Min(q, p.stock))]
  {
  }

  /** Adding keeps ids unique and the id set grows by exactly the product's id. */
  lemma AddToCartIds(c: seq<Item>, p: Product, q: int)
    requires UniqueIds(c)
    ensures UniqueIds(AddedToCart(c, p, q))
    ensures Ids(AddedToCart(c, p, q)) == Ids(c) + {p.id}
  {
    var r := AddedToCart(c, p, q);
    match Find(c, p.id) {
      case Some(i) =>
        assert forall j :: 0 <= j < |c| ==> r[j].id == c[j].id;
        assert Ids(r) == Ids(c);
        assert p.id in Ids(c);
      case None =>
        assert r == c + [NewItem(p, Min(q, p.stock))];
        forall x | x in Ids(c) + {p.id}
          ensures x in Ids(r)
        {
          if x == p.id {
            assert r[|c|].id == x;
          } else {
            var j :| 0 <= j < |c| && c[j].id == x;
            assert r[j].id == x;
          }
        }
    }
  }

  /** Adding at least one unit of a product with stock keeps the cart well
      formed, provided the stock snapshot of an existing line is not below the
      product's current stock. */
  lemma AddToCartWellFormed(c: seq<Item>, p: Product, q: int)
    requires WellFormed(c) && q >= 1 && p.stock >= 1
    requires forall j :: 0 <= j < |c| && c[j].id == p.id ==> p.stock <= c[j].stock
    ensures WellFormed(AddedToCart(c, p, q))
  {
    AddToCartIds(c, p, q);
  }

  /** A new line has a positive quantity exactly when both the request and the
      stock are positive; a product with stock 0 is added with quantity 0. */
  lemma AddToCartNewQuantity(c: seq<Item>, p: Product, q: int)
    requires p.id !in Ids(c)
    ensures AddedToCart(c, p, q)[|c|].quantity >= 1 <==> q >= 1 && p.stock >= 1
    ensures p.stock == 0 && q >= 0 ==> AddedToCart(c, p, q) == c + [NewItem(p, 0)]
    ensures q < 0 && p.stock >= 0 ==> AddedToCart(c, p, q)[|c|].quantity == q
  {
    AddToCartNew(c, p, q);
  }

  /** The stock snapshot of a line is not refreshed: after the product's stock
      grows, adding more pushes the quantity above the line's own stock. */
  lemma AddToCartStaleStock()
    ensures var c := [Item(1, "Laptop", 1299.99, "a.png", 3, 3)];
            var p := Product(1, "Laptop", "", "Laptops", 1299.99, "a.png", 10);
            WellFormed(c) && AddedToCart(c, p, 5) == [Item(1, "Laptop", 1299.99, "a.png", 8, 3)]
            && !WellFormed(AddedToCart(c, p, 5))
  {
    var c := [Item(1, "Laptop", 1299.99, "a.png", 3, 3)];
    var p := Product(1, "Laptop", "", "Laptops", 1299.99, "a.png", 10);
    assert Find(c, 1) == Some(0);
    assert AddedToCart(c, p, 5) == [Item(1, "Laptop", 1299.99, "a.png", 8, 3)];
    assert AddedToCart(c, p, 5)[0].quantity > AddedToCart(c, p, 5)[0].stock;
  }

  /** Adding the same product once per request. */
  function AddAll(c: seq<Item>, p: Product, qs: seq<int>): seq<Item>
    decreases |qs|
  {
    if qs == [] then c else AddAll(AddedToCart(c, p, qs[0]), p, qs[1..])
  }

  function Sum(qs: seq<int>): int {
    if qs == [] then 0 else qs[0] + Sum(qs[1..])
  }

  lemma {:induction false} AddAllExisting(c: seq<Item>, p: Product, qs: seq<int>, i: nat, a: int)
    requires i < |c| && Find(c, p.id) == Some(i) && c[i].quantity == Min(a, p.stock)
    requires forall j :: 0 <= j < |qs| ==> qs[j] >= 0
    ensures |AddAll(c, p, qs)| == |c|
    ensures AddAll(c, p, qs) == c[i := c[i].(quantity := Min(a + Sum(qs), p.stock))]
    decreases |qs|
  {
    if qs == [] {
      assert c[i := c[i].(quantity := Min(a, p.stock))] == c;
    } else {
      var d := AddedToCart(c, p, qs[0]);
      var it := c[i].(quantity := Min(a + qs[0], p.stock));
      assert d == c[i := it];
      FindAfterUpdate(c, i, it, p.id);
      AddAllExisting(d, p, qs[1..], i, a + qs[0]);
      assert d[i := d[i].(quantity := Min(a + qs[0] + Sum(qs[1..]), p.stock))]
          == c[i := c[i].(quantity := Min(a + Sum(qs), p.stock))];
    }
  }

  /** The first of several adds of a product not in the cart appends its line. */
  lemma AddAllFirst(c: seq<Item>, p: Product, qs: seq<int>)
    requires p.id !in Ids(c) && |qs| >= 1
    ensures AddAll(c, p, qs) == AddAll(c + [NewItem(p, Min(qs[0], p.stock))], p, qs[1..])
  {
    AddToCartNew(c, p, qs[0]);
  }

  /** Replacing the last line of `c + [it]` gives `c + [it']`. */
  lemma UpdateLast(c: seq<Item>, it: Item, it': Item)
    ensures (c + [it])[|c| := it'] == c + [it']
  {
  }

  /** Adding a product that is not yet in the cart several times leaves one
      line whose quantity is the total requested capped at the stock, as long
      as no request after the first is negative. */
  lemma AddAllFresh(c: seq<Item>, p: Product, qs: seq<int>)
    requires p.id !in Ids(c) && |qs| >= 1
    requires forall j :: 1 <= j < |qs| ==> qs[j] >= 0
    ensures AddAll(c, p, qs) == c + [NewItem(p, Min(Sum(qs), p.stock))]
  {
    var it := NewItem(p, Min(qs[0], p.stock));
    var rest := qs[1..];
    AddAllFirst(c, p, qs);
    FindLast(c, it);
    forall j | 0 <= j < |rest|
      ensures rest[j] >= 0
    {
      assert rest[j] == qs[j + 1];
    }
    AddAllExisting(c + [it], p, rest, |c|, qs[0]);
    UpdateLast(c, it, it.(quantity := Min(qs[0] + Sum(rest), p.stock)));
  }

  /** A later negative request is not absorbed by an earlier cap: requesting
      5 then -1 of a product with stock 3 leaves 2, not min(5 - 1, 3) = 3. */
  lemma AddAllNegativeRequest()
    ensures var p := Product(7, "Mouse", "", "Accessories", 19.99, "m.png", 3);
            AddAll([], p, [5, -1]) == [NewItem(p, 2)] && Min(Sum([5, -1]), p.stock) == 3
  {
    var p := Product(7, "Mouse", "", "Accessories", 19.99, "m.png", 3);
    assert AddedToCart([], p, 5) == [NewItem(p, 3)];
    assert Find([NewItem(p, 3)], 7) == Some(0);
    assert AddedToCart([NewItem(p, 3)], p, -1) == [NewItem(p, 2)];
    assert [5, -1][1..] == [-1];
    assert [-1][1..] == [];
  }

  // ---------------------------------------------------------------------
  // removeFromCart

  function OtherId(id: int): Item -> bool {
    (it: Item) => it.id != id
  }

  /** `removeFromCart(id)`: `cart.filter(item => item.id !== id)`. */
  function Removed(c: seq<Item>, id: int): (r: seq<Item>)
    ensures |r| <= |c|
    ensures forall i :: 0 <= i < |r| ==> r[i].id != id
  {
    Keep(c, OtherId(id))
  }

  /** Removal keeps every other line, in order, and drops every line with the id. */
  lemma RemovedSound(c: seq<Item>, id: int)
    ensures IsSubsequence(Removed(c, id), c)
    ensures id !in Ids(Removed(c, id))
    ensures forall i :: 0 <= i < |c| && c[i].id != id ==> c[i] in Removed(c, id)
  {
    KeepIsSubsequence(c, OtherId(id));
    KeepMembers(c, OtherId(id));
  }

  /** With unique ids, removing a present id cuts out exactly its line. */
  lemma RemovedExact(c: seq<Item>, i: nat)
    requires UniqueIds(c) && i < |c|
    ensures Removed(c, c[i].id) == c[..i] + c[i + 1..]
  {
    var keep := OtherId(c[i].id);
    var pre, post := c[..i], c[i + 1..];
    forall k | 0 <= k < |pre|
      ensures keep(pre[k])
    {
      assert pre[k] == c[k];
    }
    forall k | 0 <= k < |post|
      ensures keep(post[k])
    {
      assert post[k] == c[i + 1 + k];
    }
    KeepCut(pre, c[i], post, keep);
    assert c == pre + [c[i]] + post;
  }

  /** Removing an id that is not in the cart leaves it unchanged. */
  lemma RemovedAbsent(c: seq<Item>, id: int)
    requires id !in Ids(c)
    ensures Removed(c, id) == c
  {
    forall j | 0 <= j < |c|
      ensures OtherId(id)(c[j])
    {
      assert c[j].id in Ids(c);
    }
    KeepAll(c, OtherId(id));
  }

  /** Removing twice is removing once. */
  lemma RemovedIdempotent(c: seq<Item>, id: int)
    ensures Removed(Removed(c, id), id) == Removed(c, id)
  {
    KeepIdempotent(c, OtherId(id));
  }

  /** Removal keeps a well-formed cart well formed. */
  lemma RemovedWellFormed(c: seq<Item>, id: int)
    requires WellFormed(c)
    ensures WellFormed(Removed(c, id))
  {
    match Find(c, id) {
      case None =>
        RemovedAbsent(c, id);
      case Some(i) =>
        RemovedExact(c, i);
        var r := c[..i] + c[i + 1..];
        assert forall k :: 0 <= k < |r| ==> r[k] == c[if k < i then k else k + 1];
    }
  }

  /** Keeping some lines of a cart with unique ids keeps the ids unique. */
  lemma {:induction false} KeepUnique(c: seq<Item>, keep: Item -> bool)
    requires UniqueIds(c)
    ensures UniqueIds(Keep(c, keep))
    decreases |c|
  {
    if c != [] {
      var tail := c[1..];
      forall i, j | 0 <= i < j < |tail|
        ensures tail[i].id != tail[j].id
      {
        assert tail[i] == c[i + 1] && tail[j] == c[j + 1];
      }
      KeepUnique(tail, keep);
      var rest := Keep(tail, keep);
      if keep(c[0]) {
        KeepMembers(tail, keep);
        forall k | 0 <= k < |rest|
          ensures rest[k].id != c[0].id
        {
          var m :| 0 <= m < |tail| && tail[m] == rest[k];
          assert c[m + 1] == rest[k];
        }
        var r := [c[0]] + rest;
        assert Keep(c, keep) == r;
        forall i, j | 0 <= i < j < |r|
          ensures r[i].id != r[j].id
        {
          assert r[j] == rest[j - 1];
          if i > 0 {
            assert r[i] == rest[i - 1];
          }
        }
      } else {
        assert Keep(c, keep) == rest;
      }
    }
  }

  /** Removal keeps the ids of a cart unique. */
  lemma RemovedUnique(c: seq<Item>, id: int)
    requires UniqueIds(c)
    ensures UniqueIds(Removed(c, id))
  {
    KeepUnique(c, OtherId(id));
  }

  // ---------------------------------------------------------------------
  // updateQuantity

  /** `Math.max(1, Math.min(q, stock))`. */
  function Clamp(q: int, stock: int): (r: int)
    ensures stock >= 1 ==> 1 <= r <= stock
    ensures 1 <= q <= stock ==> r == q
    ensures stock < 1 ==> r == 1
    ensures q < 1 ==> r == 1
  {
    Max(1, Min(q, stock))
  }

  /** `updateQuantity(id, q)`: clamp the found line's quantity into
      [1, its stock]; an absent id changes nothing. */
  function QuantitySet(c: seq<Item>, id: int, q: int): (r: seq<Item>)
    ensures |r| == |c|
    ensures forall i :: 0 <= i < |c| ==> r[i] == c[i].(quantity := r[i].quantity)
  {
    match Find(c, id)
    case None => c
    case Some(i) => c[i := c[i].(quantity := Clamp(q, c[i].stock))]
  }

  /** On a present line, only that line's quantity changes, it lands in
      [1, stock] when the stock is positive, and a request already in range
      is taken as is. */
  lemma QuantitySetPresent(c: seq<Item>, i: nat, q: int)
    requires UniqueIds(c) && i < |c|
    ensures |QuantitySet(c, c[i].id, q)| == |c|
    ensures QuantitySet(c, c[i].id, q)[i] == c[i].(quantity := Clamp(q, c[i].stock))
    ensures forall j :: 0 <= j < |c| && j != i ==> QuantitySet(c, c[i].id, q)[j] == c[j]
    ensures c[i].stock >= 1 ==> 1 <= QuantitySet(c, c[i].id, q)[i].quantity <= c[i].stock
    ensures 1 <= q <= c[i].stock ==> QuantitySet(c, c[i].id, q)[i].quantity == q
  {
    FindUnique(c, i);
  }

  /** On an absent id nothing changes. */
  lemma QuantitySetAbsent(c: seq<Item>, id: int, q: int)
    requires id !in Ids(c)
    ensures QuantitySet(c, id, q) == c
  {
  }

  /** Setting a quantity keeps a well-formed cart well formed. */
  lemma QuantitySetWellFormed(c: seq<Item>, id: int, q: int)
    requires WellFormed(c)
    ensures WellFormed(QuantitySet(c, id, q))
  {
    match Find(c, id) {
      case None =>
      case Some(i) =>
        var r := QuantitySet(c, id, q);
        assert forall j :: 0 <= j < |c| ==> r[j].id == c[j].id && r[j].stock == c[j].stock;
    }
  }

  /** Setting a quantity keeps the ids of a cart unique. */
  lemma QuantitySetUnique(c: seq<Item>, id: int, q: int)
    requires UniqueIds(c)
    ensures UniqueIds(QuantitySet(c, id, q))
  {
    match Find(c, id) {
      case None =>
      case Some(i) =>
        var r := QuantitySet(c, id, q);
        assert forall j :: 0 <= j < |c| ==> r[j].id == c[j].id;
    }
  }

  /** The lower clamp wins over the stock: a line with stock 0 gets quantity 1. */
  lemma QuantitySetZeroStock()
    ensures var c := [Item(3, "Tablet", 499.0, "t.png", 0, 0)];
            QuantitySet(c, 3, 5) == [Item(3, "Tablet", 499.0, "t.png", 1, 0)]
            && !WellFormed(QuantitySet(c, 3, 5))
  {
    var c := [Item(3, "Tablet", 499.0, "t.png", 0, 0)];
    assert Find(c, 3) == Some(0);
    assert QuantitySet(c, 3, 5)[0].quantity > QuantitySet(c, 3, 5)[0].stock;
  }

  // ---------------------------------------------------------------------
  // getCartCount and getCartTotal

  /** What one line contributes to the total. */
  function LineAmount(it: Item): real {
    it.price * (it.quantity as real)
  }

  /** `cart.reduce((sum, item) => sum + item.quantity, 0)`. */
  function CartCount(c: seq<Item>): (n: int)
    ensures c == [] ==> n == 0
  {
    if c == [] then 0 else CartCount(c[..|c| - 1]) + c[|c| - 1].quantity
  }

  /** `cart.reduce((sum, item) => sum + item.price * item.quantity, 0)`. */
  function CartTotal(c: seq<Item>): (t: real)
    ensures c == [] ==> t == 0.0
  {
    if c == [] then 0.0 else CartTotal(c[..|c| - 1]) + LineAmount(c[|c| - 1])
  }

  /** Both folds split over concatenation. */
  lemma {:induction false} FoldsAppend(a: seq<Item>, b: seq<Item>)
    ensures CartCount(a + b) == CartCount(a) + CartCount(b)
    ensures CartTotal(a + b) == CartTotal(a) + CartTotal(b)
    decreases |b|
  {
    if b == [] {
      assert a + b == a;
    } else {
      var b' := b[..|b| - 1];
      assert (a + b)[..|a + b| - 1] == a + b';
      FoldsAppend(a, b');
    }
  }

  /** Both folds around one line: what lies before it, the line, what lies after. */
  lemma FoldsSplit(c: seq<Item>, i: nat)
    requires i < |c|
    ensures CartCount(c) == CartCount(c[..i]) + c[i].quantity + CartCount(c[i + 1..])
    ensures CartTotal(c) == CartTotal(c[..i]) + LineAmount(c[i]) + CartTotal(c[i + 1..])
  {
    var pre, post := c[..i], c[i + 1..];
    var mid := pre + [c[i]];
    assert c == mid + post;
    FoldsAppend(mid, post);
    FoldsAppend(pre, [c[i]]);
    FoldsSingle(c[i]);
  }

  lemma FoldsSingle(it: Item)
    ensures CartCount([it]) == it.quantity
    ensures CartTotal([it]) == LineAmount(it)
  {
    assert [it][..0] == [];
  }

  /** Replacing one line changes each fold by that line's difference. */
  lemma FoldsUpdate(c: seq<Item>, i: nat, it: Item)
    requires i < |c|
    ensures CartCount(c[i := it]) == CartCount(c) - c[i].quantity + it.quantity
    ensures CartTotal(c[i := it]) == CartTotal(c) - LineAmount(c[i]) + LineAmount(it)
  {
    var d := c[i := it];
    assert d[..i] == c[..i] && d[i + 1..] == c[i + 1..];
    FoldsSplit(c, i);
    FoldsSplit(d, i);
  }

  /** The quantity of the line holding `id`, or 0 when there is none. */
  function QuantityOf(c: seq<Item>, id: int): int {
    match Find(c, id)
    case None => 0
    case Some(i) => c[i].quantity
  }

  /** The amount of the line holding `id`, or 0 when there is none. */
  function AmountOf(c: seq<Item>, id: int): real {
    match Find(c, id)
    case None => 0.0
    case Some(i) => LineAmount(c[i])
  }

  /** Adding a product changes the count and the total by exactly the change
      in that product's line. */
  lemma FoldsAfterAdd(c: seq<Item>, p: Product, q: int)
    ensures CartCount(AddedToCart(c, p, q)) - CartCount(c)
         == QuantityOf(AddedToCart(c, p, q), p.id) - QuantityOf(c, p.id)
    ensures CartTotal(AddedToCart(c, p, q)) - CartTotal(c)
         == AmountOf(AddedToCart(c, p, q), p.id) - AmountOf(c, p.id)
  {
    var r := AddedToCart(c, p, q);
    match Find(c, p.id) {
      case None =>
        var it := NewItem(p, Min(q, p.stock));
        FoldsAppend(c, [it]);
        assert [it][..0] == [];
        FindLast(c, it);
      case Some(i) =>
        var it := c[i].(quantity := Min(c[i].quantity + q, p.stock));
        FoldsUpdate(c, i, it);
        FindAfterUpdate(c, i, it, p.id);
    }
  }

  /** `find` on a cart extended by a line whose id it did not hold finds the new line. */
  lemma FindLast(c: seq<Item>, it: Item)
    requires Find(c, it.id).None?
    ensures Find(c + [it], it.id) == Some(|c|)
  {
    var d := c + [it];
    assert d[|c|].id == it.id;
  }

  /** Removing a line takes its quantity off the count and its amount off the
      total. */
  lemma FoldsAfterRemove(c: seq<Item>, id: int)
    requires UniqueIds(c)
    ensures CartCount(Removed(c, id)) == CartCount(c) - QuantityOf(c, id)
    ensures CartTotal(Removed(c, id)) == CartTotal(c) - AmountOf(c, id)
  {
    match Find(c, id) {
      case None =>
        RemovedAbsent(c, id);
      case Some(i) =>
        RemovedExact(c, i);
        FoldsSplit(c, i);
        FoldsAppend(c[..i], c[i + 1..]);
    }
  }

  /** Setting a quantity changes the count by exactly that line's change. */
  lemma FoldsAfterSet(c: seq<Item>, id: int, q: int)
    ensures CartCount(QuantitySet(c, id, q)) - CartCount(c)
         == QuantityOf(QuantitySet(c, id, q), id) - QuantityOf(c, id)
    ensures CartTotal(QuantitySet(c, id, q)) - CartTotal(c)
         == AmountOf(QuantitySet(c, id, q), id) - AmountOf(c, id)
  {
    match Find(c, id) {
      case None =>
      case Some(i) =>
        var it := c[i].(quantity := Clamp(q, c[i].stock));
        FoldsUpdate(c, i, it);
        FindAfterUpdate(c, i, it, id);
    }
  }

  /** A well-formed cart counts at least one unit per line, and with
      non-negative prices its total is non-negative. */
  lemma {:induction false} FoldsBounds(c: seq<Item>)
    ensures WellFormed(c) ==> CartCount(c) >= |c|
    ensures WellFormed(c) && (forall i :: 0 <= i < |c| ==> c[i].price >= 0.0) ==> CartTotal(c) >= 0.0
    decreases |c|
  {
    if c != [] {
      var c' := c[..|c| - 1];
      assert forall k :: 0 <= k < |c'| ==> c'[k] == c[k];
      FoldsBounds(c');
    }
  }

  /** A laptop-and-mouse cart: a 1299.99 laptop and a 49.99
      accessory, one of each. */
  lemma TotalExample()
    ensures var c := [Item(1, "ProBook Laptop 15", 1299.99, "1.png", 1, 15),
                      Item(8, "Mouse", 49.99, "8.png", 1, 40)];
            CartTotal(c) == 1349.98 && CartCount(c) == 2
  {
    var c := [Item(1, "ProBook Laptop 15", 1299.99, "1.png", 1, 15),
              Item(8, "Mouse", 49.99, "8.png", 1, 40)];
    assert c[..1] == [c[0]];
    assert [c[0]][..0] == [];
  }
}
