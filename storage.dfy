/** The Store object: the storefront's two local-storage keys, the cart and
    the session, held as optional fields (None is an absent key), and the
    operations that read them, change them and write them back. Every read
    goes through the stored value; nothing is cached between operations. */
module Storage {
  import opened Seqs
  import opened Catalog
  import opened Cart

  /** The session record; `loggedInAt` is the login time as an ISO-8601 string. */
  datatype User = User(email: string, name: string, loggedInAt: string)

  class Store {
    /** The cart key; None when the key is absent. */
    var cart: Option<seq<Item>>
    /** The session key; None when nobody is logged in. */
    var user: Option<User>

    /** A Store over whatever the two keys hold when the page loads. */
    constructor (storedCart: Option<seq<Item>>, storedUser: Option<User>)
      ensures cart == storedCart && user == storedUser
    {
      cart := storedCart;
      user := storedUser;
    }

    /** `getCart`: the stored list, or the empty list when the key is absent. */
    function GetCart(): (c: seq<Item>)
      reads this
      ensures cart.None? ==> c == []
      ensures cart.Some? ==> c == cart.value
    {
      match cart
      case None => []
      case Some(c) => c
    }

    /** `addToCart(product, quantity)`: find the product's line and raise its
        quantity, capped at the product's stock, or append a new line; then
        write the cart back. */
    method AddToCart(p: Product, quantity: int)
      modifies this
      ensures cart == Some(AddedToCart(old(GetCart()), p, quantity))
      ensures user == old(user)
      ensures UniqueIds(old(GetCart())) ==> UniqueIds(GetCart()) && Ids(GetCart()) == Ids(old(GetCart())) + {p.id}
      ensures CartCount(GetCart()) - CartCount(old(GetCart()))
           == QuantityOf(GetCart(), p.id) - QuantityOf(old(GetCart()), p.id)
    {
      var c := GetCart();
      ghost var before := c;
      var existing := Find(c, p.id);
      match existing {
        case Some(i) =>
          c := c[i := c[i].(quantity := Min(c[i].quantity + quantity, p.stock))];
        case None =>
          c := c + [NewItem(p, Min(quantity, p.stock))];
      }
      cart := Some(c);
      if UniqueIds(before) {
        AddToCartIds(before, p, quantity);
      }
      FoldsAfterAdd(before, p, quantity);
    }

    /** `removeFromCart(id)`: keep every line with another id and write the
        cart back (an absent key becomes a stored empty list). */
    method RemoveFromCart(id: int)
      modifies this
      ensures cart == Some(Removed(old(GetCart()), id))
      ensures user == old(user)
      ensures id !in Ids(GetCart())
      ensures UniqueIds(old(GetCart())) ==> UniqueIds(GetCart())
      ensures WellFormed(old(GetCart())) ==> WellFormed(GetCart())
    {
      var c := GetCart();
      RemovedSound(c, id);
      if UniqueIds(c) {
        RemovedUnique(c, id);
      }
      if WellFormed(c) {
        RemovedWellFormed(c, id);
      }
      cart := Some(Keep(c, OtherId(id)));
    }

    /** `updateQuantity(id, quantity)`: clamp the found line's quantity into
        [1, its stock] and write the cart back; an absent id writes nothing. */
    method UpdateQuantity(id: int, quantity: int)
      modifies this
      ensures Find(old(GetCart()), id).None? ==> cart == old(cart)
      ensures Find(old(GetCart()), id).Some? ==> cart == Some(QuantitySet(old(GetCart()), id, quantity))
      ensures user == old(user)
      ensures UniqueIds(old(GetCart())) ==> UniqueIds(GetCart())
      ensures WellFormed(old(GetCart())) ==> WellFormed(GetCart())
    {
      var c := GetCart();
      var item := Find(c, id);
      if item.Some? {
        var i := item.value;
        if UniqueIds(c) {
          QuantitySetUnique(c, id, quantity);
        }
        if WellFormed(c) {
          QuantitySetWellFormed(c, id, quantity);
        }
        c := c[i := c[i].(quantity := Max(1, Min(quantity, c[i].stock)))];
        cart := Some(c);
      }
    }

    /** `clearCart`: delete the cart key; the cart then reads back as empty. */
    method ClearCart()
      modifies this
      ensures cart == None && GetCart() == []
      ensures user == old(user)
    {
      cart := None;
    }

    /** `getCartCount`: the number of units in the cart. */
    function Count(): (n: int)
      reads this
      ensures cart.None? ==> n == 0
      ensures WellFormed(GetCart()) ==> n >= |GetCart()|
    {
      FoldsBounds(GetCart());
      CartCount(GetCart())
    }

    /** `getCartTotal`: the sum of price times quantity over the lines. */
    function Total(): (t: real)
      reads this
      ensures cart.None? ==> t == 0.0
      ensures WellFormed(GetCart()) && (forall i :: 0 <= i < |GetCart()| ==> GetCart()[i].price >= 0.0) ==> t >= 0.0
    {
      FoldsBounds(GetCart());
      CartTotal(GetCart())
    }

    /** `isLoggedIn`: the session key is present. */
    predicate IsLoggedIn()
      reads this
    {
      user.Some?
    }

    /** `login(email, name)`: store a fresh session, replacing any other;
        `now` is the clock reading the source takes at that moment. */
    method Login(email: string, name: string, now: string) returns (u: User)
      modifies this
      ensures u == User(email, name, now) && user == Some(u)
      ensures IsLoggedIn()
      ensures cart == old(cart)
    {
      u := User(email, name, now);
      user := Some(u);
    }

    /** `logout`: delete the session key, whatever it held. */
    method Logout()
      modifies this
      ensures user == None && !IsLoggedIn()
      ensures cart == old(cart)
    {
      user := None;
    }
  }
}
