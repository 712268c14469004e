/** The page handlers that drive the Store: the cart page's increase /
    decrease / remove buttons, and the submit handlers of the login,
    registration and checkout forms. */
module Pages {
  import opened Seqs
  import opened Text
  import opened Cart
  import opened Storage
  import opened Forms

  /** The `data-action` of a cart-page button. */
  datatype CartAction = Increase | Decrease | Remove

  /** The cart after one button press on the line holding `id`: increase
      asks for one more, decrease asks for one less or removes a line of
      quantity at most 1, remove deletes it; an id with no line changes
      nothing. */
  function AfterAction(c: seq<Item>, action: CartAction, id: int): (r: seq<Item>)
    ensures |r| <= |c|
    ensures action == Remove ==> forall i :: 0 <= i < |r| ==> r[i].id != id
  {
    match Find(c, id)
    case None => c
    case Some(i) =>
      var q := c[i].quantity;
      match action
      case Increase => QuantitySet(c, id, q + 1)
      case Decrease => if q <= 1 then Removed(c, id) else QuantitySet(c, id, q - 1)
      case Remove => Removed(c, id)
  }

  /** `handleCartAction`: look the line up, then dispatch to the Store. */
  method HandleCartAction(store: Store, action: CartAction, id: int)
    modifies store
    ensures Find(old(store.GetCart()), id).None? ==> store.cart == old(store.cart)
    ensures Find(old(store.GetCart()), id).Some? ==> store.cart == Some(AfterAction(old(store.GetCart()), action, id))
    ensures store.user == old(store.user)
    ensures UniqueIds(old(store.GetCart())) ==> UniqueIds(store.GetCart())
    ensures WellFormed(old(store.GetCart())) ==> WellFormed(store.GetCart())
  {
    var c := store.GetCart();
    var item := Find(c, id);
    if item.None? {
      return;
    }
    var q := c[item.value].quantity;
    match action {
      case Increase =>
        store.UpdateQuantity(id, q + 1);
      case Decrease =>
        if q <= 1 {
          store.RemoveFromCart(id);
        } else {
          store.UpdateQuantity(id, q - 1);
        }
      case Remove =>
        store.RemoveFromCart(id);
    }
  }

  /** Any action on an id with no line leaves the cart as it is. */
  lemma ActionAbsent(c: seq<Item>, action: CartAction, id: int)
    requires id !in Ids(c)
    ensures AfterAction(c, action, id) == c
  {
  }

  /** Decrease on a line of quantity at most 1 deletes that line and keeps
      the others in order. */
  lemma DecreaseRemoves(c: seq<Item>, i: nat)
    requires UniqueIds(c) && i < |c| && c[i].quantity <= 1
    ensures AfterAction(c, Decrease, c[i].id) == c[..i] + c[i + 1..]
  {
    FindUnique(c, i);
    RemovedExact(c, i);
  }

  /** Decrease on a line of quantity above 1 (and within its stock) lowers
      it by exactly one and touches no other line. */
  lemma DecreaseByOne(c: seq<Item>, i: nat)
    requires UniqueIds(c) && i < |c| && 1 < c[i].quantity <= c[i].stock
    ensures |AfterAction(c, Decrease, c[i].id)| == |c|
    ensures AfterAction(c, Decrease, c[i].id)[i] == c[i].(quantity := c[i].quantity - 1)
    ensures forall j :: 0 <= j < |c| && j != i ==> AfterAction(c, Decrease, c[i].id)[j] == c[j]
  {
    FindUnique(c, i);
    QuantitySetPresent(c, i, c[i].quantity - 1);
  }

  /** Increase never pushes a line with stock above its stock: below the
      stock it adds exactly one, at or above it the line sits at the stock. */
  lemma IncreaseBounded(c: seq<Item>, i: nat)
    requires UniqueIds(c) && i < |c| && c[i].stock >= 1
    ensures |AfterAction(c, Increase, c[i].id)| == |c|
    ensures 1 <= AfterAction(c, Increase, c[i].id)[i].quantity <= c[i].stock
    ensures 0 <= c[i].quantity < c[i].stock ==> AfterAction(c, Increase, c[i].id)[i].quantity == c[i].quantity + 1
    ensures c[i].quantity >= c[i].stock ==> AfterAction(c, Increase, c[i].id)[i].quantity == c[i].stock
    ensures forall j :: 0 <= j < |c| && j != i ==> AfterAction(c, Increase, c[i].id)[j] == c[j]
  {
    FindUnique(c, i);
    QuantitySetPresent(c, i, c[i].quantity + 1);
  }

  /** Remove deletes the line and keeps the others in order. */
  lemma RemoveAction(c: seq<Item>, i: nat)
    requires UniqueIds(c) && i < |c|
    ensures AfterAction(c, Remove, c[i].id) == c[..i] + c[i + 1..]
    ensures c[i].id !in Ids(AfterAction(c, Remove, c[i].id))
  {
    FindUnique(c, i);
    RemovedExact(c, i);
    RemovedSound(c, c[i].id);
  }

  /** Every action keeps a well-formed cart well formed. */
  lemma ActionWellFormed(c: seq<Item>, action: CartAction, id: int)
    requires WellFormed(c)
    ensures WellFormed(AfterAction(c, action, id))
  {
    match Find(c, id) {
      case None =>
      case Some(i) =>
        var q := c[i].quantity;
        match action {
          case Increase => QuantitySetWellFormed(c, id, q + 1);
          case Decrease =>
            if q <= 1 {
              RemovedWellFormed(c, id);
            } else {
              QuantitySetWellFormed(c, id, q - 1);
            }
          case Remove => RemovedWellFormed(c, id);
        }
    }
  }

  /** On a line that is found, increase is an update of that line alone. */
  lemma IncreaseIsUpdate(c: seq<Item>, i: nat)
    requires UniqueIds(c) && i < |c|
    ensures AfterAction(c, Increase, c[i].id) == c[i := c[i].(quantity := Clamp(c[i].quantity + 1, c[i].stock))]
  {
    FindUnique(c, i);
  }

  /** On a line of quantity above 1, decrease is an update of that line alone. */
  lemma DecreaseIsUpdate(c: seq<Item>, i: nat)
    requires UniqueIds(c) && i < |c| && c[i].quantity > 1
    ensures AfterAction(c, Decrease, c[i].id) == c[i := c[i].(quantity := Clamp(c[i].quantity - 1, c[i].stock))]
  {
    FindUnique(c, i);
  }

  /** On a line within its stock, decrease lowers the unit count by exactly
      one, whether it removes the line or lowers it. */
  lemma DecreaseCount(c: seq<Item>, i: nat)
    requires UniqueIds(c) && i < |c| && 1 <= c[i].quantity <= c[i].stock
    ensures CartCount(AfterAction(c, Decrease, c[i].id)) == CartCount(c) - 1
  {
    if c[i].quantity <= 1 {
      DecreaseRemoves(c, i);
      FoldsSplit(c, i);
      FoldsAppend(c[..i], c[i + 1..]);
    } else {
      DecreaseIsUpdate(c, i);
      FoldsUpdate(c, i, c[i].(quantity := c[i].quantity - 1));
    }
  }

  /** On a line within its stock, increase adds one unit below the stock
      and none at the stock. */
  lemma IncreaseCount(c: seq<Item>, i: nat)
    requires UniqueIds(c) && i < |c| && 1 <= c[i].quantity <= c[i].stock
    ensures c[i].quantity < c[i].stock ==> CartCount(AfterAction(c, Increase, c[i].id)) == CartCount(c) + 1
    ensures c[i].quantity == c[i].stock ==> CartCount(AfterAction(c, Increase, c[i].id)) == CartCount(c)
  {
    IncreaseIsUpdate(c, i);
    var it := c[i].(quantity := Clamp(c[i].quantity + 1, c[i].stock));
    FoldsUpdate(c, i, it);
  }

  /** One validation step of a submit handler: when the check fails, mark
      its field and raise the error flag. */
  method CheckField(ok: bool, field: Field, marked: set<Field>, hasError: bool)
    returns (marked': set<Field>, hasError': bool)
    ensures marked' == marked + Mark(ok, field)
    ensures hasError' == (hasError || !ok)
    ensures hasError == (marked != {}) ==> hasError' == (marked' != {})
  {
    marked', hasError' := marked, hasError;
    if !ok {
      marked' := marked + {field};
      hasError' := true;
    }
  }

  /** The login handler: mark each failing field, stop if any failed,
      otherwise log in under the part of the email before its first `@`. */
  method SubmitLogin(store: Store, email: string, password: string, now: string) returns (marked: set<Field>)
    modifies store
    ensures marked == LoginErrors(email, password)
    ensures marked == {} ==> store.user == Some(User(email, BeforeFirst(email, '@'), now))
    ensures marked != {} ==> store.user == old(store.user)
    ensures store.cart == old(store.cart)
  {
    var hasError := false;
    marked, hasError := CheckField(EmailOk(email), EmailField, {}, hasError);
    marked, hasError := CheckField(LongEnough(password, 3), PasswordField, marked, hasError);
    if hasError {
      return;
    }
    var name := BeforeFirst(email, '@');
    var _ := store.Login(email, name, now);
  }

  /** The registration handler: mark each failing field, stop if any failed,
      otherwise log in under the name given. */
  method SubmitRegister(store: Store, name: string, email: string, password: string, now: string)
    returns (marked: set<Field>)
    modifies store
    ensures marked == RegisterErrors(name, email, password)
    ensures marked == {} ==> store.user == Some(User(email, name, now))
    ensures marked != {} ==> store.user == old(store.user)
    ensures store.cart == old(store.cart)
  {
    var hasError := false;
    marked, hasError := CheckField(LongEnough(name, 2), NameField, {}, hasError);
    marked, hasError := CheckField(EmailOk(email), EmailField, marked, hasError);
    marked, hasError := CheckField(LongEnough(password, 6), PasswordField, marked, hasError);
    if hasError {
      return;
    }
    var _ := store.Login(email, name, now);
  }

  /** The checkout handler: mark each failing field, stop if any failed,
      otherwise place the order and clear the cart. */
  method SubmitCheckout(store: Store, f: CheckoutForm) returns (marked: set<Field>)
    modifies store
    ensures marked == CheckoutErrors(f)
    ensures marked == {} ==> store.cart == None && store.GetCart() == []
    ensures marked != {} ==> store.cart == old(store.cart)
    ensures store.user == old(store.user)
  {
    var hasError := false;
    marked, hasError := CheckField(LongEnough(f.name, 2), NameField, {}, hasError);
    marked, hasError := CheckField(EmailOk(f.email), EmailField, marked, hasError);
    marked, hasError := CheckField(LongEnough(f.address, 5), AddressField, marked, hasError);
    marked, hasError := CheckField(LongEnough(f.city, 2), CityField, marked, hasError);
    marked, hasError := CheckField(LongEnough(f.zip, 4), ZipField, marked, hasError);
    assert marked == ContactErrors(f);
    marked, hasError := CheckField(CardNumberOk(f.cardNumber), CardNumberField, marked, hasError);
    marked, hasError := CheckField(ExpiryOk(f.cardExpiry), CardExpiryField, marked, hasError);
    marked, hasError := CheckField(LongEnough(f.cardCvc, 3), CardCvcField, marked, hasError);
    if hasError {
      return;
    }
    store.ClearCart();
  }

  /** The name a login derives is the email's text before its first `@`:
      it holds no `@`, and the email is that name, the `@`, and the rest. */
  lemma LoginName(email: string)
    requires '@' in email
    ensures '@' !in BeforeFirst(email, '@')
    ensures email == BeforeFirst(email, '@') + "@" + email[|BeforeFirst(email, '@')| + 1..]
  {
    var name := BeforeFirst(email, '@');
    assert email == email[..|name|] + [email[|name|]] + email[|name| + 1..];
  }

  /** The account the login test uses (tests/login.spec.ts:12-13) logs in
      as `test`. */
  lemma LoginExample()
    ensures LoginErrors("test@test.com", "test123") == {}
    ensures BeforeFirst("test@test.com", '@') == "test"
  {
    BeforeFirstOfJoin("test", '@', "test.com");
    assert "test" + ['@'] + "test.com" == "test@test.com";
    LoginAcceptedIff("test@test.com", "test123");
    assert ("test@test.com")[4] == '@';
  }
}
