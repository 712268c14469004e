/** The field checks of the login, registration and checkout forms. Each
    check rejects an empty value first (`!value || ...`), then tests the
    value's shape. A form is accepted when no field is marked. */
module Forms {
  import opened Seqs
  import opened Text

  datatype Field =
    | NameField | EmailField | PasswordField
    | AddressField | CityField | ZipField
    | CardNumberField | CardExpiryField | CardCvcField

  /** `!value || value.length < n` rejects; `length` counts UTF-16 code
      units. */
  predicate LongEnough(value: string, n: nat) {
    value != "" && Utf16Length(value) >= n
  }

  /** `!value || !value.includes('@')` rejects. */
  predicate EmailOk(value: string) {
    value != "" && '@' in value
  }

  /** The class `\d`: ASCII digits only. */
  predicate IsDigit(c: char) {
    '0' <= c <= '9'
  }

  /** `/^\d{2}\/\d{2}$/`: two digits, a slash, two digits, nothing else. */
  predicate ExpiryOk(value: string) {
    && value != ""
    && |value| == 5
    && IsDigit(value[0]) && IsDigit(value[1])
    && value[2] == '/'
    && IsDigit(value[3]) && IsDigit(value[4])
  }

  /** `value.replace(/\s/g, '').length < 13` rejects. */
  predicate CardNumberOk(value: string) {
    value != "" && Utf16Length(StripWhitespace(value)) >= 13
  }

  /** A field is marked when its check fails. */
  function Mark(ok: bool, field: Field): set<Field> {
    if ok then {} else {field}
  }

  /** The fields the login form marks. */
  function LoginErrors(email: string, password: string): (r: set<Field>)
    ensures r <= {EmailField, PasswordField}
  {
    Mark(EmailOk(email), EmailField)
    + Mark(LongEnough(password, 3), PasswordField)
  }

  /** The fields the registration form marks. */
  function RegisterErrors(name: string, email: string, password: string): (r: set<Field>)
    ensures r <= {NameField, EmailField, PasswordField}
  {
    Mark(LongEnough(name, 2), NameField)
    + Mark(EmailOk(email), EmailField)
    + Mark(LongEnough(password, 6), PasswordField)
  }

  datatype CheckoutForm = CheckoutForm(
    name: string,
    email: string,
    address: string,
    city: string,
    zip: string,
    cardNumber: string,
    cardExpiry: string,
    cardCvc: string)

  /** The fields the checkout form marks: the buyer's details, then the card. */
  function CheckoutErrors(f: CheckoutForm): (r: set<Field>)
    ensures PasswordField !in r
  {
    ContactErrors(f) + CardErrors(f)
  }

  function ContactErrors(f: CheckoutForm): set<Field> {
    Mark(LongEnough(f.name, 2), NameField)
    + Mark(EmailOk(f.email), EmailField)
    + Mark(LongEnough(f.address, 5), AddressField)
    + Mark(LongEnough(f.city, 2), CityField)
    + Mark(LongEnough(f.zip, 4), ZipField)
  }

  function CardErrors(f: CheckoutForm): set<Field> {
    Mark(CardNumberOk(f.cardNumber), CardNumberField)
    + Mark(ExpiryOk(f.cardExpiry), CardExpiryField)
    + Mark(LongEnough(f.cardCvc, 3), CardCvcField)
  }

  /** Login is accepted exactly when the email holds an `@` and the password
      has at least 3 UTF-16 code units. */
  lemma LoginAcceptedIff(email: string, password: string)
    ensures LoginErrors(email, password) == {} <==> '@' in email && Utf16Length(password) >= 3
  {
    if LoginErrors(email, password) == {} {
      assert EmailField !in LoginErrors(email, password);
      assert PasswordField !in LoginErrors(email, password);
    }
  }

  /** Registration is accepted exactly when the name has at least 2 UTF-16
      code units, the email holds an `@` and the password at least 6. */
  lemma RegisterAcceptedIff(name: string, email: string, password: string)
    ensures RegisterErrors(name, email, password) == {}
        <==> Utf16Length(name) >= 2 && '@' in email && Utf16Length(password) >= 6
  {
    if RegisterErrors(name, email, password) == {} {
      assert NameField !in RegisterErrors(name, email, password);
      assert EmailField !in RegisterErrors(name, email, password);
      assert PasswordField !in RegisterErrors(name, email, password);
    }
  }

  /** Whatever registration accepts, login accepts too. */
  lemma RegisterStricterThanLogin(name: string, email: string, password: string)
    requires RegisterErrors(name, email, password) == {}
    ensures LoginErrors(email, password) == {}
  {
    RegisterAcceptedIff(name, email, password);
    LoginAcceptedIff(email, password);
  }

  /** Checkout is accepted exactly when every field has its shape. */
  lemma CheckoutAcceptedIff(f: CheckoutForm)
    ensures CheckoutErrors(f) == {} <==>
      && Utf16Length(f.name) >= 2 && '@' in f.email
      && Utf16Length(f.address) >= 5 && Utf16Length(f.city) >= 2
      && Utf16Length(f.zip) >= 4 && Utf16Length(StripWhitespace(f.cardNumber)) >= 13
      && ExpiryOk(f.cardExpiry) && Utf16Length(f.cardCvc) >= 3
  {
    if CheckoutErrors(f) == {} {
      assert NameField !in CheckoutErrors(f);
      assert EmailField !in CheckoutErrors(f);
      assert AddressField !in CheckoutErrors(f);
      assert CityField !in CheckoutErrors(f);
      assert ZipField !in CheckoutErrors(f);
      assert CardNumberField !in CheckoutErrors(f);
      assert CardExpiryField !in CheckoutErrors(f);
      assert CardCvcField !in CheckoutErrors(f);
    } else {
      if Utf16Length(StripWhitespace(f.cardNumber)) >= 13 {
        assert f.cardNumber != "";
      }
    }
  }

  /** Every `MM/YY` pair of two-digit strings is accepted as an expiry ... */
  lemma ExpiryAcceptsPairs(mm: string, yy: string)
    requires |mm| == 2 && |yy| == 2
    requires IsDigit(mm[0]) && IsDigit(mm[1]) && IsDigit(yy[0]) && IsDigit(yy[1])
    ensures ExpiryOk(mm + "/" + yy)
  {
  }

  /** ... and every accepted expiry is such a pair. */
  lemma ExpiryIsPair(value: string)
    requires ExpiryOk(value)
    ensures value == value[..2] + "/" + value[3..]
    ensures |value[..2]| == 2 && |value[3..]| == 2
    ensures forall i :: 0 <= i < 2 ==> IsDigit(value[..2][i]) && IsDigit(value[3..][i])
  {
  }

  /** Whitespace inside the card number does not count towards its length. */
  lemma CardNumberIgnoresWhitespace(a: string, w: char, b: string)
    requires IsWhitespace(w)
    ensures CardNumberOk(a + [w] + b) == CardNumberOk(a + b)
  {
    StripIgnoresInsertedWhitespace(a, w, b);
  }

  /** A string of digits is left as it is by stripping whitespace. */
  lemma StripDigits(s: string)
    requires forall i :: 0 <= i < |s| ==> IsDigit(s[i])
    ensures StripWhitespace(s) == s
  {
    KeepAll(s, IsNotWhitespace);
  }

  /** Stripping whitespace from two parts joined by a space strips each part. */
  lemma StripSpaced(a: string, b: string)
    ensures StripWhitespace(a + " " + b) == StripWhitespace(a) + StripWhitespace(b)
    ensures Utf16Length(StripWhitespace(a + " " + b))
         == Utf16Length(StripWhitespace(a)) + Utf16Length(StripWhitespace(b))
  {
    KeepAppend(a + " ", b, IsNotWhitespace);
    KeepAppend(a, " ", IsNotWhitespace);
    assert Keep(" ", IsNotWhitespace) == [];
    Utf16LengthAppend(StripWhitespace(a), StripWhitespace(b));
  }

  /** Two runs of digits joined by a space keep all their digits. */
  lemma StripDigitGroups(a: string, b: string)
    requires forall i :: 0 <= i < |a| ==> IsDigit(a[i])
    requires forall i :: 0 <= i < |b| ==> IsDigit(b[i])
    ensures Utf16Length(StripWhitespace(a + " " + b)) == |a| + |b|
  {
    StripDigits(a);
    StripDigits(b);
    StripSpaced(a, b);
    assert forall i :: 0 <= i < |a| ==> a[i] as int <= 0xFFFF;
    assert forall i :: 0 <= i < |b| ==> b[i] as int <= 0xFFFF;
  }

  /** The card number of the checkout test, 1234 5678 9012 3456, has 16
      digits and is accepted. */
  lemma CardNumberAcceptedExample()
    ensures CardNumberOk("1234 5678" + " " + "9012 3456")
  {
    StripDigitGroups("1234", "5678");
    StripDigitGroups("9012", "3456");
    assert "1234 5678" == "1234" + " " + "5678";
    assert "9012 3456" == "9012" + " " + "3456";
    StripSpaced("1234 5678", "9012 3456");
  }

  /** 1234 5678 901 has 13 characters but only 11 digits and is rejected. */
  lemma CardNumberRejectedExample()
    ensures !CardNumberOk("1234 5678" + " " + "901")
  {
    StripDigitGroups("1234", "5678");
    assert "1234 5678" == "1234" + " " + "5678";
    StripDigits("901");
    StripSpaced("1234 5678", "901");
  }

  /** A single emoji is two UTF-16 code units, so it passes the name check
      that asks for at least 2. */
  lemma EmojiNameAccepted()
    ensures Utf16Length("\U{1F600}") == 2
    ensures NameField !in RegisterErrors("\U{1F600}", "a@b", "secret")
  {
  }
}
