// internal/model/product.go: the product record and its field validation.
module ProductModel {
  import opened Wrappers

  datatype Product = Product(
    id: string, title: string, price: int, quantity: int, detail: string,
    createdBy: string, createdAt: int, updatedAt: int)

  /**
   * The create/update request. Its Go definition is not part of this model; the fields
   * are the ones the product service reads from it.
   */
  datatype ProductReq = ProductReq(title: string, price: int, quantity: int, detail: string)

  /** The four rejections of Verify, one per rule. */
  datatype Invalid = TitleTooShort | PriceNotPositive | QuantityNotPositive | DetailTooShort

  /** The number of bytes of the string's UTF-8 encoding: what Go's `len` counts. */
  function Utf8Length(s: string): nat
  {
    if |s| == 0 then 0
    else
      var c := s[0] as int;
      (if c < 0x80 then 1 else if c < 0x800 then 2 else if c < 0x1_0000 then 3 else 4) + Utf8Length(s[1..])
  }

  /** An unset (empty or zero) field is not validated; a set field must follow its rule. */
  predicate TitleOk(p: Product) { p.title == "" || Utf8Length(p.title) >= 2 }
  predicate PriceOk(p: Product) { p.price == 0 || p.price > 0 }
  predicate QuantityOk(p: Product) { p.quantity == 0 || p.quantity > 0 }
  predicate DetailOk(p: Product) { p.detail == "" || Utf8Length(p.detail) >= 4 }

  /** Checks title, price, quantity and detail in that order and reports the first broken rule. */
  function Verify(p: Product): (r: Outcome<Invalid>)
    ensures r.Pass? <==> TitleOk(p) && PriceOk(p) && QuantityOk(p) && DetailOk(p)
    ensures r == Fail(TitleTooShort) <==> !TitleOk(p)
    ensures r == Fail(PriceNotPositive) <==> TitleOk(p) && !PriceOk(p)
    ensures r == Fail(QuantityNotPositive) <==> TitleOk(p) && PriceOk(p) && !QuantityOk(p)
    ensures r == Fail(DetailTooShort) <==> TitleOk(p) && PriceOk(p) && QuantityOk(p) && !DetailOk(p)
  {
    if p.title != "" && !(Utf8Length(p.title) >= 2) then Fail(TitleTooShort)
    else if p.price != 0 && !(p.price > 0) then Fail(PriceNotPositive)
    else if p.quantity != 0 && !(p.quantity > 0) then Fail(QuantityNotPositive)
    else if p.detail != "" && !(Utf8Length(p.detail) >= 4) then Fail(DetailTooShort)
    else Pass
  }

  /** Go's `len` counts at least one byte per character, and exactly one for ASCII. */
  lemma {:induction false} Utf8LengthBounds(s: string)
    ensures Utf8Length(s) >= |s|
    ensures (forall k :: 0 <= k < |s| ==> s[k] as int < 0x80) ==> Utf8Length(s) == |s|
  {
    if |s| > 0 {
      Utf8LengthBounds(s[1..]);
    }
  }

  /** A record with every field unset passes, as partial updates rely on. */
  lemma VerifyAcceptsUnsetFields(p: Product)
    requires p.title == "" && p.price == 0 && p.quantity == 0 && p.detail == ""
    ensures Verify(p) == Pass
  {
  }

  /** A negative price or quantity is never accepted. */
  lemma VerifyRejectsNegatives(p: Product)
    requires p.price < 0 || p.quantity < 0
    ensures Verify(p).Fail?
  {
  }

  /**
   * The length rules count bytes, not characters: a one-character title passes exactly
   * when the character is outside ASCII, and a one-character detail exactly when it
   * takes four bytes.
   */
  lemma OneCharacterFieldsCountBytes(p: Product, c: char)
    ensures p.title == [c] ==> (TitleOk(p) <==> c as int >= 0x80)
    ensures p.detail == [c] ==> (DetailOk(p) <==> c as int >= 0x1_0000)
  {
    var k := c as int;
    assert [c][1..] == [];
    assert Utf8Length([c]) == if k < 0x80 then 1 else if k < 0x800 then 2 else if k < 0x1_0000 then 3 else 4;
  }
}
