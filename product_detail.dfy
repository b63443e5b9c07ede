/** The product dialog: quantity and size selection with a running total price. */
module ProductDetail {
  import Cart

  /** The product shown in the dialog (its two prices). */
  datatype MenuItem = MenuItem(id: int, price: int, largeSizePrice: int)

  /** The unit price of a size: the large price for "large", the base price otherwise. */
  function UnitPrice(item: MenuItem, size: string): int
  {
    if size == "large" then item.largeSizePrice else item.price
  }

  /** The dialog's state cells. */
  class ProductDetailModal {
    var item: MenuItem
    var quantity: int
    var selectedSize: string
    var totalPrice: int
    var note: string

    /** The consistency the handlers keep by hand: at least one unit, and the
        total is the selected size's unit price times the quantity. */
    predicate Valid()
      reads this
    {
      quantity >= 1 && totalPrice == UnitPrice(item, selectedSize) * quantity
    }

    /** The reset effect run for a new item. */
    constructor (item: MenuItem)
      ensures this.item == item && quantity == 1 && selectedSize == "default"
      ensures totalPrice == item.price && note == ""
      ensures Valid()
    {
      this.item := item;
      quantity := 1;
      selectedSize := "default";
      totalPrice := item.price;
      note := "";
    }

    /** The same reset when the dialog is reused for another item. */
    method Reset(newItem: MenuItem)
      modifies this
      ensures item == newItem && quantity == 1 && selectedSize == "default"
      ensures totalPrice == newItem.price && note == ""
      ensures Valid()
    {
      item := newItem;
      quantity := 1;
      selectedSize := "default";
      totalPrice := newItem.price;
      note := "";
    }

    method UpdateTotalPrice(qty: int, size: string)
      modifies this`totalPrice
      ensures totalPrice == UnitPrice(item, size) * qty
    {
      var pricePerUnit := if size == "large" then item.largeSizePrice else item.price;
      totalPrice := pricePerUnit * qty;
    }

    /** The -/+ buttons: the quantity never drops below one. */
    method HandleQuantityChange(change: int)
      requires Valid()
      modifies this`quantity, this`totalPrice
      ensures Valid()
      ensures quantity == if old(quantity) + change >= 1 then old(quantity) + change else 1
    {
      var newQuantity := if 1 >= quantity + change then 1 else quantity + change;
      quantity := newQuantity;
      UpdateTotalPrice(newQuantity, selectedSize);
    }

    method HandleSizeChange(newSize: string)
      requires Valid()
      modifies this`selectedSize, this`totalPrice
      ensures Valid() && selectedSize == newSize && quantity == old(quantity)
    {
      selectedSize := newSize;
      UpdateTotalPrice(quantity, newSize);
    }

    method SetNote(text: string)
      modifies this`note
      ensures note == text
    {
      note := text;
    }

    /** The entry handed to the cart: the chosen quantity, size and note, and
        the unit price of that size; its quantity times price is the shown total. */
    method HandleAddToCart() returns (entry: Cart.AddRequest)
      requires Valid()
      ensures entry.id == item.id && entry.selectedSize == selectedSize
      ensures entry.quantity == quantity && entry.note == note
      ensures Cart.UnitPrice(entry) == UnitPrice(item, selectedSize)
      ensures Cart.AddedQuantity(entry) * Cart.UnitPrice(entry) == totalPrice
    {
      var price := if selectedSize == "large" then item.largeSizePrice else item.price;
      entry := Cart.AddRequest(item.id, selectedSize, quantity, price, item.largeSizePrice, note);
    }
  }
}
