/** The stand-alone delete-quantity modal: one `quantity` field and a
    confirm button guarded by `quantity > 0`. It knows no stock at all. */
module DeleteProductModal {

  import opened Wrappers
  import opened Catalog

  /** A call the modal makes to its props or to the browser. */
  datatype Event = OnConfirm(quantity: int) | OnClose | Alert(message: string)

  const InvalidQuantityAlert := "Please enter a valid quantity."

  class Modal {
    var quantity: Num

    constructor()
      ensures quantity == Some(1)
    {
      quantity := Some(1);
    }

    /** The field's `onChange`: whatever `Number` made of the text, unclamped,
        so zero, negatives and NaN can all be stored. */
    method SetQuantity(parsed: Num)
      modifies this
      ensures quantity == parsed
    {
      quantity := parsed;
    }

    /** `handleConfirm`: confirm then close for a positive quantity;
        alert and fire neither callback otherwise. */
    method HandleConfirm() returns (events: seq<Event>)
      ensures quantity.Some? && quantity.value > 0 ==>
        events == [OnConfirm(quantity.value), OnClose]
      ensures !(quantity.Some? && quantity.value > 0) ==> events == [Alert(InvalidQuantityAlert)]
      ensures forall e :: e in events && e.OnConfirm? ==> e.quantity > 0
    {
      if quantity.Some? && quantity.value > 0 {
        events := [OnConfirm(quantity.value), OnClose];
      } else {
        events := [Alert(InvalidQuantityAlert)];
      }
    }

    /** A click on Delete: only an open modal renders the button. */
    method PressDelete(isOpen: bool) returns (events: seq<Event>)
      ensures !isOpen ==> events == []
      ensures isOpen && quantity.Some? && quantity.value > 0 ==>
        events == [OnConfirm(quantity.value), OnClose]
      ensures isOpen && !(quantity.Some? && quantity.value > 0) ==>
        events == [Alert(InvalidQuantityAlert)]
    {
      if isOpen {
        events := HandleConfirm();
      } else {
        events := [];
      }
    }
  }
}
