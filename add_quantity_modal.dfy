/** The stand-alone add-quantity modal: one `quantity` field clamped to at
    least 1 on every edit, and an unguarded submit. */
module AddQuantityModal {

  import opened Wrappers
  import opened Catalog

  /** A call the modal makes to its props. */
  datatype Event = OnConfirm(quantity: Num) | OnClose

  /** `Math.max(1, n)`; NaN stays NaN. */
  function ClampToOne(parsed: Num): (r: Num)
    ensures parsed.None? <==> r.None?
    ensures parsed.Some? ==> r.value >= 1 && r.value >= parsed.value
    ensures parsed.Some? && parsed.value >= 1 ==> r == parsed
    ensures parsed.Some? && parsed.value < 1 ==> r == Some(1)
  {
    match parsed
    case None => None
    case Some(n) => Some(if n < 1 then 1 else n)
  }

  class Modal {
    var quantity: Num

    /** The field holds NaN or a number of at least 1. */
    ghost predicate Valid()
      reads this
    {
      quantity.None? || quantity.value >= 1
    }

    constructor()
      ensures Valid() && quantity == Some(1)
    {
      quantity := Some(1);
    }

    /** The field's `onChange`, given what `parseInt` made of the text. */
    method SetQuantity(parsed: Num)
      modifies this
      ensures Valid()
      ensures quantity == ClampToOne(parsed)
    {
      quantity := ClampToOne(parsed);
    }

    /** `handleSubmit`: no guard; confirm with the field's value, then close. */
    method HandleSubmit() returns (events: seq<Event>)
      requires Valid()
      ensures events == [OnConfirm(quantity), OnClose]
      ensures forall e :: e in events && e.OnConfirm? && e.quantity.Some? ==> e.quantity.value >= 1
    {
      events := [OnConfirm(quantity), OnClose];
    }

    /** A submit by the user: a closed modal renders no form, so nothing happens. */
    method Submit(isOpen: bool) returns (events: seq<Event>)
      requires Valid()
      ensures !isOpen ==> events == []
      ensures isOpen ==> events == [OnConfirm(quantity), OnClose]
    {
      if isOpen {
        events := HandleSubmit();
      } else {
        events := [];
      }
    }
  }
}
