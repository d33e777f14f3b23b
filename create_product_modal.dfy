/** The create/edit/delete modal of the products page: a form whose state
    (`formData`, `quantityToDelete`) outlives each opening, and whose submit
    fires the parent's callbacks. A callback fired is recorded as an event. */
module CreateProductModal {

  import opened Wrappers
  import opened Catalog

  /** The form's product. `productId` is not a field of the form, but
      copying `initialData` carries it along; the starting form has none. */
  datatype FormData = FormData(
    productId: Option<string>,
    name: string,
    price: Num,
    stockQuantity: Num,
    rating: Num)

  /** The form the modal starts with: empty name, every number zero. */
  const EmptyForm := FormData(None, "", Some(0), Some(0), Some(0))

  /** A row of the list as the form receives it through `initialData`. */
  function ToFormData(p: Product): FormData
  {
    FormData(Some(p.productId), p.name, Some(p.price), Some(p.stockQuantity), Some(p.rating))
  }

  /** What `onSubmit` is called with. */
  datatype Payload = FormSubmission(data: FormData) | DeleteQuantity(quantity: int)

  /** A call the modal makes to its props or to the browser. */
  datatype Event = OnSubmit(payload: Payload) | OnClose | Alert(message: string)

  const InvalidQuantityAlert := "Please enter a valid quantity to delete."

  /** The delete form's acceptance rule: a number with `0 < q <= stock`.
      Every comparison with NaN is false, so NaN on either side rejects. */
  function DeleteQuantityAccepted(quantity: Num, stock: Num): bool
  {
    quantity.Some? && stock.Some? && 0 < quantity.value <= stock.value
  }

  class Modal {
    var formData: FormData
    var quantityToDelete: Num
    /** The `initialData` prop seen by the last render, which the effect
        compares against; `None` before the first render. */
    var lastInitialData: Option<Option<FormData>>

    constructor()
      ensures formData == EmptyForm && quantityToDelete == Some(0) && lastInitialData == None
    {
      formData := EmptyForm;
      quantityToDelete := Some(0);
      lastInitialData := None;
    }

    /** A render with the given `initialData` prop. The effect runs when the
        prop differs from the previous render's, and then copies it into the
        form if it is present; it never resets the form when it is absent. */
    method Render(initialData: Option<FormData>)
      modifies this
      ensures lastInitialData == Some(initialData)
      ensures quantityToDelete == old(quantityToDelete)
      ensures old(lastInitialData) != Some(initialData) && initialData.Some? ==>
        formData == initialData.value
      ensures old(lastInitialData) == Some(initialData) || initialData.None? ==>
        formData == old(formData)
    {
      if lastInitialData != Some(initialData) {
        if initialData.Some? {
          formData := initialData.value;
        }
      }
      lastInitialData := Some(initialData);
    }

    /** The name field's `onChange`. */
    method SetName(value: string)
      modifies this
      ensures formData == old(formData).(name := value)
      ensures quantityToDelete == old(quantityToDelete) && lastInitialData == old(lastInitialData)
    {
      formData := formData.(name := value);
    }

    /** The price field's `onChange`, given what `parseFloat` made of the text. */
    method SetPrice(parsed: Num)
      modifies this
      ensures formData == old(formData).(price := parsed)
      ensures quantityToDelete == old(quantityToDelete) && lastInitialData == old(lastInitialData)
    {
      formData := formData.(price := parsed);
    }

    /** The stock field's `onChange`, given what `parseInt` made of the text. */
    method SetStockQuantity(parsed: Num)
      modifies this
      ensures formData == old(formData).(stockQuantity := parsed)
      ensures quantityToDelete == old(quantityToDelete) && lastInitialData == old(lastInitialData)
    {
      formData := formData.(stockQuantity := parsed);
    }

    /** The rating field's `onChange`, given what `parseInt` made of the text. */
    method SetRating(parsed: Num)
      modifies this
      ensures formData == old(formData).(rating := parsed)
      ensures quantityToDelete == old(quantityToDelete) && lastInitialData == old(lastInitialData)
    {
      formData := formData.(rating := parsed);
    }

    /** The delete quantity field's `onChange`, given what `parseInt` made of the text. */
    method SetQuantityToDelete(parsed: Num)
      modifies this
      ensures quantityToDelete == parsed
      ensures formData == old(formData) && lastInitialData == old(lastInitialData)
    {
      quantityToDelete := parsed;
    }

    /** `handleDeleteSubmit`: submit the quantity and close exactly when it
        is accepted against the stock the form shows; otherwise only alert. */
    method HandleDeleteSubmit() returns (events: seq<Event>)
      ensures DeleteQuantityAccepted(quantityToDelete, formData.stockQuantity) ==>
        events == [OnSubmit(DeleteQuantity(quantityToDelete.value)), OnClose]
      ensures !DeleteQuantityAccepted(quantityToDelete, formData.stockQuantity) ==>
        events == [Alert(InvalidQuantityAlert)]
      ensures forall e :: e in events && e.OnSubmit? ==>
        && e.payload.DeleteQuantity?
        && formData.stockQuantity.Some?
        && 0 < e.payload.quantity <= formData.stockQuantity.value
    {
      if quantityToDelete.Some? && formData.stockQuantity.Some?
         && quantityToDelete.value > 0 && quantityToDelete.value <= formData.stockQuantity.value
      {
        events := [OnSubmit(DeleteQuantity(quantityToDelete.value)), OnClose];
      } else {
        events := [Alert(InvalidQuantityAlert)];
      }
    }

    /** The create/edit form's submit: the whole form goes to `onSubmit`,
        unvalidated, and the modal closes. */
    method HandleFormSubmit() returns (events: seq<Event>)
      ensures events == [OnSubmit(FormSubmission(formData)), OnClose]
    {
      events := [OnSubmit(FormSubmission(formData)), OnClose];
    }

    /** A submit by the user. A closed modal renders nothing, so nothing can
        be submitted; an open one shows the delete form in delete mode and
        the create/edit form otherwise. */
    method Submit(isOpen: bool, isDeleteMode: bool) returns (events: seq<Event>)
      ensures !isOpen ==> events == []
      ensures isOpen && isDeleteMode ==>
        (if DeleteQuantityAccepted(quantityToDelete, formData.stockQuantity)
         then events == [OnSubmit(DeleteQuantity(quantityToDelete.value)), OnClose]
         else events == [Alert(InvalidQuantityAlert)])
      ensures isOpen && !isDeleteMode ==> events == [OnSubmit(FormSubmission(formData)), OnClose]
      ensures forall e :: e in events && e.OnSubmit? ==> (e.payload.DeleteQuantity? <==> isDeleteMode)
    {
      if !isOpen {
        events := [];
      } else if isDeleteMode {
        events := HandleDeleteSubmit();
      } else {
        events := HandleFormSubmit();
      }
    }
  }

  /** The initial delete quantity, and NaN from unparseable input, are
      always rejected, whatever the stock. */
  lemma DefaultAndNaNRejected(stock: Num)
    ensures !DeleteQuantityAccepted(Some(0), stock)
    ensures !DeleteQuantityAccepted(None, stock)
  {
  }
}
