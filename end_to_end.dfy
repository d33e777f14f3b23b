/** User journeys through the products page, its modal and the Catalog API,
    with each modal callback delivered to the page handler it is bound to
    and each request answered by the store. */
module EndToEnd {

  import opened Wrappers
  import opened Catalog
  import opened ProductController
  import opened CreateProductModal
  import opened ProductsPage

  /** The product a request body describes, when every field is a number. */
  function RequestProduct(d: FormData): (r: Option<Product>)
    ensures r.Some? <==>
      d.productId.Some? && d.price.Some? && d.stockQuantity.Some? && d.rating.Some?
    ensures r.Some? ==> ToFormData(r.value) == d
  {
    if d.productId.Some? && d.price.Some? && d.stockQuantity.Some? && d.rating.Some? then
      Some(Product(d.productId.value, d.name, d.price.value, d.stockQuantity.value, d.rating.value))
    else
      None
  }

  /** A row sent through the form comes back as the same row. */
  lemma RequestProductRoundTrip(p: Product)
    ensures RequestProduct(ToFormData(p)) == Some(p)
  {
  }

  /** The `initialData` prop is absent exactly when no product is selected;
      otherwise, sent back as a request body, it describes the selected row. */
  lemma InitialDataRoundTrip(page: Page)
    ensures page.InitialData().None? <==> page.currentProduct.None?
    ensures page.currentProduct.Some? ==>
      RequestProduct(page.InitialData().value) == page.currentProduct
  {
    if page.currentProduct.Some? {
      RequestProductRoundTrip(page.currentProduct.value);
    }
  }

  /** For a quantity the delete form accepts against the stock it shows,
      when that is the stock the server holds, the server removes the row
      exactly when the quantity equals the stock, and otherwise leaves at
      least one item. */
  lemma AcceptedDeleteRemovesOnlyAtFullStock(table: Table, id: string, q: int)
    requires id != "" && id in table
    requires DeleteQuantityAccepted(Some(q), Some(table[id].stockQuantity))
    ensures DeleteOrDecrement(table, id, Some(q)).response.body.Deleted? <==> q == table[id].stockQuantity
    ensures q < table[id].stockQuantity ==>
      && id in DeleteOrDecrement(table, id, Some(q)).table
      && 1 <= DeleteOrDecrement(table, id, Some(q)).table[id].stockQuantity < table[id].stockQuantity
  {
  }

  /** Delete on a card, type a quantity, submit. The modal was last rendered
      with another product (or never), so opening copies the card's row into
      the form. A request reaches the server exactly when the typed quantity
      is accepted against the card's stock; the row is then removed exactly
      when the quantity is the whole stock. */
  method DeleteFromCard(store: ProductStore, page: Page, modal: Modal, p: Product, typed: Num)
    returns (response: Option<Response>)
    requires store.Valid() && page.Valid()
    requires p.productId in store.products && store.products[p.productId] == p
    requires modal.lastInitialData != Some(Some(ToFormData(p)))
    modifies store, page, modal
    ensures store.Valid() && page.Valid()
    ensures response.Some? <==> DeleteQuantityAccepted(typed, Some(p.stockQuantity))
    ensures response.None? ==> store.products == old(store.products) && page.isModalOpen
    ensures response.Some? ==> !page.isModalOpen
    ensures response.Some? && p.productId == "" ==> response.value.status == 400
    ensures response.Some? && p.productId != "" ==>
      && response.value.status == 200
      && (response.value.body.Deleted? <==> typed.value == p.stockQuantity)
    ensures response.Some? && p.productId != "" && typed.value < p.stockQuantity ==>
      && p.productId in store.products
      && store.products[p.productId].stockQuantity == p.stockQuantity - typed.value >= 1
  {
    page.OpenDeleteModal(p);
    modal.Render(page.InitialData());
    assert modal.formData.stockQuantity == Some(p.stockQuantity);
    modal.SetQuantityToDelete(typed);
    modal.Render(page.InitialData());
    var events := modal.Submit(page.isModalOpen, page.isDeleteMode);
    response := None;
    if events[0].OnSubmit? {
      var payload := events[0].payload;
      assert page.SubmitHandler() == DeleteHandler && payload.DeleteQuantity?;
      var sent := page.HandleDeleteProduct(payload.quantity);
      page.CloseModal();  // events[1] is the modal's onClose
      var resp := store.DeleteProduct(sent.value.productId, Some(sent.value.quantity));
      response := Some(resp);
    }
  }

  /** Edit on a card, change the stock field, Cancel, then Delete on the
      same card: the prop is unchanged, the effect does not run again, and
      the delete form shows the edited, unsaved stock; the delete quantity
      field keeps whatever it held before. */
  method CancelledEditKeepsEditedStock(page: Page, modal: Modal, p: Product, edited: Num)
    requires page.Valid()
    requires modal.lastInitialData != Some(Some(ToFormData(p)))
    modifies page, modal
    ensures page.Valid() && page.isModalOpen && page.isDeleteMode
    ensures modal.formData.stockQuantity == edited
    ensures modal.quantityToDelete == old(modal.quantityToDelete)
  {
    page.OpenEditModal(p);
    modal.Render(page.InitialData());
    modal.SetStockQuantity(edited);
    modal.Render(page.InitialData());
    page.CloseModal();
    modal.Render(page.InitialData());
    page.OpenDeleteModal(p);
    modal.Render(page.InitialData());
  }

  /** The stale form reaches the server: Edit on a card, raise the stock
      field, Cancel, Delete on the same card and type a quantity above the
      stored stock but within the edited one. The form accepts it and the
      server removes the whole row. */
  method StaleDeleteRemovesRow(store: ProductStore, page: Page, modal: Modal, p: Product, edited: int, q: int)
    returns (response: Response)
    requires store.Valid() && page.Valid()
    requires p.productId != "" && p.productId in store.products && store.products[p.productId] == p
    requires modal.lastInitialData != Some(Some(ToFormData(p)))
    requires 0 < p.stockQuantity < q <= edited
    modifies store, page, modal
    ensures store.Valid() && !page.isModalOpen
    ensures response == Response(200, Deleted(ProductDeleted, p))
    ensures p.productId !in store.products
  {
    page.OpenEditModal(p);
    modal.Render(page.InitialData());
    modal.SetStockQuantity(Some(edited));
    modal.Render(page.InitialData());
    page.CloseModal();
    modal.Render(page.InitialData());
    page.OpenDeleteModal(p);
    modal.Render(page.InitialData());
    modal.SetQuantityToDelete(Some(q));
    modal.Render(page.InitialData());
    var events := modal.Submit(page.isModalOpen, page.isDeleteMode);
    assert events == [OnSubmit(DeleteQuantity(q)), OnClose];
    assert page.SubmitHandler() == DeleteHandler;
    var sent := page.HandleDeleteProduct(q);
    page.CloseModal();  // events[1] is the modal's onClose
    response := store.DeleteProduct(sent.value.productId, Some(sent.value.quantity));
  }

  /** Edit on a card, Cancel, then Create Product and submit at once: the
      effect never resets the form, so the create request carries the card's
      row, id included, and the store refuses it as a duplicate key. */
  method CreateAfterEditReusesId(store: ProductStore, page: Page, modal: Modal, p: Product)
    returns (sent: Option<ApiRequest>, response: Response)
    requires store.Valid() && page.Valid()
    requires p.productId in store.products
    requires modal.lastInitialData != Some(Some(ToFormData(p)))
    modifies store, page, modal
    ensures store.Valid() && !page.isModalOpen
    ensures sent == Some(CreateRequest(ToFormData(p)))
    ensures response == Response(500, Message(ErrorCreating))
    ensures store.products == old(store.products)
  {
    page.OpenEditModal(p);
    modal.Render(page.InitialData());
    page.CloseModal();
    modal.Render(page.InitialData());
    page.OpenCreateModal();
    modal.Render(page.InitialData());
    assert modal.formData == ToFormData(p);
    var events := modal.Submit(page.isModalOpen, page.isDeleteMode);
    var payload := events[0].payload;
    assert page.SubmitHandler() == CreateHandler && payload == FormSubmission(ToFormData(p));
    sent := page.HandleCreateProduct(payload.data);
    page.CloseModal();  // events[1] is the modal's onClose
    var row := RequestProduct(sent.value.data);
    response := store.CreateProduct(row.value);
  }
}
