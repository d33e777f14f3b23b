/** The products page: the search term, the modal's open flag, its two
    mode flags and the selected product, and the handlers that turn a
    modal submission into a request to the Catalog API. */
module ProductsPage {

  import opened Wrappers
  import opened Catalog
  import opened CreateProductModal
  import opened ProductController

  /** The request a handler hands to its mutation hook. */
  datatype ApiRequest =
    | CreateRequest(data: FormData)
    | UpdateRequest(data: FormData)
    | DeleteRequest(productId: string, quantity: int)

  /** The three handlers `onSubmit` can be bound to. */
  datatype Handler = CreateHandler | EditHandler | DeleteHandler

  /** The `onSubmit` selection: delete mode first, then edit mode, else create. */
  function SelectHandler(isDeleteMode: bool, isEditMode: bool): Handler
  {
    if isDeleteMode then DeleteHandler
    else if isEditMode then EditHandler
    else CreateHandler
  }

  class Page {
    var searchTerm: string
    var isModalOpen: bool
    var isDeleteMode: bool
    var isEditMode: bool
    var currentProduct: Option<Product>

    /** The two modes exclude each other, and either one has a product selected. */
    ghost predicate Valid()
      reads this
    {
      && !(isDeleteMode && isEditMode)
      && (isDeleteMode || isEditMode ==> currentProduct.Some?)
    }

    constructor()
      ensures Valid()
      ensures searchTerm == "" && !isModalOpen && !isDeleteMode && !isEditMode
      ensures currentProduct == None
    {
      searchTerm := "";
      isModalOpen := false;
      isDeleteMode := false;
      isEditMode := false;
      currentProduct := None;
    }

    /** The search the list hook is called with: the current term. With
        the initial empty term the listing is every row of any table. */
    function SearchQuery(): (search: Option<string>)
      reads this
      ensures search.Some? && search.value == searchTerm
      ensures searchTerm == "" ==> forall t: Table :: ListRows(t, search) == t.Values
    {
      forall t: Table | searchTerm == "" ensures ListRows(t, Some(searchTerm)) == t.Values {
        ListAllRows(t, Some(searchTerm));
      }
      Some(searchTerm)
    }

    /** The `initialData` prop: the selected product, or absent. */
    function InitialData(): Option<FormData>
      reads this
    {
      match currentProduct
      case None => None
      case Some(p) => Some(ToFormData(p))
    }

    /** The handler `onSubmit` is bound to in the current state. The edit
        and delete handlers are bound only while a product is selected, so
        their `if (!currentProduct) return` guards never fire for a bound handler. */
    function SubmitHandler(): (h: Handler)
      requires Valid()
      reads this
      ensures h == DeleteHandler <==> isDeleteMode
      ensures h == EditHandler <==> isEditMode
      ensures h != CreateHandler ==> currentProduct.Some?
    {
      SelectHandler(isDeleteMode, isEditMode)
    }

    /** The search box's `onChange`. */
    method SetSearchTerm(term: string)
      requires Valid()
      modifies this
      ensures Valid() && searchTerm == term
      ensures isModalOpen == old(isModalOpen) && isDeleteMode == old(isDeleteMode)
      ensures isEditMode == old(isEditMode) && currentProduct == old(currentProduct)
    {
      searchTerm := term;
    }

    /** A card's Delete button. */
    method OpenDeleteModal(p: Product)
      requires Valid()
      modifies this
      ensures Valid()
      ensures currentProduct == Some(p) && isDeleteMode && !isEditMode && isModalOpen
      ensures searchTerm == old(searchTerm)
    {
      currentProduct := Some(p);
      isDeleteMode := true;
      isEditMode := false;
      isModalOpen := true;
    }

    /** A card's Edit button. */
    method OpenEditModal(p: Product)
      requires Valid()
      modifies this
      ensures Valid()
      ensures currentProduct == Some(p) && isEditMode && !isDeleteMode && isModalOpen
      ensures searchTerm == old(searchTerm)
    {
      currentProduct := Some(p);
      isEditMode := true;
      isDeleteMode := false;
      isModalOpen := true;
    }

    /** The Create Product button. */
    method OpenCreateModal()
      requires Valid()
      modifies this
      ensures Valid()
      ensures isModalOpen && !isDeleteMode && !isEditMode && currentProduct == None
      ensures searchTerm == old(searchTerm)
    {
      isModalOpen := true;
      isDeleteMode := false;
      isEditMode := false;
      currentProduct := None;
    }

    /** The modal's `onClose`: only the open flag changes. */
    method CloseModal()
      requires Valid()
      modifies this
      ensures Valid() && !isModalOpen
      ensures isDeleteMode == old(isDeleteMode) && isEditMode == old(isEditMode)
      ensures currentProduct == old(currentProduct) && searchTerm == old(searchTerm)
    {
      isModalOpen := false;
    }

    /** `handleCreateProduct`: send the form as it is, then close. */
    method HandleCreateProduct(data: FormData) returns (sent: Option<ApiRequest>)
      requires Valid()
      modifies this
      ensures Valid() && !isModalOpen
      ensures sent == Some(CreateRequest(data))
      ensures isDeleteMode == old(isDeleteMode) && isEditMode == old(isEditMode)
      ensures currentProduct == old(currentProduct) && searchTerm == old(searchTerm)
    {
      sent := Some(CreateRequest(data));
      isModalOpen := false;
    }

    /** `handleEditProduct`: without a selected product nothing happens;
        otherwise send the form with the selected product's id, then close. */
    method HandleEditProduct(data: FormData) returns (sent: Option<ApiRequest>)
      requires Valid()
      modifies this
      ensures Valid()
      ensures old(currentProduct).None? ==> sent == None && isModalOpen == old(isModalOpen)
      ensures old(currentProduct).Some? ==>
        && sent == Some(UpdateRequest(data.(productId := Some(old(currentProduct).value.productId))))
        && !isModalOpen
      ensures isDeleteMode == old(isDeleteMode) && isEditMode == old(isEditMode)
      ensures currentProduct == old(currentProduct) && searchTerm == old(searchTerm)
    {
      if currentProduct.None? {
        sent := None;
        return;
      }
      sent := Some(UpdateRequest(data.(productId := Some(currentProduct.value.productId))));
      isModalOpen := false;
    }

    /** `handleDeleteProduct`: without a selected product nothing happens;
        otherwise send its id with the quantity, then close. */
    method HandleDeleteProduct(quantity: int) returns (sent: Option<ApiRequest>)
      requires Valid()
      modifies this
      ensures Valid()
      ensures old(currentProduct).None? ==> sent == None && isModalOpen == old(isModalOpen)
      ensures old(currentProduct).Some? ==>
        sent == Some(DeleteRequest(old(currentProduct).value.productId, quantity)) && !isModalOpen
      ensures isDeleteMode == old(isDeleteMode) && isEditMode == old(isEditMode)
      ensures currentProduct == old(currentProduct) && searchTerm == old(searchTerm)
    {
      if currentProduct.None? {
        sent := None;
        return;
      }
      sent := Some(DeleteRequest(currentProduct.value.productId, quantity));
      isModalOpen := false;
    }
  }
}
