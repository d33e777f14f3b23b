# Inventory catalog: product store and products page, modelled in Dafny

This project models the core of a small inventory-management application.
The server side is the Catalog API: four handlers over the Products table (list with a
name filter, create, update, and delete-or-decrement). The client side is the products
page, with its modal state machine, and three modal forms: create/edit/delete,
delete-quantity and add-quantity.

- `wrappers.dfy` holds `Option`.
- `catalog.dfy` holds the shared `Product` row, and `Num`, a JavaScript number restricted
  to integers, in which `None` stands for NaN.
- `product_controller.dfy` (module `ProductController`) models the API.
  - The ORM store is a `map<string, Product>` keyed by `productId`.
  - A response is a status code and a JSON body.
  - Each handler is a pure function from the table to an `Outcome` (the response and the
    new table), and its contract states every branch.
  - The class `ProductStore` holds the table. Its methods run the handler's steps
    (validate, look up, branch) and are proved equal to those functions.
  - The class keeps the primary-key invariant: every row is stored under its own id.
  - Listing is a read-only function. The `contains` filter is a recursive scan, proved
    equal to the "some index where the term starts" definition.
- `products_page.dfy` (module `ProductsPage`) models the page.
  - The class `Page` holds the search term, `isModalOpen`, `isDeleteMode`, `isEditMode`
    and `currentProduct`, and has one method per transition and one per handler.
  - `Valid()` states that the two modes never hold together, and that a mode is only on
    while a product is selected. Every method preserves it.
  - The pure `SelectHandler` is the `onSubmit` priority: delete, then edit, then create.
- `create_product_modal.dfy`, `delete_product_modal.dfy` and `add_quantity_modal.dfy`
  hold one class each for the modals' local state.
  - A callback the modal fires (`onSubmit`, `onConfirm`, `onClose`, or an `alert`) is
    returned as a sequence of events, in firing order.
  - A closed modal renders nothing, so a submit against a closed modal fires nothing.
  - The create/edit modal's effect is modelled by `Render`. It remembers the
    `initialData` prop of the previous render. It copies the prop into the form only
    when the prop changed and is present; it never resets the form.
- `end_to_end.dfy` (module `EndToEnd`) composes the page, the modal and the store:
  - A UI-initiated delete reaches the server only for a quantity `0 < q <= stock`,
    checked against the stock the form shows.
  - When that equals the stored stock, the row is removed exactly when `q` is the whole
    stock. Otherwise at least one item stays.
  - Two further journeys follow from the effect never resetting the form:
    - Cancelling an edit and opening Delete on the same card leaves the edited, unsaved
      stock in the delete form. The same prop means the effect does not run again.
      A quantity above the stored stock but within the edited one is then accepted,
      and the server removes the whole row.
    - Opening Create after an edit submits the old row with its id, and the store refuses
      it as a duplicate key (500).

Notes on the code:

- The add-quantity modal only calls `onConfirm(quantity)` and then `onClose`. It does no
  addition of its own. Whatever its parent does with the quantity is not part of this
  model.
- The "quantity is at most the current stock" check lives in the create/edit/delete
  modal's delete form. The stand-alone delete modal checks only `quantity > 0`.
- The page's `ProductFormData` types `rating` as a number, so it is an integer here, not
  an optional value.
- The card image index comes from `Math.random`, not from the product id. It is
  decorative and left out.

## Model

| member | source | states |
|---|---|---|
| `ProductController.ContainsIsSubstring` | server/src/controllers/productController.ts:14-16 | the `contains` scan holds exactly when the term starts at some index of the name (both directions) |
| `ProductController.Contains` | server/src/controllers/productController.ts:15 | the case-sensitive `contains` scan: a match is never longer than the name, and a term as long as the name matches only the name itself |
| `ProductController.Matches` | server/src/controllers/productController.ts:13-16 | a row passes the filter iff no term is given or the term starts at some index of its name |
| `ProductController.EmptyTermMatchesAll` | server/src/controllers/productController.ts:15 | the empty search term matches every name |
| `ProductController.ListRows` | server/src/controllers/productController.ts:11-18 | a row is listed iff it is in the table and either no term is given or its name contains the term |
| `ProductController.ListAllRows` | server/src/controllers/productController.ts:11-18 | with no term, or the empty term, the listing is exactly all rows |
| `ProductController.Create` | server/src/controllers/productController.ts:30-43 | 201 iff the id is new; then the row is added under its id exactly as supplied and every other row is kept; on an existing id, 500 "Error creating product" and the table unchanged |
| `ProductController.Update` | server/src/controllers/productController.ts:95-111 | 200 iff the row exists; then name, price, stock and rating are replaced, the id kept, the same key set and all other rows unchanged, and the new row sent back; a missing row gives 500 "Error updating product" and no change |
| `ProductController.DeleteOrDecrement` | server/src/controllers/productController.ts:52-86 | 400 iff `!productId` or `!quantity` holds, that is the id is empty or the quantity is absent or 0, with no change; 404 iff the params pass and the id is absent, with no change; the row is removed (200, body carries the removed row) iff stock <= quantity, including equality; otherwise the stock becomes stock - quantity, strictly positive, other fields and rows unchanged; no other status |
| `ProductController.OperationsKeepKeys` | server/src/controllers/productController.ts:30-106 | create, update and delete-or-decrement all keep every row stored under its own id |
| `ProductController.CreateThenList` | server/src/controllers/productController.ts:12-40 | after a successful create, the created row with the supplied fields is in every listing its name matches |
| `ProductController.DeleteThenList` | server/src/controllers/productController.ts:12-76 | after a removal no listing contains a row with that id |
| `ProductController.NegativeQuantityIncreasesStock` | server/src/controllers/productController.ts:56-85 | a negative quantity passes validation and, on a row with non-negative stock, takes the decrement branch and raises the stock |
| `ProductController.PositiveDeleteKeepsStockNonNegative` | server/src/controllers/productController.ts:71-85 | with a positive quantity and non-negative stock everywhere, stock stays non-negative after the call |
| `ProductController.DeleteExamples` | server/src/controllers/productController.ts:72-85 | stock 10: deleting 10 removes the row and reports it; deleting 4 leaves stock 6 |
| `ProductController.ProductStore.constructor` | server/src/controllers/productController.ts:4 | the store starts with the given key-consistent table |
| `ProductController.ProductStore.GetProducts` | server/src/controllers/productController.ts:10-19 | answers 200 with exactly the rows in the table whose name matches the term (all when no term) and changes nothing |
| `ProductController.ProductStore.CreateProduct` | server/src/controllers/productController.ts:25-44 | keeps the key invariant; its response and new table are those of `Create` on the old table |
| `ProductController.ProductStore.UpdateProduct` | server/src/controllers/productController.ts:93-112 | keeps the key invariant; its response and new table are those of `Update` on the old table |
| `ProductController.ProductStore.DeleteProduct` | server/src/controllers/productController.ts:47-90 | keeps the key invariant; validate, look up and branch give the response and table of `DeleteOrDecrement` on the old table |
| `ProductsPage.Page.constructor` | client/src/app/products/page.tsx:24-28 | empty search, modal closed, both modes off, no product selected; the mode invariant holds |
| `ProductsPage.Page.SearchQuery` | client/src/app/products/page.tsx:24-30 | the list hook is called with the current term; with the initial empty term the listing is every row of any table |
| `ProductsPage.Page.SubmitHandler` | client/src/app/products/page.tsx:165-171 | the `onSubmit` choice (delete mode first, then edit mode, else create); in a valid page state: the delete handler is bound iff delete mode is on, the edit handler iff edit mode is on, and either is bound only while a product is selected, so the `if (!currentProduct) return` guards of page.tsx:41,48 never fire for a bound handler |
| `ProductsPage.Page.SetSearchTerm` | client/src/app/products/page.tsx:90 | sets the search term, nothing else |
| `ProductsPage.Page.OpenDeleteModal` | client/src/app/products/page.tsx:54-59 | selects the product, delete mode on, edit mode off, modal open; invariant kept |
| `ProductsPage.Page.OpenEditModal` | client/src/app/products/page.tsx:61-66 | selects the product, edit mode on, delete mode off, modal open; invariant kept |
| `ProductsPage.Page.OpenCreateModal` | client/src/app/products/page.tsx:100-105 | modal open, both modes off, no product selected; invariant kept |
| `ProductsPage.Page.CloseModal` | client/src/app/products/page.tsx:164 | only the open flag is cleared; modes and selection unchanged |
| `ProductsPage.Page.HandleCreateProduct` | client/src/app/products/page.tsx:35-38 | sends the form unchanged as a create request, then closes the modal |
| `ProductsPage.Page.HandleEditProduct` | client/src/app/products/page.tsx:40-45 | with no selection: no request and the modal stays as it was; otherwise sends the form with its id forced to the selected product's, then closes |
| `ProductsPage.Page.HandleDeleteProduct` | client/src/app/products/page.tsx:47-52 | with no selection: no request and the modal stays as it was; otherwise sends the selected id with the quantity, then closes |
| `CreateProductModal.ToFormData` | client/src/app/products/CreateProductModal.tsx:40 | the `{...initialData}` copy of a listed row into the form, id included (page.tsx:172 passes the selected row) |
| `CreateProductModal.Modal.constructor` | client/src/app/products/CreateProductModal.tsx:28-35 | the form starts empty with all numbers 0 and the delete quantity 0 |
| `CreateProductModal.Modal.Render` | client/src/app/products/CreateProductModal.tsx:37-42 | when the prop changed and is present the form becomes a copy of it; when it is absent or unchanged the form keeps its value; the delete quantity is untouched |
| `CreateProductModal.Modal.SetName` | client/src/app/products/CreateProductModal.tsx:112-114 | only the name field of the form changes |
| `CreateProductModal.Modal.SetPrice` | client/src/app/products/CreateProductModal.tsx:127-129 | only the price field of the form changes |
| `CreateProductModal.Modal.SetStockQuantity` | client/src/app/products/CreateProductModal.tsx:142-144 | only the stock field of the form changes, to the parsed value (NaN included) |
| `CreateProductModal.Modal.SetRating` | client/src/app/products/CreateProductModal.tsx:157-159 | only the rating field of the form changes |
| `CreateProductModal.Modal.SetQuantityToDelete` | client/src/app/products/CreateProductModal.tsx:80 | the delete quantity becomes the parsed value, NaN included; the form is untouched |
| `CreateProductModal.Modal.HandleDeleteSubmit` | client/src/app/products/CreateProductModal.tsx:44-52 | fires `onSubmit({quantity})` then `onClose` exactly when both are numbers and 0 < quantity <= shown stock, else (NaN on either side included) only the alert; any submitted quantity lies in (0, shown stock] |
| `CreateProductModal.Modal.HandleFormSubmit` | client/src/app/products/CreateProductModal.tsx:100-104 | passes the whole form, unvalidated, to `onSubmit`, then `onClose` |
| `CreateProductModal.Modal.Submit` | client/src/app/products/CreateProductModal.tsx:54-104 | a closed modal fires nothing; delete mode uses the guarded delete submit, otherwise the form submit; a quantity payload is sent iff in delete mode |
| `CreateProductModal.DefaultAndNaNRejected` | client/src/app/products/CreateProductModal.tsx:35-51 | the initial quantity 0 and NaN are rejected whatever the stock |
| `DeleteProductModal.Modal.constructor` | client/src/app/products/DeleteProductModal.tsx:17 | the quantity starts at 1 |
| `DeleteProductModal.Modal.SetQuantity` | client/src/app/products/DeleteProductModal.tsx:38 | stores the parsed number unclamped, so zero, negatives and NaN are reachable |
| `DeleteProductModal.Modal.HandleConfirm` | client/src/app/products/DeleteProductModal.tsx:21-28 | a positive quantity fires `onConfirm(quantity)` then `onClose`; anything else (zero, negative, NaN) only alerts; no stock enters the rule |
| `DeleteProductModal.Modal.PressDelete` | client/src/app/products/DeleteProductModal.tsx:19-44 | a closed modal renders no button and fires nothing; an open one behaves as `HandleConfirm` |
| `AddQuantityModal.ClampToOne` | client/src/app/products/AddQuantityModal.tsx:33 | `Math.max(1, n)`: NaN stays NaN; a number becomes at least 1 and at least itself, and is unchanged when already at least 1 |
| `AddQuantityModal.Modal.constructor` | client/src/app/products/AddQuantityModal.tsx:11 | the quantity starts at 1 |
| `AddQuantityModal.Modal.SetQuantity` | client/src/app/products/AddQuantityModal.tsx:33 | stores the clamped value, so the field holds NaN or a number of at least 1 |
| `AddQuantityModal.Modal.HandleSubmit` | client/src/app/products/AddQuantityModal.tsx:13-17 | with no guard fires `onConfirm(quantity)` then `onClose`; a confirmed number is at least 1 |
| `AddQuantityModal.Modal.Submit` | client/src/app/products/AddQuantityModal.tsx:13-25 | a closed modal renders no form and fires nothing; an open one confirms and closes |
| `EndToEnd.RequestProduct` | server/src/controllers/productController.ts:30-38 | the row the create handler builds from the body page.tsx:35-36 sends: a body describes a product iff every numeric field is a number and the id is present, and then it is that product's form |
| `EndToEnd.RequestProductRoundTrip` | server/src/controllers/productController.ts:30-38 | a listed row copied into the form, sent (page.tsx:35-36) and read back from the body is exactly that row again |
| `EndToEnd.InitialDataRoundTrip` | client/src/app/products/page.tsx:172 | the `initialData` prop is absent iff no product is selected; otherwise, read back as a request body, it is the selected row |
| `EndToEnd.AcceptedDeleteRemovesOnlyAtFullStock` | client/src/app/products/CreateProductModal.tsx:44-48 | for a quantity the delete form accepts against the stored stock, the server removes the row iff the quantity equals the stock, else leaves between 1 and stock - 1 |
| `EndToEnd.DeleteFromCard` | client/src/app/products/page.tsx:47-59 | only when the modal was last rendered with another product (or never), so that opening copies the card's row into the form: Delete on a card, type, submit: a request reaches the store iff 0 < typed <= card stock; a refused quantity changes nothing and the modal stays open; a sent one closes the modal, gives 400 for an empty id, else 200 with removal iff typed == stock, otherwise stock - typed >= 1 left |
| `EndToEnd.CancelledEditKeepsEditedStock` | client/src/app/products/CreateProductModal.tsx:38-42 | after edit, stock change, cancel and Delete on the same card, the delete form shows and checks against the edited stock |
| `EndToEnd.StaleDeleteRemovesRow` | client/src/app/products/CreateProductModal.tsx:38-48 | after edit, raising the stock field to e, cancel and Delete on the same card, a quantity q with stock < q <= e is accepted, sent, and the server removes the whole row (200 with the removed row) |
| `EndToEnd.CreateAfterEditReusesId` | client/src/app/products/page.tsx:100-105 | Create after an edit submits the edited card's row with its id; the store answers 500 and is unchanged |

## Left out

- Prisma and Express plumbing: the client object, `req`/`res`, JSON encoding. The store is a map and a response is a datatype.
- Store failures other than the primary-key constraint and a missing row for update: connectivity errors and type errors. So `getProducts` never answers 500 here. The delete handler's 500 branch ("Error processing request") cannot be reached either, because each handler is atomic over the map.
- The read-then-write race in `deleteProduct` under concurrent requests. Every handler runs atomically.
- JavaScript coercion of arbitrary JSON values in `!productId`, `!quantity` and `<=`. Only these cases are modelled:
  - the id is a string, and the empty string is the missing one;
  - the quantity is an optional integer;
  - client numbers are integers or NaN.
- What the store answers to a body with absent fields is not modelled. This includes a fresh Create, whose form carries no id; the model gives every field of a row a value.
- HTML form validation of `required` fields: the browser does not submit a form whose required number field is empty. The model lets every submit reach its handler, so the NaN cases of `CreateProductModal.Modal.HandleDeleteSubmit` and `AddQuantityModal.Modal.HandleSubmit` arise only when that validation is bypassed.
- The `error` object that the 500 bodies of the delete and update handlers carry beside the message; `Message` holds only the text.
- JavaScript number precision and the width of the integer stock column. `stockQuantity - quantity` is unbounded here, so under a negative quantity the stock grows without limit.
- Floating-point price parsing and the two-decimal price display. Price and rating are opaque integers.
- `ProductController.ProductStore.GetProducts`: the listing is a set, so the order of the rows in the JSON array is not modelled. Prisma gives no order without `orderBy`.
- A repeated `search` query parameter turned into text by `toString()`.
- RTK Query hooks: caching, refetching after mutations, and the awaiting of responses. The loading and error views of the page are left out too.
- How the list hook turns the term into the `search` query parameter (that code is not part of this model). An empty term lists the same rows whether it is sent as `""` or omitted; `ProductController.ListAllRows` covers both.
- `CreateProductModal.Modal.Render`: React re-runs the effect when the `initialData` reference changes. The model re-runs it when the value changes. The two differ only when a refetch yields an equal-valued new object after the form was edited.
- JSX, styling, the Cancel buttons as displayed elements, and `alert` dialogs. An alert is an event in the output.
- The random card image index.
- The dashboard page, the Next.js configuration and the route wiring. The routes only name the four operations.
