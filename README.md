# Panaderia: verified model of the sales and catalog controllers

This project models the core of the Panaderia bakery API, an ASP.NET Core service backed by
Entity Framework. The core has two parts:

- **api/Ventas** records, lists and deletes sales. Posting a sale checks each requested line in
  order: the quantity must be positive, the product must exist, and there must be enough stock.
  The stock is decremented as each line passes. The current price is frozen into the line, and
  the sale total is accumulated. The stock changes and the sale are committed together, or the
  first refusal cancels the whole sale. Deleting a sale gives each line's quantity back to its
  product.
- **api/Productos** manages the catalog. It validates create and update bodies, changes a
  product's stock, refuses to delete a product that any sale line names, and lists products by
  category, by name and by category match.

How the model is laid out:

- **`Models`**: the three entities and the ranges their annotations declare. Money is in whole
  cents, because `decimal(18,2)` is exact.
- **`Data`**: the store as a class. It holds the product table, the sales and the identity
  counters, with the invariant every action keeps.
- **`SaleEngine`**: the sale workflow as functions. `Apply` is what the posting loop does, and
  `Restore` is what deletion gives back.
- **`Controllers`**: the actions as methods on controller classes that hold the store. Each
  method is proved against those functions.
- **`SaleQueries`** and **`Catalog`**: the read endpoints as functions.
- **`Sorting`**: a sort for the orders the queries ask the database for (`OrderBy`, `ThenBy`, `OrderByDescending`). The database promises nothing about ties, so the stable sort here picks one of the orders it may return.
- **`Text`**: blank checks, case-insensitive equality and ordinal string order.
- **`Responses`**: error outcomes and their HTTP status codes.
- **`Scenarios`**: the seeded-catalog examples and the post-then-delete round trip.

External inputs are parameters:

- the token's user id claim (`Option<int>`);
- the server clock (`fecha`);
- whether the database accepts the sale's save and commit (`dbAccepts`).

## Model

| member | source | states |
|---|---|---|
| Responses.StatusCode | Panaderia.API/Controllers/VentasController.cs:63-143 | a missing claim answers 401, a failed save answers 500, an absent sale or an absent product addressed by id answers 404, and every other refusal answers 400 (including a sale line naming an unknown product) |
| Models.SubtotalWithinDeclaredRange | Panaderia.API/Models/DetalleVenta.cs:16-27 | a line inside its declared ranges has a subtotal of at least 0.01 and at most 1000 × 999999.99 |
| Models.ProductoValid | Panaderia.API/Models/Producto.cs:10-25 | the product annotations: a non-blank name of 3 to 200 characters, a price of 1 to 99999999 cents, a stock of 0 to 100000, and a non-blank category of at most 100 characters |
| Models.DetalleVentaValid | Panaderia.API/Models/DetalleVenta.cs:16-23 | the sale line annotations: a quantity of 1 to 1000 and a unit price of 1 to 99999999 cents |
| Models.DetalleVenta.Subtotal | Panaderia.API/Models/DetalleVenta.cs:25-27 | a line's subtotal is its quantity times its unit price. It is derived, never stored |
| Models.SumSubtotals | Panaderia.API/Controllers/VentasController.cs:121 | the sum of the lines' subtotals, in line order |
| Models.SumSubtotalsPositive | Panaderia.API/Models/Venta.cs:14-16 | non-empty lines with positive quantities and prices add up to at least 0.01, the bottom of a total's declared range |
| Data.Referenced | Panaderia.API/Controllers/ProductosController.cs:184-185 | some line of some stored sale names the product, which is the `AnyAsync` test on the lines table |
| Data.LinesWellFormed | Panaderia.API/Data/PanaderiaContext.cs:28-36 | every line of a sale points back to that sale, has a positive quantity and a price of at least 0.01, and names a product id the table has handed out. Only the line-to-sale key is kept exactly. The product key is kept only as far as `DeleteProducto`'s guard keeps it, and the invariant does not state that the named product is still stored |
| Data.TotalMatchesLines | Panaderia.API/Controllers/VentasController.cs:121-124 | a stored sale's total is the sum of its lines' subtotals, and at least 0.01 |
| Data.PanaderiaContext.Valid | Panaderia.API/Data/PanaderiaContext.cs:13-36 | the store invariant. Product keys are identities below the counter that agree with the rows' ids, stocks are non-negative and prices are at least 0.01. Sale ids are distinct identities below their counter, every sale's lines are well formed, and every total matches its lines |
| Data.PanaderiaContext.constructor | Panaderia.API/Data/PanaderiaContext.cs:44-48 | a new store holds exactly the three seeded products and no sales, the next product id is 4, and the store invariant holds. The invariant says: stocks are non-negative, prices are at least 0.01, and every sale's total is the sum of its lines and at least 0.01 |
| SaleEngine.Lines | Panaderia.API/Controllers/VentasController.cs:75 | a null line list reads as no lines, and otherwise the lines as sent |
| SaleEngine.Step | Panaderia.API/Controllers/VentasController.cs:93-121 | one pass of the loop: refuse a quantity of 0 or less, then an unknown product, then a stock below the quantity (reporting the name, the stock left and the quantity). Otherwise decrement the stock, add a line with the current price, and add price × quantity to the total |
| SaleEngine.Apply | Panaderia.API/Controllers/VentasController.cs:91-122 | the loop over the lines in request order, starting from the stored products, no lines and a zero total, and stopping at the first refusal |
| SaleEngine.ApplyPrefixFailure | Panaderia.API/Controllers/VentasController.cs:91-107 | once any line is refused, the whole sale is refused with that line's error, whatever follows |
| SaleEngine.ApplyStock | Panaderia.API/Controllers/VentasController.cs:97-110 | a served sale keeps the same products, and each one changes only in stock, which drops by the sum of the quantities all lines asked of it (repeated ids add up) |
| SaleEngine.ApplyNeverOversells | Panaderia.API/Controllers/VentasController.cs:101-110 | no served sale leaves a product it touched with a negative stock |
| SaleEngine.ApplyLines | Panaderia.API/Controllers/VentasController.cs:113-120 | the stored lines are the requested lines in order, each with the new sale's id, a positive quantity, an existing product and that product's price at the time of the sale |
| SaleEngine.ApplyTotal | Panaderia.API/Controllers/VentasController.cs:121-124 | the total is the sum of the stored lines' subtotals |
| SaleEngine.ApplyTotalPositive | Panaderia.API/Controllers/VentasController.cs:121-124 | with positive prices, a served non-empty sale totals at least 0.01. This is the lower end of a total's declared range, and the store invariant carries it |
| SaleEngine.ApplySucceedsIffFeasible | Panaderia.API/Controllers/VentasController.cs:91-122 | a sale is served if and only if every line, in order, has a positive quantity, an existing product and stock covering everything asked of that product so far |
| SaleEngine.ApplyFailsAtFirstInfeasible | Panaderia.API/Controllers/VentasController.cs:94-107 | when line k is the first that cannot be served, the sale is refused with line k's error, and a stock refusal reports what earlier lines left |
| SaleEngine.ApplyErrorIsFirstInfeasible | Panaderia.API/Controllers/VentasController.cs:94-107 | every refusal is the error of the first line that cannot be served |
| SaleEngine.RestoreLine | Panaderia.API/Controllers/VentasController.cs:190-194 | gives one line's quantity back to its product, and skips a product that no longer exists |
| SaleEngine.Restore | Panaderia.API/Controllers/VentasController.cs:188-195 | gives back every line of a sale, in stored order |
| SaleEngine.RestoreStock | Panaderia.API/Controllers/VentasController.cs:188-195 | giving back a sale's lines keeps the same products and raises each one's stock by exactly what the lines took of it |
| SaleEngine.SoldIsRequested | Panaderia.API/Controllers/VentasController.cs:113-120 | stored lines that copy the requested ids and quantities take of each product what the request asked of it |
| SaleEngine.RestoreUndoesApply | Panaderia.API/Controllers/VentasController.cs:188-195 | giving back the lines of a served sale returns the product table to exactly its state before the sale |
| Controllers.ServeLines | Panaderia.API/Controllers/VentasController.cs:91-122 | the loop over the requested lines yields exactly the refusal or the stock, lines and total that `Apply` defines |
| Controllers.VentasController.PostVenta | Panaderia.API/Controllers/VentasController.cs:63-143 | refuses a missing claim (Unauthorized), then an empty or null list (EmptySale), then the first line that cannot be served. A refused or failed save changes nothing. Otherwise the decremented stocks and the new sale, owned by the token's user, are committed together, and the store invariant is kept, so the new sale's total is the sum of its lines |
| Controllers.VentasController.DeleteVenta | Panaderia.API/Controllers/VentasController.cs:178-201 | an unknown id gives NotFound and changes nothing. Otherwise every existing product gets back what the sale's lines took, the sale is removed, the other sales are left in place, and the invariant is kept |
| Controllers.ProductosController.PostProducto | Panaderia.API/Controllers/ProductosController.cs:70-92 | an invalid body changes nothing. A valid one is stored under a fresh id, and no sale line names that id yet. Whatever sale lines the body carries, the stored sales are left exactly as they were, and nothing else changes |
| Controllers.ProductosController.PutProducto | Panaderia.API/Controllers/ProductosController.cs:100-142 | refuses an invalid body (model validation runs before the action), then an id mismatch, then an absent row (NotFound), changing nothing in each case. Otherwise the body replaces the row, and stored sales keep their frozen prices |
| Controllers.ProductosController.UpdateStock | Panaderia.API/Controllers/ProductosController.cs:150-167 | succeeds if and only if the product exists and the new stock is non-negative, and NotFound is checked first. On success only that product's stock changes, to the requested value |
| Controllers.ProductosController.DeleteProducto | Panaderia.API/Controllers/ProductosController.cs:175-200 | succeeds if and only if the product exists and no sale line names it. A referenced product is refused with a 400, and only the deleted row leaves the table |
| SaleQueries.FindVenta | Panaderia.API/Controllers/VentasController.cs:180-182 | finds the first sale with the id, and finds nothing exactly when no sale has it |
| SaleQueries.GetVenta | Panaderia.API/Controllers/VentasController.cs:43-55 | returns a stored sale with the id if and only if one exists, and NotFound otherwise |
| SaleQueries.NewerOrSame | Panaderia.API/Controllers/VentasController.cs:33 | the descending-date order: a sale comes before another when its date is not earlier |
| SaleQueries.NewerOrSameIsTotalPreorder | Panaderia.API/Controllers/VentasController.cs:33 | ordering by descending date is a total preorder, so the sort is well defined |
| SaleQueries.GetVentas | Panaderia.API/Controllers/VentasController.cs:27-37 | lists every sale exactly as often as it is stored, newest first |
| SaleQueries.OwnedBy | Panaderia.API/Controllers/VentasController.cs:165 | keeps the sales whose owner is the user, in stored order |
| SaleQueries.OwnedByCounts | Panaderia.API/Controllers/VentasController.cs:165 | the owner filter keeps each of the user's sales as often as it occurs, and no other sale |
| SaleQueries.GetMisVentas | Panaderia.API/Controllers/VentasController.cs:151-170 | Unauthorized if and only if the claim is missing. Otherwise it lists exactly the caller's sales, each once per occurrence, newest first |
| Catalog.ValidateProducto | Panaderia.API/Controllers/ProductosController.cs:72-86 | accepts a body if and only if it meets the name, price, stock and category annotations, and always refuses a non-positive price or a negative stock |
| Catalog.ExplicitChecksAreSubsumed | Panaderia.API/Controllers/ProductosController.cs:77-86 | the explicit price and stock checks never decide, because model validation refuses those bodies first |
| Catalog.ValidateUpdate | Panaderia.API/Controllers/ProductosController.cs:102-121 | an invalid body is refused as InvalidModel whatever the ids, because model binding runs before the action. A valid body whose id differs from the route id is refused as IdMismatch. It accepts exactly a valid body with a matching id |
| Catalog.GetProducto | Panaderia.API/Controllers/ProductosController.cs:38-48 | returns the stored row if and only if the id is present, and NotFound otherwise |
| Catalog.ProductOrder | Panaderia.API/Controllers/ProductosController.cs:28-29 | category first, then name within the same category, both in ordinal order |
| Catalog.ProductOrderIsTotalPreorder | Panaderia.API/Controllers/ProductosController.cs:27-30 | ordering by category, then by name, is a total preorder |
| Catalog.GetProductos | Panaderia.API/Controllers/ProductosController.cs:25-31 | lists every stored product, one entry per row, ordered by category and then by name within a category |
| Catalog.WithCategoria | Panaderia.API/Controllers/ProductosController.cs:57-59 | keeps each product whose category equals the query ignoring case as often as it occurs, and no other product |
| Catalog.GetProductosPorCategoria | Panaderia.API/Controllers/ProductosController.cs:55-62 | lists exactly the stored products whose category equals the query ignoring case |
| Catalog.AddNestedLines | Panaderia.API/Controllers/ProductosController.cs:88-89 | as the creation action is written, adding the bound product also adds the sale lines the body carries. On success the number of sales stays the same, each sale keeps its id and total and loses no lines, and some line names the new product. A failure is always a failed save |
| Catalog.LinesFor | Panaderia.API/Controllers/ProductosController.cs:88 | the nested lines that name one sale, in body order, each made to point at the new product |
| Catalog.AddNestedLinesSucceedsIffNamed | Panaderia.API/Controllers/ProductosController.cs:88-89 | the save succeeds if and only if every nested line names a stored sale (the foreign key) |
| Catalog.AddNestedLinesJoinsNamedSales | Panaderia.API/Controllers/ProductosController.cs:88-89 | with distinct sale ids (the primary key), a successful save gives each sale, after its own lines, exactly the nested lines naming it, pointed at the new product. Nothing else about any sale changes, its total included |
| Catalog.NestedLineBreaksSaleTotal | Panaderia.API/Controllers/ProductosController.cs:70-92 | a body carrying one line for stored sale 1 makes that sale name the new product and leaves its total below the sum of its lines |
| Catalog.GetCategorias | Panaderia.API/Controllers/ProductosController.cs:207-216 | lists exactly the categories present in the table, each once, in strictly ascending order |
| Text.NotBlank | Panaderia.API/Models/Producto.cs:10 | a required string has at least one character that is not white space |
| Text.EqualsIgnoreCase | Panaderia.API/Controllers/ProductosController.cs:58 | two strings are equal after lower-casing both |
| Text.EqualsIgnoreCasePointwise | Panaderia.API/Controllers/ProductosController.cs:58 | two strings are equal after lower-casing if and only if they have the same length and agree character by character after lower-casing |
| Text.StrLessEqTotal | Panaderia.API/Controllers/ProductosController.cs:212 | any two strings are comparable in ordinal order |
| Text.StrLessEqTransitive | Panaderia.API/Controllers/ProductosController.cs:212 | ordinal order is transitive |
| Text.StrLessEqAntisymmetric | Panaderia.API/Controllers/ProductosController.cs:212 | strings ordered both ways are equal |
| Sorting.SortPermutes | Panaderia.API/Controllers/ProductosController.cs:27-30 | sorting keeps every element exactly as many times |
| Sorting.SortSorted | Panaderia.API/Controllers/ProductosController.cs:27-30 | under a total preorder, the sorted sequence is ordered |
| Scenarios.NewestSaleIsFoundLast | Panaderia.API/Controllers/VentasController.cs:180-197 | a sale whose id is above every stored one is found at the end, and removing it gives back the earlier sales |
| Scenarios.SeedSaleRefused | Panaderia.API/Controllers/VentasController.cs:101-107 | on the seeded catalog, 30 of product 1 and 60 of product 2 is refused with "Pan Dulce", 50 available, 60 requested |
| Scenarios.SeedSaleCommitted | Panaderia.API/Controllers/VentasController.cs:109-124 | on the seeded catalog, 30 of product 1 and 20 of product 2 leaves stocks of 70 and 30, leaves product 3 as it was, and totals 17.50 |
| Scenarios.SaleThenDeletion | Panaderia.API/Controllers/VentasController.cs:188-197 | deleting the sale just posted succeeds and restores both the product table and the sale list |

## Left out

- Authentication and roles are not modelled. The JWT middleware and the `[Authorize(Roles = ...)]` attributes are outside the model: posting and listing one's own sales need Admin or Vendedor, and deleting a sale or changing the catalog needs Admin. Only the user id claim enters, as a parameter.
- A user id claim that `int.Parse` rejects is not modelled. The source then throws an unhandled exception.
- The users controller, the JWT service and `Program.cs` are not part of this model.
- Concurrency between requests and database isolation levels are not modelled. Each action is one sequential step on the store.
- The reload with `Include` after posting a sale, and the navigation properties `Usuario` and `Producto`, are not modelled. The response is the sale as committed.
- Persistence failures are not modelled outside `PostVenta`. `PutProducto` models the concurrency exception only as "the row is gone gives NotFound"; a rethrown exception is not modelled.
- Line ids (`DetalleVenta.Id`) are not modelled, and neither is cascade deletion of lines. A sale's lines live inside the sale value.
- Controllers.ProductosController.PostProducto: the store assigns the new id, whatever the body holds. A body with a non-zero id makes the database reject the insert; that path is not modelled.
- Controllers.ProductosController.PostProducto: the sale lines a bound body carries (`DetallesVenta`) are ignored, and the stored sales stay unchanged. The source as written would insert them (see Findings); `Catalog.AddNestedLines` models that behaviour. The nested lines' own annotations (Panaderia.API/Models/DetalleVenta.cs:16-23) are not validated either. In the source, a nested line with quantity 0 makes automatic model validation answer 400, but the model accepts it.
- Catalog.AddNestedLines: nested lines are modelled only as references by `ventaId` to sales already stored. A nested line can also carry its own `venta` object (Panaderia.API/Models/DetalleVenta.cs:30). The source would insert that object as a new sale, with any total and any owner; the model does not create sales this way.
- Controllers.VentasController.PostVenta: a `null` element inside `detalles` is not modelled, because a Dafny sequence cannot hold a null line. In the source that element passes binding and throws at VentasController.cs:94. The throw is caught at :138-141, the transaction is rolled back, and the action answers 500 with nothing saved.
- Controllers.VentasController.DeleteVenta: stocks are unbounded integers here. The source's `int` stock could wrap around when large quantities are given back.
- Controllers.ProductosController.UpdateStock: as in the source, it does not enforce the declared stock maximum of 100000, and sales do not re-check the declared quantity and total maxima. The store invariant therefore carries only the lower bounds.
- The upper ends of the declared `[Range]` annotations on a sale line's quantity and on a sale's total are not part of the store invariant. The source does not check them when it saves a sale. Only their lower ends are carried.
- Prices are whole cents. Rounding beyond two decimals is not modelled.
- Text handling is simplified. `NotBlank` knows only ASCII white space, lower-casing is ASCII-only instead of the culture-aware `ToLower`, and comparison is ordinal instead of the database collation. That covers the ordering (`OrderBy`), the equality of the category filter (ProductosController.cs:58) and `Distinct` (ProductosController.cs:211). Under a case-insensitive collation, "Pan" and "pan" would be one category, while `Catalog.GetCategorias` lists both. String lengths count code points, not UTF-16 units.
- Catalog.GetProductosPorCategoria: the order in which the database returns the rows of an unordered query is not modelled. The result is stated as a set of rows, and a table listing is any one-row-per-key sequence. The same holds for ties in the sorted listings.
- The sale timestamp (`DateTime.Now`) is the parameter `fecha`, and the database's commit decision is the parameter `dbAccepts`.
- The explicit price and stock checks in `PostProducto` and `PutProducto` are modelled after automatic model validation, which `[ApiController]` runs before the action. As proved, they can never fire.

## Findings

| source | as written | input that shows it | evidently intended | confidence | as-written member | corrected member |
|---|---|---|---|---|---|---|
| Panaderia.API/Controllers/ProductosController.cs:70-92 | the action binds the whole `Producto` entity, including its `DetallesVenta` collection (Panaderia.API/Models/Producto.cs:28). `Productos.Add(producto)` then inserts every line in that collection. If a nested line carries its own `venta` object (Panaderia.API/Models/DetalleVenta.cs:30), that object is inserted as a new sale, with whatever total and owner the body gives. | a valid body with `detallesVenta: [{ventaId: 1, productoId: 0, cantidad: 5, precio: 0.01}]` while sale 1 exists with one line of 1 × 0.25 and total 0.25. Likewise, a nested line `{productoId: 0, cantidad: 1, precio: 0.01, venta: {usuarioId: 2, total: 5000}}` inserts a new sale owned by user 2, totalling 5000.00, whose only line sums to 0.01 | creating a product touches no sale: a new product has no sale lines, and every sale's total stays the sum of its lines | medium, not executed | Catalog.NestedLineBreaksSaleTotal | Controllers.ProductosController.PostProducto |
