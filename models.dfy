/** The three entities of the bakery's data model and the ranges their
    annotations declare. Prices and totals are decimal(18,2) in the store,
    which is exact; here they are whole cents. */
module Models {
  import opened Text

  /** 0.01 and 999999.99 in cents: the declared range of every price and total. */
  const MinMoney: int := 1
  const MaxMoney: int := 99_999_999
  const MaxStock: int := 100_000
  const MinNombre: int := 3
  const MaxNombre: int := 200
  const MaxCategoria: int := 100
  const MaxCantidad: int := 1000

  datatype Producto = Producto(id: int, nombre: string, precio: int, stock: int, categoria: string)

  /** What binding a request body checks for a product: a required name of
      3 to 200 characters, a price in [0.01, 999999.99], a stock in
      [0, 100000] and a required category of at most 100 characters. */
  predicate ProductoValid(p: Producto) {
    && NotBlank(p.nombre) && MinNombre <= |p.nombre| <= MaxNombre
    && MinMoney <= p.precio <= MaxMoney
    && 0 <= p.stock <= MaxStock
    && NotBlank(p.categoria) && |p.categoria| <= MaxCategoria
  }

  /** One line of a sale: its parent sale, the product sold, how many, and
      the unit price frozen at the time of the sale. */
  datatype DetalleVenta = DetalleVenta(ventaId: int, productoId: int, cantidad: int, precio: int) {
    /** Derived, never stored. */
    function Subtotal(): int { cantidad * precio }
  }

  /** The declared ranges of a line: quantity 1..1000, unit price 0.01..999999.99. */
  predicate DetalleVentaValid(d: DetalleVenta) {
    1 <= d.cantidad <= MaxCantidad && MinMoney <= d.precio <= MaxMoney
  }

  /** A sale: the timestamp is an input (the server clock), the owner is a user id. */
  datatype Venta = Venta(id: int, fecha: int, total: int, usuarioId: int, detalles: seq<DetalleVenta>)

  /** Sum of the line subtotals, accumulated front to back. */
  function SumSubtotals(ds: seq<DetalleVenta>): int {
    if ds == [] then 0 else SumSubtotals(ds[..|ds| - 1]) + ds[|ds| - 1].Subtotal()
  }

  /** A line inside its declared ranges has a subtotal of at least 0.01 and
      at most 1000 times the largest price. */
  lemma SubtotalWithinDeclaredRange(d: DetalleVenta)
    requires DetalleVentaValid(d)
    ensures MinMoney <= d.Subtotal() <= MaxCantidad * MaxMoney
  {
    assert d.cantidad * d.precio <= MaxCantidad * d.precio;
    assert MaxCantidad * d.precio <= MaxCantidad * MaxMoney;
  }

  /** A non-empty list of lines with positive quantities and prices has a
      total of at least 0.01. */
  lemma {:induction false} SumSubtotalsPositive(ds: seq<DetalleVenta>)
    requires ds != []
    requires forall k :: 0 <= k < |ds| ==> ds[k].cantidad > 0 && ds[k].precio > 0
    ensures SumSubtotals(ds) >= MinMoney
  {
    var n := |ds|;
    var d := ds[n - 1];
    assert d.Subtotal() >= 1 by {
      assert d.cantidad * d.precio >= 1 * d.precio;
    }
    if n > 1 {
      SumSubtotalsPositive(ds[..n - 1]);
    }
  }
}
