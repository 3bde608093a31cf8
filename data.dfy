/** The store the controllers share: the product table and the sales with
    their lines, plus the identity counters the database hands out. */
module Data {
  import opened Models

  /** Some stored line of some sale names this product. */
  predicate Referenced(vs: seq<Venta>, productoId: int) {
    exists i, k :: 0 <= i < |vs| && 0 <= k < |vs[i].detalles| && vs[i].detalles[k].productoId == productoId
  }

  /** Every line of a stored sale points back to it, sold a positive
      quantity at a price of at least 0.01, and names a product id the table
      has handed out. */
  predicate LinesWellFormed(v: Venta, nextProductoId: int) {
    forall k :: 0 <= k < |v.detalles| ==>
      && v.detalles[k].ventaId == v.id
      && v.detalles[k].cantidad > 0
      && v.detalles[k].precio >= MinMoney
      && 0 < v.detalles[k].productoId < nextProductoId
  }

  /** A stored sale's total is the sum of its lines' subtotals, and at least
      0.01. */
  predicate TotalMatchesLines(v: Venta) {
    v.total == SumSubtotals(v.detalles) && v.total >= MinMoney
  }

  /** Every stored sale's total agrees with its lines. */
  predicate TotalsConsistent(vs: seq<Venta>) {
    forall i :: 0 <= i < |vs| ==> TotalMatchesLines(vs[i])
  }

  /** The three products the database is seeded with. */
  const SeedProductos: map<int, Producto> := map[
    1 := Producto(1, "Pan Francés", 25, 100, "Pan"),
    2 := Producto(2, "Pan Dulce", 50, 50, "Pan"),
    3 := Producto(3, "Pastel de Chocolate", 1500, 10, "Pasteles")
  ]

  class PanaderiaContext {
    var productos: map<int, Producto>
    var ventas: seq<Venta>
    var nextProductoId: int
    var nextVentaId: int

    /** Keys are identities handed out from the counters and agree with the
        rows' ids, no stock is negative, every price is at least 0.01, sale
        ids are distinct and every sale's total agrees with its lines. The
        declared upper bounds (stock 100000, quantity 1000, total 999999.99)
        are not part of it: sales and stock edits do not re-check them. */
    ghost predicate Valid()
      reads this
    {
      && 0 < nextProductoId && 0 < nextVentaId
      && (forall id :: id in productos ==>
            && 0 < id < nextProductoId && productos[id].id == id
            && productos[id].stock >= 0 && productos[id].precio >= MinMoney)
      && (forall i :: 0 <= i < |ventas| ==>
            0 < ventas[i].id < nextVentaId && LinesWellFormed(ventas[i], nextProductoId))
      && (forall i, j :: 0 <= i < j < |ventas| ==> ventas[i].id != ventas[j].id)
      && TotalsConsistent(ventas)
    }

    /** A freshly created database: the seed products and no sales. */
    constructor ()
      ensures Valid()
      ensures productos == SeedProductos && ventas == []
      ensures nextProductoId == 4 && nextVentaId == 1
    {
      productos := SeedProductos;
      ventas := [];
      nextProductoId := 4;
      nextVentaId := 1;
    }
  }
}
