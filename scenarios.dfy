/** Worked examples over the seeded catalog, and the sale/reversal round
    trip stated on the controllers. */
module Scenarios {
  import opened Models
  import opened Responses
  import opened Data
  import opened SaleEngine
  import opened SaleQueries
  import opened Controllers

  /** A newly committed sale carries an id above every stored one, so a
      lookup by that id finds the appended sale, and removing it leaves the
      earlier sales exactly as they were. */
  lemma {:induction false} NewestSaleIsFoundLast(vs: seq<Venta>, v: Venta)
    requires forall i :: 0 <= i < |vs| ==> vs[i].id < v.id
    ensures FindVenta(vs + [v], v.id) == Some(|vs|)
    ensures var all := vs + [v]; all[..|vs|] + all[|vs| + 1..] == vs
  {
    var all := vs + [v];
    assert all[|vs|] == v;
    assert FindVenta(all, v.id).Some?;
    assert forall j :: 0 <= j < |vs| ==> all[j] == vs[j];
    assert all[..|vs|] == vs;
  }

  /** Product 1 (stock 100) and product 2 (stock 50): asking for 30 and 60
      fails on the second line and reports 50 available, so nothing is sold. */
  lemma SeedSaleRefused()
    ensures Apply(SeedProductos, [DetalleVentaRequest(1, 30), DetalleVentaRequest(2, 60)], 1)
            == Err(InsufficientStock("Pan Dulce", 50, 60))
  {
  }

  /** Asking for 30 and 20 succeeds: stocks become 70 and 30, and the total
      is 30 x 0.25 + 20 x 0.50 = 17.50. */
  lemma SeedSaleCommitted()
    ensures var r := Apply(SeedProductos, [DetalleVentaRequest(1, 30), DetalleVentaRequest(2, 20)], 1);
            && r.Ok?
            && r.value.productos[1].stock == 70
            && r.value.productos[2].stock == 30
            && 3 in r.value.productos && r.value.productos[3] == SeedProductos[3]
            && r.value.total == 1750
  {
  }

  /** Deleting the sale that was just created puts the store back: every
      product has its old stock again and the sale list is what it was. */
  method SaleThenDeletion(controller: VentasController, userIdClaim: Option<int>, request: VentaRequest, fecha: int)
    returns (posted: Result<Venta>, deleted: Outcome)
    requires controller.context.Valid()
    modifies controller.context`productos, controller.context`ventas, controller.context`nextVentaId
    ensures controller.context.Valid()
    ensures posted.Ok? ==> && deleted == Done
                           && controller.context.productos == old(controller.context.productos)
                           && controller.context.ventas == old(controller.context.ventas)
  {
    ghost var productos0 := controller.context.productos;
    ghost var ventas0 := controller.context.ventas;
    posted := controller.PostVenta(userIdClaim, request, fecha, true);
    deleted := Fail(NotFound);
    if posted.Ok? {
      var v := posted.value;
      assert controller.context.ventas == ventas0 + [v];
      NewestSaleIsFoundLast(ventas0, v);
      RestoreUndoesApply(productos0, Lines(request), v.id);
      deleted := controller.DeleteVenta(v.id);
    }
  }
}
