/** The state-changing actions of api/Ventas and api/Productos. Each
    controller holds the context it was given; every action is one
    sequential step on it. The user id comes from the token's
    NameIdentifier claim, passed in as userIdClaim. */
module Controllers {
  import opened Models
  import opened Responses
  import opened Data
  import opened SaleEngine
  import opened SaleQueries
  import opened Catalog

  /** The loop of POST api/Ventas over the requested lines, run inside the
      transaction on a copy of the product rows: quantity, then lookup, then
      stock, for each line in order; the first refusal ends it. */
  method ServeLines(productos: map<int, Producto>, lines: seq<DetalleVentaRequest>, ventaId: int)
    returns (r: Result<Pending>)
    ensures r == Apply(productos, lines, ventaId)
  {
    var tracked := productos;
    var detalles: seq<DetalleVenta> := [];
    var total := 0;
    var i := 0;
    while i < |lines|
      invariant 0 <= i <= |lines|
      invariant Apply(productos, lines[..i], ventaId) == Ok(Pending(tracked, detalles, total))
    {
      var detalle := lines[i];
      assert lines[..i + 1][..i] == lines[..i];
      if detalle.cantidad <= 0 {
        ApplyPrefixFailure(productos, lines, i + 1, ventaId);
        return Err(InvalidQuantity);
      }
      if detalle.productoId !in tracked {
        ApplyPrefixFailure(productos, lines, i + 1, ventaId);
        return Err(ProductNotFound(detalle.productoId));
      }
      var producto := tracked[detalle.productoId];
      if producto.stock < detalle.cantidad {
        ApplyPrefixFailure(productos, lines, i + 1, ventaId);
        return Err(InsufficientStock(producto.nombre, producto.stock, detalle.cantidad));
      }
      tracked := tracked[detalle.productoId := producto.(stock := producto.stock - detalle.cantidad)];
      detalles := detalles + [DetalleVenta(ventaId, detalle.productoId, detalle.cantidad, producto.precio)];
      total := total + producto.precio * detalle.cantidad;
      i := i + 1;
    }
    assert lines[..i] == lines;
    r := Ok(Pending(tracked, detalles, total));
  }

  class VentasController {
    const context: PanaderiaContext

    constructor (context: PanaderiaContext)
      ensures this.context == context
    {
      this.context := context;
    }

    /** POST api/Ventas. Refuses a missing claim, then an empty line list,
        before anything else. The lines are then served in request order on
        a private copy of the product rows; the first line that cannot be
        served refuses the whole sale, and only a sale whose every line was
        served and which the store accepts is written back: the decremented
        stocks and the new sale together, or nothing. */
    method PostVenta(userIdClaim: Option<int>, request: VentaRequest, fecha: int, dbAccepts: bool)
      returns (r: Result<Venta>)
      requires context.Valid()
      modifies context`productos, context`ventas, context`nextVentaId
      ensures context.Valid()
      ensures r.Err? ==> && context.productos == old(context.productos)
                         && context.ventas == old(context.ventas)
                         && context.nextVentaId == old(context.nextVentaId)
      ensures userIdClaim.None? ==> r == Err(Unauthorized)
      ensures userIdClaim.Some? && Lines(request) == [] ==> r == Err(EmptySale)
      ensures userIdClaim.Some? && Lines(request) != [] ==>
                match Apply(old(context.productos), Lines(request), old(context.nextVentaId))
                case Err(e) => r == Err(e)
                case Ok(s) =>
                  if !dbAccepts then r == Err(PersistenceFailure)
                  else
                    && r == Ok(Venta(old(context.nextVentaId), fecha, s.total, userIdClaim.value, s.detalles))
                    && context.productos == s.productos
                    && context.ventas == old(context.ventas) + [r.value]
                    && context.nextVentaId == old(context.nextVentaId) + 1
    {
      if userIdClaim.None? {
        return Err(Unauthorized);
      }
      var usuarioId := userIdClaim.value;
      var lines := Lines(request);
      if |lines| == 0 {
        return Err(EmptySale);
      }

      var ventaId := context.nextVentaId;
      var served := ServeLines(context.productos, lines, ventaId);
      if served.Err? {
        return Err(served.error);
      }
      var venta := Venta(ventaId, fecha, served.value.total, usuarioId, served.value.detalles);
      if !dbAccepts {
        return Err(PersistenceFailure);
      }
      ApplyStock(context.productos, lines, ventaId);
      ApplyNeverOversells(context.productos, lines, ventaId);
      ApplyLines(context.productos, lines, ventaId);
      ApplyTotalPositive(context.productos, lines, ventaId);
      assert TotalMatchesLines(venta) by {
        ApplyTotal(context.productos, lines, ventaId);
      }
      context.productos := served.value.productos;
      context.ventas := context.ventas + [venta];
      context.nextVentaId := context.nextVentaId + 1;
      r := Ok(venta);
    }

    /** DELETE api/Ventas/{id}. NotFound for an unknown id; otherwise every
        line's quantity goes back to its product (a product that no longer
        exists is skipped) and the sale is removed. */
    method DeleteVenta(id: int) returns (r: Outcome)
      requires context.Valid()
      modifies context`productos, context`ventas
      ensures context.Valid()
      ensures FindVenta(old(context.ventas), id).None? ==>
                && r == Fail(NotFound)
                && context.productos == old(context.productos)
                && context.ventas == old(context.ventas)
      ensures FindVenta(old(context.ventas), id).Some? ==>
                var k := FindVenta(old(context.ventas), id).value;
                && r == Done
                && context.productos == Restore(old(context.productos), old(context.ventas)[k].detalles)
                && context.ventas == old(context.ventas)[..k] + old(context.ventas)[k + 1..]
    {
      var found := FindVenta(context.ventas, id);
      if found.None? {
        return Fail(NotFound);
      }
      var k := found.value;
      var venta := context.ventas[k];
      ghost var before := context.productos;
      var i := 0;
      while i < |venta.detalles|
        invariant 0 <= i <= |venta.detalles|
        invariant context.productos == Restore(before, venta.detalles[..i])
        invariant context.ventas == old(context.ventas)
      {
        var detalle := venta.detalles[i];
        if detalle.productoId in context.productos {
          var producto := context.productos[detalle.productoId];
          context.productos := context.productos[detalle.productoId := producto.(stock := producto.stock + detalle.cantidad)];
        }
        assert venta.detalles[..i + 1][..i] == venta.detalles[..i];
        i := i + 1;
      }
      assert venta.detalles[..i] == venta.detalles;

      RestoreStock(before, venta.detalles);
      forall pid | pid in before ensures Sold(venta.detalles, pid) >= 0 {
        SoldNonNegative(venta.detalles, pid);
      }
      ghost var vs := context.ventas;
      context.ventas := context.ventas[..k] + context.ventas[k + 1..];
      assert forall i :: 0 <= i < |context.ventas| ==> context.ventas[i] == vs[if i < k then i else i + 1];
      r := Done;
    }
  }

  class ProductosController {
    const context: PanaderiaContext

    constructor (context: PanaderiaContext)
      ensures this.context == context
    {
      this.context := context;
    }

    /** POST api/Productos. A body that fails validation leaves the table as
        it was; otherwise the product is stored under the next identity
        value, and no sale line refers to it yet. The sale lines a bound body
        may carry (nested) are not inserted: stored sales never change here. */
    method PostProducto(producto: Producto, nested: seq<DetalleVenta>) returns (r: Result<Producto>)
      requires context.Valid()
      modifies context`productos, context`nextProductoId
      ensures context.Valid()
      ensures context.ventas == old(context.ventas)
      ensures ValidateProducto(producto).Some? ==>
                && r == Err(ValidateProducto(producto).value)
                && context.productos == old(context.productos)
                && context.nextProductoId == old(context.nextProductoId)
      ensures ValidateProducto(producto).None? ==>
                var id := old(context.nextProductoId);
                && r == Ok(producto.(id := id))
                && id !in old(context.productos)
                && context.productos == old(context.productos)[id := r.value]
                && context.nextProductoId == id + 1
                && !Referenced(context.ventas, id)
    {
      var invalid := ValidateProducto(producto);
      if invalid.Some? {
        return Err(invalid.value);
      }
      var id := context.nextProductoId;
      var creado := producto.(id := id);
      context.productos := context.productos[id := creado];
      context.nextProductoId := id + 1;
      r := Ok(creado);
    }

    /** PUT api/Productos/{id}. An invalid body is refused before the action
        runs; then the route id is compared with the body's id; a row that
        does not exist gives NotFound; otherwise the body replaces the row.
        Stored sales keep their frozen prices. */
    method PutProducto(id: int, producto: Producto) returns (r: Outcome)
      requires context.Valid()
      modifies context`productos
      ensures context.Valid()
      ensures ValidateUpdate(id, producto).Some? ==>
                r == Fail(ValidateUpdate(id, producto).value) && context.productos == old(context.productos)
      ensures ValidateUpdate(id, producto).None? && id !in old(context.productos) ==>
                r == Fail(NotFound) && context.productos == old(context.productos)
      ensures ValidateUpdate(id, producto).None? && id in old(context.productos) ==>
                r == Done && context.productos == old(context.productos)[id := producto]
      ensures context.ventas == old(context.ventas)
    {
      var invalid := ValidateUpdate(id, producto);
      if invalid.Some? {
        return Fail(invalid.value);
      }
      if id !in context.productos {
        return Fail(NotFound);
      }
      context.productos := context.productos[id := producto];
      r := Done;
    }

    /** PATCH api/Productos/{id}/Stock. NotFound is checked before the sign
        of the new stock; on success only that product's stock changes, to
        exactly the requested value. */
    method UpdateStock(id: int, nuevoStock: int) returns (r: Outcome)
      requires context.Valid()
      modifies context`productos
      ensures context.Valid()
      ensures id !in old(context.productos) ==> r == Fail(NotFound)
      ensures id in old(context.productos) && nuevoStock < 0 ==> r == Fail(NegativeStock)
      ensures r.Fail? ==> context.productos == old(context.productos)
      ensures r == Done <==> id in old(context.productos) && nuevoStock >= 0
      ensures r == Done ==>
                context.productos == old(context.productos)[id := old(context.productos)[id].(stock := nuevoStock)]
    {
      if id !in context.productos {
        return Fail(NotFound);
      }
      if nuevoStock < 0 {
        return Fail(NegativeStock);
      }
      var producto := context.productos[id];
      context.productos := context.productos[id := producto.(stock := nuevoStock)];
      r := Done;
    }

    /** DELETE api/Productos/{id}. NotFound for an unknown id; a product that
        some sale line names is refused with a 400; otherwise only that
        product is removed. */
    method DeleteProducto(id: int) returns (r: Outcome)
      requires context.Valid()
      modifies context`productos
      ensures context.Valid()
      ensures id !in old(context.productos) ==> r == Fail(NotFound)
      ensures id in old(context.productos) && Referenced(context.ventas, id) ==>
                r == Fail(HasSales) && StatusCode(r.error) == 400
      ensures r.Fail? ==> context.productos == old(context.productos)
      ensures r == Done <==> id in old(context.productos) && !Referenced(context.ventas, id)
      ensures r == Done ==> context.productos == old(context.productos) - {id}
    {
      if id !in context.productos {
        return Fail(NotFound);
      }
      if Referenced(context.ventas, id) {
        return Fail(HasSales);
      }
      context.productos := context.productos - {id};
      r := Done;
    }
  }
}
