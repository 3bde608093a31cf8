/** The sale-transaction workflow as functions: what POST api/Ventas does to
    the product table and which lines and total it builds (Apply), and what
    DELETE api/Ventas/{id} gives back to the table (Restore). The controller
    methods in Controllers are proved against these definitions. */
module SaleEngine {
  import opened Models
  import opened Responses

  /** One requested line: a product id and a quantity, nothing else. */
  datatype DetalleVentaRequest = DetalleVentaRequest(productoId: int, cantidad: int)

  /** The request body of a sale: only its lines (possibly null); it carries
      no user id. */
  datatype VentaRequest = VentaRequest(detalles: Option<seq<DetalleVentaRequest>>)

  /** The requested lines; a null list reads as no lines. */
  function Lines(req: VentaRequest): (ls: seq<DetalleVentaRequest>)
    ensures req.detalles.Some? ==> ls == req.detalles.value
    ensures req.detalles.None? ==> ls == []
  {
    match req.detalles
    case None => []
    case Some(ls) => ls
  }

  /** What the sale has built so far inside its transaction: the tracked
      product rows, the lines and the running total. */
  datatype Pending = Pending(productos: map<int, Producto>, detalles: seq<DetalleVenta>, total: int)

  /** One iteration of the loop over the requested lines: quantity first,
      then the product lookup, then the stock check; on success the stock is
      decremented, the current price is frozen into a new line and the
      subtotal is added to the total. */
  function Step(s: Pending, d: DetalleVentaRequest, ventaId: int): Result<Pending> {
    if d.cantidad <= 0 then Err(InvalidQuantity)
    else if d.productoId !in s.productos then Err(ProductNotFound(d.productoId))
    else
      var p := s.productos[d.productoId];
      if p.stock < d.cantidad then Err(InsufficientStock(p.nombre, p.stock, d.cantidad))
      else Ok(Pending(s.productos[d.productoId := p.(stock := p.stock - d.cantidad)],
                      s.detalles + [DetalleVenta(ventaId, d.productoId, d.cantidad, p.precio)],
                      s.total + p.precio * d.cantidad))
  }

  /** The loop over the lines in request order, stopping at the first
      refusal. Defined on the last line so that Apply(p, ls[..i]) is the
      state after i iterations. */
  function Apply(p: map<int, Producto>, ls: seq<DetalleVentaRequest>, ventaId: int): Result<Pending> {
    if ls == [] then Ok(Pending(p, [], 0))
    else
      match Apply(p, ls[..|ls| - 1], ventaId)
      case Err(e) => Err(e)
      case Ok(s) => Step(s, ls[|ls| - 1], ventaId)
  }

  /** Total quantity the lines ask of product id. */
  function Requested(ls: seq<DetalleVentaRequest>, id: int): int {
    if ls == [] then 0
    else Requested(ls[..|ls| - 1], id) + (if ls[|ls| - 1].productoId == id then ls[|ls| - 1].cantidad else 0)
  }

  /** Line k can be served after lines 0..k-1: positive quantity, a known
      product, and the stock covers everything asked of that product by
      lines 0..k. */
  predicate Feasible(p: map<int, Producto>, ls: seq<DetalleVentaRequest>, k: int)
    requires 0 <= k < |ls|
  {
    var d := ls[k];
    d.cantidad > 0 && d.productoId in p && Requested(ls[..k + 1], d.productoId) <= p[d.productoId].stock
  }

  predicate AllFeasible(p: map<int, Producto>, ls: seq<DetalleVentaRequest>) {
    forall k :: 0 <= k < |ls| ==> Feasible(p, ls, k)
  }

  /** The refusal line k draws when it is the first one that cannot be
      served; the stock it reports is what earlier lines left. */
  function LineError(p: map<int, Producto>, ls: seq<DetalleVentaRequest>, k: int): Error
    requires 0 <= k < |ls|
  {
    var d := ls[k];
    if d.cantidad <= 0 then InvalidQuantity
    else if d.productoId !in p then ProductNotFound(d.productoId)
    else InsufficientStock(p[d.productoId].nombre,
                           p[d.productoId].stock - Requested(ls[..k], d.productoId),
                           d.cantidad)
  }

  // ---------------------------------------------------------------------
  // Properties of Apply

  /** Once a prefix of the lines is refused, the whole sale is refused with
      the same error: later lines are never looked at. */
  lemma {:induction false} ApplyPrefixFailure(p: map<int, Producto>, ls: seq<DetalleVentaRequest>, j: int, ventaId: int)
    requires 0 <= j <= |ls|
    requires Apply(p, ls[..j], ventaId).Err?
    ensures Apply(p, ls, ventaId) == Apply(p, ls[..j], ventaId)
    decreases |ls|
  {
    if j < |ls| {
      var front := ls[..|ls| - 1];
      assert front[..j] == ls[..j];
      ApplyPrefixFailure(p, front, j, ventaId);
    } else {
      assert ls[..j] == ls;
    }
  }

  /** A committed sale leaves every product as it was except for its stock,
      which drops by exactly the quantity all lines naming it asked for
      (duplicate ids add up); no product appears or disappears. */
  lemma {:induction false} ApplyStock(p: map<int, Producto>, ls: seq<DetalleVentaRequest>, ventaId: int)
    requires Apply(p, ls, ventaId).Ok?
    ensures var q := Apply(p, ls, ventaId).value.productos;
            && q.Keys == p.Keys
            && forall id :: id in p ==> q[id] == p[id].(stock := p[id].stock - Requested(ls, id))
  {
    if ls != [] {
      var front := ls[..|ls| - 1];
      var d := ls[|ls| - 1];
      ApplyStock(p, front, ventaId);
      assert ls[..|ls| - 1] == front;
    }
  }

  /** No committed sale drives a stock below zero: every product either
      ends with a non-negative stock or is untouched. */
  lemma {:induction false} ApplyNeverOversells(p: map<int, Producto>, ls: seq<DetalleVentaRequest>, ventaId: int)
    requires Apply(p, ls, ventaId).Ok?
    ensures var q := Apply(p, ls, ventaId).value.productos;
            forall id :: id in p ==> id in q && (q[id].stock >= 0 || q[id] == p[id])
  {
    ApplyStock(p, ls, ventaId);
    if ls != [] {
      var front := ls[..|ls| - 1];
      ApplyNeverOversells(p, front, ventaId);
      ApplyStock(p, front, ventaId);
    }
  }

  /** The lines of a committed sale are the requested lines in request
      order, each carrying the new sale's id and the product's price at the
      time of the sale (the table's price, which the sale does not change);
      every quantity is positive and every product exists. */
  lemma {:induction false} ApplyLines(p: map<int, Producto>, ls: seq<DetalleVentaRequest>, ventaId: int)
    requires Apply(p, ls, ventaId).Ok?
    ensures var ds := Apply(p, ls, ventaId).value.detalles;
            && |ds| == |ls|
            && forall k :: 0 <= k < |ls| ==>
                 && ls[k].productoId in p
                 && ls[k].cantidad > 0
                 && ds[k] == DetalleVenta(ventaId, ls[k].productoId, ls[k].cantidad, p[ls[k].productoId].precio)
  {
    if ls != [] {
      var front := ls[..|ls| - 1];
      ApplyLines(p, front, ventaId);
      ApplyStock(p, front, ventaId);
    }
  }

  /** The total of a committed sale is the sum of its lines' subtotals. */
  lemma {:induction false} ApplyTotal(p: map<int, Producto>, ls: seq<DetalleVentaRequest>, ventaId: int)
    requires Apply(p, ls, ventaId).Ok?
    ensures var s := Apply(p, ls, ventaId).value; s.total == SumSubtotals(s.detalles)
  {
    if ls != [] {
      var front := ls[..|ls| - 1];
      ApplyTotal(p, front, ventaId);
      var s := Apply(p, front, ventaId).value;
      var s' := Apply(p, ls, ventaId).value;
      assert s'.detalles[..|s'.detalles| - 1] == s.detalles;
    }
  }

  /** With every price positive, a committed non-empty sale has a total of
      at least 0.01, the lower end of the declared range of a sale's total. */
  lemma ApplyTotalPositive(p: map<int, Producto>, ls: seq<DetalleVentaRequest>, ventaId: int)
    requires forall id :: id in p ==> p[id].precio > 0
    requires ls != [] && Apply(p, ls, ventaId).Ok?
    ensures Apply(p, ls, ventaId).value.total >= MinMoney
  {
    ApplyTotal(p, ls, ventaId);
    ApplyLines(p, ls, ventaId);
    SumSubtotalsPositive(Apply(p, ls, ventaId).value.detalles);
  }

  /** Feasibility of an early line does not depend on later lines. */
  lemma FeasibleInPrefix(p: map<int, Producto>, ls: seq<DetalleVentaRequest>, m: int, j: int)
    requires 0 <= j < m <= |ls|
    ensures Feasible(p, ls[..m], j) == Feasible(p, ls, j)
  {
    assert ls[..m][..j + 1] == ls[..j + 1];
  }

  /** A sale is committed exactly when every line is feasible in order. */
  lemma {:induction false} ApplySucceedsIffFeasible(p: map<int, Producto>, ls: seq<DetalleVentaRequest>, ventaId: int)
    ensures Apply(p, ls, ventaId).Ok? <==> AllFeasible(p, ls)
  {
    if ls != [] {
      var n := |ls|;
      var front := ls[..n - 1];
      var d := ls[n - 1];
      ApplySucceedsIffFeasible(p, front, ventaId);
      forall j | 0 <= j < n - 1 ensures Feasible(p, front, j) == Feasible(p, ls, j) {
        FeasibleInPrefix(p, ls, n - 1, j);
      }
      assert ls[..n] == ls;
      if Apply(p, front, ventaId).Ok? {
        ApplyStock(p, front, ventaId);
        assert Requested(ls, d.productoId) == Requested(front, d.productoId) + d.cantidad;
        assert Feasible(p, ls, n - 1) <==> Step(Apply(p, front, ventaId).value, d, ventaId).Ok?;
        if AllFeasible(p, ls) {
          assert Feasible(p, ls, n - 1);
        }
      } else {
        var j :| 0 <= j < n - 1 && !Feasible(p, front, j);
        assert !Feasible(p, ls, j);
      }
    }
  }

  /** The first line that cannot be served decides the refusal: with lines
      0..k-1 feasible and line k not, the sale is refused with line k's
      error, whatever follows. */
  lemma ApplyFailsAtFirstInfeasible(p: map<int, Producto>, ls: seq<DetalleVentaRequest>, ventaId: int, k: int)
    requires 0 <= k < |ls|
    requires forall j :: 0 <= j < k ==> Feasible(p, ls, j)
    requires !Feasible(p, ls, k)
    ensures Apply(p, ls, ventaId) == Err(LineError(p, ls, k))
  {
    var front := ls[..k];
    forall j | 0 <= j < k ensures Feasible(p, front, j) {
      FeasibleInPrefix(p, ls, k, j);
    }
    ApplySucceedsIffFeasible(p, front, ventaId);
    ApplyStock(p, front, ventaId);
    var upto := ls[..k + 1];
    assert upto[..k] == front;
    assert Apply(p, upto, ventaId) == Err(LineError(p, ls, k));
    ApplyPrefixFailure(p, ls, k + 1, ventaId);
  }

  /** Conversely, every refusal is the error of the first infeasible line. */
  lemma {:induction false} ApplyErrorIsFirstInfeasible(p: map<int, Producto>, ls: seq<DetalleVentaRequest>, ventaId: int)
    requires Apply(p, ls, ventaId).Err?
    ensures exists k :: 0 <= k < |ls|
              && (forall j :: 0 <= j < k ==> Feasible(p, ls, j))
              && !Feasible(p, ls, k)
              && Apply(p, ls, ventaId).error == LineError(p, ls, k)
  {
    var n := |ls|;
    var front := ls[..n - 1];
    if Apply(p, front, ventaId).Err? {
      ApplyErrorIsFirstInfeasible(p, front, ventaId);
      var k :| 0 <= k < |front|
              && (forall j :: 0 <= j < k ==> Feasible(p, front, j))
              && !Feasible(p, front, k)
              && Apply(p, front, ventaId).error == LineError(p, front, k);
      forall j | 0 <= j <= k ensures Feasible(p, front, j) == Feasible(p, ls, j) {
        FeasibleInPrefix(p, ls, n - 1, j);
      }
      assert front[..k] == ls[..k];
      ApplyFailsAtFirstInfeasible(p, ls, ventaId, k);
    } else {
      ApplySucceedsIffFeasible(p, front, ventaId);
      ApplySucceedsIffFeasible(p, ls, ventaId);
      forall j | 0 <= j < n - 1 ensures Feasible(p, ls, j) {
        FeasibleInPrefix(p, ls, n - 1, j);
      }
      ApplyFailsAtFirstInfeasible(p, ls, ventaId, n - 1);
    }
  }

  // ---------------------------------------------------------------------
  // Reversal

  /** Total quantity the stored lines took of product id. */
  function Sold(ds: seq<DetalleVenta>, id: int): int {
    if ds == [] then 0
    else Sold(ds[..|ds| - 1], id) + (if ds[|ds| - 1].productoId == id then ds[|ds| - 1].cantidad else 0)
  }

  /** Gives one line's quantity back to its product; a product that no
      longer exists is skipped. */
  function RestoreLine(p: map<int, Producto>, d: DetalleVenta): map<int, Producto> {
    if d.productoId in p then p[d.productoId := p[d.productoId].(stock := p[d.productoId].stock + d.cantidad)]
    else p
  }

  /** The loop of DeleteVenta over a sale's lines in stored order. */
  function Restore(p: map<int, Producto>, ds: seq<DetalleVenta>): map<int, Producto> {
    if ds == [] then p else RestoreLine(Restore(p, ds[..|ds| - 1]), ds[|ds| - 1])
  }

  /** Deleting a sale adds back to each existing product exactly what the
      sale's lines took of it, and changes nothing else. */
  lemma {:induction false} RestoreStock(p: map<int, Producto>, ds: seq<DetalleVenta>)
    ensures var q := Restore(p, ds);
            && q.Keys == p.Keys
            && forall id :: id in p ==> q[id] == p[id].(stock := p[id].stock + Sold(ds, id))
  {
    if ds != [] {
      RestoreStock(p, ds[..|ds| - 1]);
    }
  }

  /** Lines with non-negative quantities give back a non-negative amount. */
  lemma {:induction false} SoldNonNegative(ds: seq<DetalleVenta>, id: int)
    requires forall k :: 0 <= k < |ds| ==> ds[k].cantidad >= 0
    ensures Sold(ds, id) >= 0
  {
    if ds != [] {
      SoldNonNegative(ds[..|ds| - 1], id);
    }
  }

  /** The quantities stored per product are the quantities requested. */
  lemma {:induction false} SoldIsRequested(ds: seq<DetalleVenta>, ls: seq<DetalleVentaRequest>, id: int)
    requires |ds| == |ls|
    requires forall k :: 0 <= k < |ls| ==> ds[k].productoId == ls[k].productoId && ds[k].cantidad == ls[k].cantidad
    ensures Sold(ds, id) == Requested(ls, id)
  {
    if ds != [] {
      SoldIsRequested(ds[..|ds| - 1], ls[..|ls| - 1], id);
    }
  }

  /** Reversal undoes a sale: giving back the lines of a committed sale
      returns the product table to exactly what it was before the sale. */
  lemma RestoreUndoesApply(p: map<int, Producto>, ls: seq<DetalleVentaRequest>, ventaId: int)
    requires Apply(p, ls, ventaId).Ok?
    ensures var s := Apply(p, ls, ventaId).value; Restore(s.productos, s.detalles) == p
  {
    var s := Apply(p, ls, ventaId).value;
    ApplyStock(p, ls, ventaId);
    ApplyLines(p, ls, ventaId);
    RestoreStock(s.productos, s.detalles);
    var q := Restore(s.productos, s.detalles);
    forall id | id in p ensures q[id] == p[id] {
      SoldIsRequested(s.detalles, ls, id);
    }
  }
}
