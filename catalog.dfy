/** The catalog side of api/Productos as functions over the product table:
    body validation for create and update, and the read queries. The queries
    are ghost because listing a map needs a choice of order; the order they
    promise is then imposed by sorting. */
module Catalog {
  import opened Models
  import opened Responses
  import opened Text
  import opened Sorting
  import opened Data
  import opened SaleQueries

  // ---------------------------------------------------------------------
  // Validation of a product body

  /** What POST api/Productos checks before touching the table: the model
      binding annotations, then price > 0, then stock >= 0. */
  function ValidateProducto(p: Producto): (r: Option<Error>)
    ensures r.None? <==> ProductoValid(p)
    ensures p.precio <= 0 || p.stock < 0 ==> r.Some?
    ensures r.Some? ==> r.value in {InvalidModel, NonPositivePrice, NegativeStock}
  {
    if !ProductoValid(p) then Some(InvalidModel)
    else if p.precio <= 0 then Some(NonPositivePrice)
    else if p.stock < 0 then Some(NegativeStock)
    else None
  }

  /** The explicit price and stock checks never fire: the declared ranges
      already refuse every body they would refuse. */
  lemma ExplicitChecksAreSubsumed(p: Producto)
    ensures ValidateProducto(p) != Some(NonPositivePrice)
    ensures ValidateProducto(p) != Some(NegativeStock)
  {
  }

  /** What PUT api/Productos/{id} checks. Model binding refuses an invalid
      body before the action runs; the action then compares the route id
      with the body's id, and repeats the creation checks. */
  function ValidateUpdate(id: int, p: Producto): (r: Option<Error>)
    ensures !ProductoValid(p) ==> r == Some(InvalidModel)
    ensures ProductoValid(p) && id != p.id ==> r == Some(IdMismatch)
    ensures r.None? <==> id == p.id && ProductoValid(p)
    ensures p.precio <= 0 || p.stock < 0 ==> r.Some?
  {
    if !ProductoValid(p) then Some(InvalidModel)
    else if id != p.id then Some(IdMismatch)
    else ValidateProducto(p)
  }

  // ---------------------------------------------------------------------
  // Queries

  /** GET api/Productos/{id}. */
  function GetProducto(m: map<int, Producto>, id: int): (r: Result<Producto>)
    ensures r.Ok? <==> id in m
    ensures r.Ok? ==> r.value == m[id]
    ensures r.Err? ==> r.error == NotFound
  {
    if id in m then Ok(m[id]) else Err(NotFound)
  }

  /** x is the row stored under some key of the table. */
  ghost predicate InTable<K, V>(m: map<K, V>, x: V) {
    exists id :: id in m && m[id] == x
  }

  /** The rows of the table, one per key, in some order. */
  ghost function Rows<K, V(!new)>(m: map<K, V>): (r: seq<V>)
    ensures |r| == |m|
    ensures forall x :: x in r <==> InTable(m, x)
    decreases |m|
  {
    var keys := m.Keys;
    if keys == {} then []
    else
      var k :| k in keys;
      var rest := m - {k};
      assert rest.Keys == keys - {k};
      RowOfRemovedKey(m, k, Rows(rest));
      [m[k]] + Rows(rest)
  }

  /** Listing m[k] in front of a listing of the other rows lists every row. */
  lemma RowOfRemovedKey<K, V(!new)>(m: map<K, V>, k: K, restRows: seq<V>)
    requires k in m
    requires forall x :: x in restRows <==> InTable(m - {k}, x)
    ensures forall x :: x in [m[k]] + restRows <==> InTable(m, x)
  {
    var rest := m - {k};
    forall x ensures x in [m[k]] + restRows <==> InTable(m, x) {
      if x in restRows {
        var id :| id in rest && rest[id] == x;
        assert m[id] == x;
      }
      if InTable(m, x) {
        var id :| id in m && m[id] == x;
        if id != k {
          assert id in rest && rest[id] == x;
        }
      }
    }
  }

  /** The order of OrderBy(p => p.Categoria).ThenBy(p => p.Nombre). */
  predicate ProductOrder(a: Producto, b: Producto) {
    StrLessEq(a.categoria, b.categoria) && (a.categoria == b.categoria ==> StrLessEq(a.nombre, b.nombre))
  }

  lemma ProductOrderIsTotalPreorder()
    ensures TotalPreorder(ProductOrder)
  {
    forall a: Producto, b: Producto ensures ProductOrder(a, b) || ProductOrder(b, a) {
      StrLessEqTotal(a.categoria, b.categoria);
      StrLessEqTotal(a.nombre, b.nombre);
    }
    forall a: Producto, b: Producto, c: Producto | ProductOrder(a, b) && ProductOrder(b, c)
      ensures ProductOrder(a, c)
    {
      StrLessEqTransitive(a.categoria, b.categoria, c.categoria);
      if a.categoria == c.categoria {
        StrLessEqAntisymmetric(a.categoria, b.categoria);
        StrLessEqTransitive(a.nombre, b.nombre, c.nombre);
      }
    }
  }

  /** GET api/Productos: every product, by category, then by name. */
  ghost function GetProductos(m: map<int, Producto>): (r: seq<Producto>)
    ensures |r| == |m|
    ensures forall x :: x in r <==> InTable(m, x)
    ensures forall i, j :: 0 <= i < j < |r| ==>
              && StrLessEq(r[i].categoria, r[j].categoria)
              && (r[i].categoria == r[j].categoria ==> StrLessEq(r[i].nombre, r[j].nombre))
  {
    var rows := Rows(m);
    ProductOrderIsTotalPreorder();
    SortKeepsElements(rows, ProductOrder);
    SortSorted(rows, ProductOrder);
    InsertionSort(rows, ProductOrder)
  }

  /** Products whose category equals c, ignoring case, in table order: each
      matching row as often as it occurs, and no other row. */
  function WithCategoria(s: seq<Producto>, c: string): (r: seq<Producto>)
    ensures forall x :: multiset(r)[x] == if EqualsIgnoreCase(x.categoria, c) then multiset(s)[x] else 0
    ensures forall x :: x in r <==> x in s && EqualsIgnoreCase(x.categoria, c)
    ensures |r| <= |s|
  {
    if s == [] then []
    else
      assert s == [s[0]] + s[1..];
      (if EqualsIgnoreCase(s[0].categoria, c) then [s[0]] else []) + WithCategoria(s[1..], c)
  }

  /** GET api/Productos/Categoria/{categoria}: exactly the products whose
      category equals the query, ignoring case. */
  ghost function GetProductosPorCategoria(m: map<int, Producto>, categoria: string): (r: seq<Producto>)
    ensures forall x :: x in r <==> InTable(m, x) && EqualsIgnoreCase(x.categoria, categoria)
    ensures |r| <= |m|
  {
    WithCategoria(Rows(m), categoria)
  }

  /** The elements of a finite set, each once, in some order. */
  ghost function SetToSeq<T>(s: set<T>): (r: seq<T>)
    ensures multiset(r) == multiset(s)
  {
    if s == {} then []
    else
      var x :| x in s;
      assert multiset(s) == multiset{x} + multiset(s - {x});
      [x] + SetToSeq(s - {x})
  }

  /** GET api/Productos/Categorias: each category present in the table
      exactly once, in ascending order. */
  ghost function GetCategorias(m: map<int, Producto>): (r: seq<string>)
    ensures forall c :: c in r <==> exists id :: id in m && m[id].categoria == c
    ensures forall i, j :: 0 <= i < j < |r| ==> StrLess(r[i], r[j])
  {
    var cats := set id | id in m :: m[id].categoria;
    var listed := SetToSeq(cats);
    assert TotalPreorder(StrLessEq) by {
      forall a, b ensures StrLessEq(a, b) || StrLessEq(b, a) {
        StrLessEqTotal(a, b);
      }
      forall a, b, c | StrLessEq(a, b) && StrLessEq(b, c) ensures StrLessEq(a, c) {
        StrLessEqTransitive(a, b, c);
      }
    }
    SortPermutes(listed, StrLessEq);
    SortSorted(listed, StrLessEq);
    var r := InsertionSort(listed, StrLessEq);
    assert forall c :: c in r <==> c in cats by {
      forall c ensures c in r <==> c in cats {
        assert c in r <==> c in multiset(r);
      }
    }
    assert forall i, j :: 0 <= i < j < |r| ==> r[i] != r[j] by {
      forall i, j | 0 <= i < j < |r| ensures r[i] != r[j] {
        if r[i] == r[j] {
          RepeatCountsTwice(r, i, j);
        }
      }
    }
    r
  }

  // ---------------------------------------------------------------------
  // Sale lines nested in a product body

  /** What adding a bound product entity does, as the creation action is
      written, with the sale lines its DetallesVenta collection carries: each
      is inserted under the sale its ventaId names and made to point at the
      new product; a line naming no stored sale breaks the foreign key and
      the save fails. No sale's total is recomputed. */
  function AddNestedLines(vs: seq<Venta>, id: int, nested: seq<DetalleVenta>): (r: Result<seq<Venta>>)
    ensures r.Ok? ==> |r.value| == |vs|
    ensures r.Ok? ==> forall i :: 0 <= i < |vs| ==>
              && r.value[i].id == vs[i].id
              && r.value[i].total == vs[i].total
              && |vs[i].detalles| <= |r.value[i].detalles|
    ensures r.Ok? && nested != [] ==> Referenced(r.value, id)
    ensures r.Err? ==> r.error == PersistenceFailure
    decreases |nested|
  {
    if nested == [] then Ok(vs)
    else
      var d := nested[0];
      match FindVenta(vs, d.ventaId)
      case None => Err(PersistenceFailure)
      case Some(k) =>
        var grown := vs[k].detalles + [d.(productoId := id)];
        var vs' := vs[k := vs[k].(detalles := grown)];
        assert vs'[k].detalles[|grown| - 1].productoId == id;
        AddNestedLines(vs', id, nested[1..])
  }

  /** Some stored sale has this id. */
  predicate HasVenta(vs: seq<Venta>, ventaId: int) {
    exists i :: 0 <= i < |vs| && vs[i].id == ventaId
  }

  /** No two stored sales share an id: the table's primary key. */
  predicate DistinctIds(vs: seq<Venta>) {
    forall i, j :: 0 <= i < j < |vs| ==> vs[i].id != vs[j].id
  }

  /** The nested lines that name sale ventaId, in body order, each made to
      point at product id. */
  function LinesFor(nested: seq<DetalleVenta>, ventaId: int, id: int): seq<DetalleVenta> {
    if nested == [] then []
    else (if nested[0].ventaId == ventaId then [nested[0].(productoId := id)] else [])
         + LinesFor(nested[1..], ventaId, id)
  }

  /** Sequences of sales with the same ids position by position name the
      same sales. */
  lemma SameIdsSameSales(vs: seq<Venta>, ws: seq<Venta>)
    requires |vs| == |ws| && forall i :: 0 <= i < |vs| ==> vs[i].id == ws[i].id
    ensures forall x :: HasVenta(vs, x) <==> HasVenta(ws, x)
  {
    forall x ensures HasVenta(vs, x) <==> HasVenta(ws, x) {
      if HasVenta(vs, x) {
        var i :| 0 <= i < |vs| && vs[i].id == x;
        assert ws[i].id == x;
      }
      if HasVenta(ws, x) {
        var i :| 0 <= i < |ws| && ws[i].id == x;
        assert vs[i].id == x;
      }
    }
  }

  /** The save succeeds exactly when every nested line names a stored sale. */
  lemma {:induction false} AddNestedLinesSucceedsIffNamed(vs: seq<Venta>, id: int, nested: seq<DetalleVenta>)
    ensures AddNestedLines(vs, id, nested).Ok? <==>
              forall k :: 0 <= k < |nested| ==> HasVenta(vs, nested[k].ventaId)
    decreases |nested|
  {
    if nested != [] {
      var d := nested[0];
      var rest := nested[1..];
      assert forall k :: 0 < k < |nested| ==> nested[k] == rest[k - 1];
      match FindVenta(vs, d.ventaId)
      case None =>
        assert !HasVenta(vs, nested[0].ventaId);
      case Some(k) =>
        var vs' := vs[k := vs[k].(detalles := vs[k].detalles + [d.(productoId := id)])];
        AddNestedLinesSucceedsIffNamed(vs', id, rest);
        SameIdsSameSales(vs, vs');
        assert HasVenta(vs, nested[0].ventaId) by {
          assert vs[k].id == d.ventaId;
        }
    }
  }

  /** Growing one sale's lines keeps the sale ids distinct. */
  lemma GrowKeepsDistinct(vs: seq<Venta>, k: int, ds: seq<DetalleVenta>)
    requires DistinctIds(vs) && 0 <= k < |vs|
    ensures DistinctIds(vs[k := vs[k].(detalles := ds)])
  {
    var ws := vs[k := vs[k].(detalles := ds)];
    assert forall i :: 0 <= i < |vs| ==> ws[i].id == vs[i].id;
  }

  /** One nested line joins sale k: for every sale, what the remaining lines
      then add to the grown list is what all the lines add to the original. */
  lemma JoinFirstLine(vs: seq<Venta>, id: int, nested: seq<DetalleVenta>, k: int, i: int)
    requires DistinctIds(vs) && nested != []
    requires 0 <= k < |vs| && vs[k].id == nested[0].ventaId && 0 <= i < |vs|
    ensures var ws := vs[k := vs[k].(detalles := vs[k].detalles + [nested[0].(productoId := id)])];
            ws[i].(detalles := ws[i].detalles + LinesFor(nested[1..], ws[i].id, id))
            == vs[i].(detalles := vs[i].detalles + LinesFor(nested, vs[i].id, id))
  {
    var line := nested[0].(productoId := id);
    if i == k {
      assert LinesFor(nested, vs[i].id, id) == [line] + LinesFor(nested[1..], vs[i].id, id);
      assert vs[i].detalles + [line] + LinesFor(nested[1..], vs[i].id, id)
          == vs[i].detalles + LinesFor(nested, vs[i].id, id);
    } else {
      assert vs[i].id != nested[0].ventaId;
    }
  }

  /** A successful save gives each sale, after its own lines, exactly the
      nested lines naming it, pointed at the new product; nothing else about
      the sale changes. */
  lemma {:induction false} AddNestedLinesJoinsNamedSales(vs: seq<Venta>, id: int, nested: seq<DetalleVenta>)
    requires DistinctIds(vs)
    requires AddNestedLines(vs, id, nested).Ok?
    ensures forall i :: 0 <= i < |vs| ==>
              AddNestedLines(vs, id, nested).value[i]
              == vs[i].(detalles := vs[i].detalles + LinesFor(nested, vs[i].id, id))
    decreases |nested|
  {
    if nested == [] {
      forall i | 0 <= i < |vs| ensures vs[i] == vs[i].(detalles := vs[i].detalles + []) {
        assert vs[i].detalles + [] == vs[i].detalles;
      }
    } else {
      var k := FindVenta(vs, nested[0].ventaId).value;
      var ws := vs[k := vs[k].(detalles := vs[k].detalles + [nested[0].(productoId := id)])];
      assert AddNestedLines(vs, id, nested) == AddNestedLines(ws, id, nested[1..]);
      GrowKeepsDistinct(vs, k, vs[k].detalles + [nested[0].(productoId := id)]);
      AddNestedLinesJoinsNamedSales(ws, id, nested[1..]);
      forall i | 0 <= i < |vs|
        ensures AddNestedLines(vs, id, nested).value[i]
                == vs[i].(detalles := vs[i].detalles + LinesFor(nested, vs[i].id, id))
      {
        JoinFirstLine(vs, id, nested, k, i);
      }
    }
  }

  /** A body carrying one line for stored sale 1 makes that sale name the
      new product and leaves its total short of the sum of its lines. */
  lemma NestedLineBreaksSaleTotal()
    ensures var vs := [Venta(1, 0, 25, 2, [DetalleVenta(1, 1, 1, 25)])];
            var r := AddNestedLines(vs, 4, [DetalleVenta(1, 0, 5, 1)]);
            && TotalsConsistent(vs) && !Referenced(vs, 4)
            && r.Ok? && Referenced(r.value, 4) && !TotalsConsistent(r.value)
  {
    var vs := [Venta(1, 0, 25, 2, [DetalleVenta(1, 1, 1, 25)])];
    var after := [Venta(1, 0, 25, 2, [DetalleVenta(1, 1, 1, 25), DetalleVenta(1, 4, 5, 1)])];
    var nested := [DetalleVenta(1, 0, 5, 1)];
    assert FindVenta(vs, 1) == Some(0);
    assert nested[1..] == [];
    assert vs[0].detalles + [nested[0].(productoId := 4)] == after[0].detalles;
    assert vs[0 := vs[0].(detalles := after[0].detalles)] == after;
    assert AddNestedLines(vs, 4, nested) == AddNestedLines(after, 4, []);
    assert SumSubtotals(after[0].detalles) == 30;
  }
}
