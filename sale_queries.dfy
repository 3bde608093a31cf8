/** The read side of api/Ventas: lookup by id, all sales newest first, and
    the caller's own sales newest first. */
module SaleQueries {
  import opened Models
  import opened Responses
  import opened Sorting

  /** Position of the first sale with this id, as FirstOrDefault finds it. */
  function FindVenta(vs: seq<Venta>, id: int): (r: Option<nat>)
    ensures r.Some? ==> r.value < |vs| && vs[r.value].id == id
    ensures r.Some? ==> forall j :: 0 <= j < r.value ==> vs[j].id != id
    ensures r.None? ==> forall j :: 0 <= j < |vs| ==> vs[j].id != id
  {
    if vs == [] then None
    else if vs[0].id == id then Some(0)
    else match FindVenta(vs[1..], id)
      case None => None
      case Some(k) => Some(k + 1)
  }

  /** GET api/Ventas/{id}: the sale with that id, or NotFound. */
  function GetVenta(vs: seq<Venta>, id: int): (r: Result<Venta>)
    ensures r.Ok? <==> exists j :: 0 <= j < |vs| && vs[j].id == id
    ensures r.Ok? ==> r.value in vs && r.value.id == id
    ensures r.Err? ==> r.error == NotFound
  {
    match FindVenta(vs, id)
    case None => Err(NotFound)
    case Some(k) => Ok(vs[k])
  }

  /** The order of OrderByDescending(v => v.Fecha). */
  predicate NewerOrSame(a: Venta, b: Venta) {
    a.fecha >= b.fecha
  }

  lemma NewerOrSameIsTotalPreorder()
    ensures TotalPreorder(NewerOrSame)
  {
  }

  /** GET api/Ventas: every sale, newest first. */
  function GetVentas(vs: seq<Venta>): (r: seq<Venta>)
    ensures multiset(r) == multiset(vs)
    ensures forall i, j :: 0 <= i < j < |r| ==> r[i].fecha >= r[j].fecha
  {
    NewerOrSameIsTotalPreorder();
    SortPermutes(vs, NewerOrSame);
    SortSorted(vs, NewerOrSame);
    InsertionSort(vs, NewerOrSame)
  }

  /** The Where(v => v.UsuarioId == userId) of the caller's sales. */
  function OwnedBy(vs: seq<Venta>, usuarioId: int): seq<Venta> {
    if vs == [] then []
    else (if vs[0].usuarioId == usuarioId then [vs[0]] else []) + OwnedBy(vs[1..], usuarioId)
  }

  /** The filter keeps every sale of the user, as often as it occurs, and
      nothing else. */
  lemma {:induction false} OwnedByCounts(vs: seq<Venta>, usuarioId: int)
    ensures forall v :: multiset(OwnedBy(vs, usuarioId))[v] ==
                        if v.usuarioId == usuarioId then multiset(vs)[v] else 0
  {
    if vs != [] {
      OwnedByCounts(vs[1..], usuarioId);
      assert vs == [vs[0]] + vs[1..];
    }
  }

  /** GET api/Ventas/MisVentas: the sales whose owner is the user id of the
      token, newest first; without that claim, Unauthorized. */
  function GetMisVentas(vs: seq<Venta>, userIdClaim: Option<int>): (r: Result<seq<Venta>>)
    ensures r.Err? <==> userIdClaim.None?
    ensures r.Err? ==> r.error == Unauthorized
    ensures r.Ok? ==> forall v :: multiset(r.value)[v] ==
                                  if v.usuarioId == userIdClaim.value then multiset(vs)[v] else 0
    ensures r.Ok? ==> forall i, j :: 0 <= i < j < |r.value| ==> r.value[i].fecha >= r.value[j].fecha
  {
    match userIdClaim
    case None => Err(Unauthorized)
    case Some(usuarioId) =>
      OwnedByCounts(vs, usuarioId);
      Ok(GetVentas(OwnedBy(vs, usuarioId)))
  }
}
