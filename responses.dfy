/** Outcomes of the controller actions: the HTTP result objects of the API,
    collapsed to an error datatype plus the status code each one carries. */
module Responses {

  datatype Option<+T> = None | Some(value: T)

  /** An action that returns a body on success. */
  datatype Result<+T> = Ok(value: T) | Err(error: Error)

  /** An action whose success carries no data the model needs. */
  datatype Outcome = Done | Fail(error: Error)

  /** Every way an action of the two controllers can refuse a request. */
  datatype Error =
    | Unauthorized                        // no user id claim in the token
    | EmptySale                           // sale request without lines
    | InvalidQuantity                     // a sale line with quantity <= 0
    | ProductNotFound(productoId: int)    // a sale line naming an unknown product
    | InsufficientStock(nombre: string, disponible: int, solicitado: int)
    | PersistenceFailure                  // the store threw while saving a sale
    | NotFound                            // the addressed sale or product is absent
    | IdMismatch                          // route id differs from the body's id
    | InvalidModel                        // the body breaks a declared annotation
    | NonPositivePrice
    | NegativeStock
    | HasSales                            // product still referenced by a sale line

  /** The HTTP status the controller answers with for each refusal. */
  function StatusCode(e: Error): (code: int)
    ensures code in {400, 401, 404, 500}
    ensures code == 404 <==> e.NotFound?
    ensures code == 401 <==> e.Unauthorized?
    ensures code == 500 <==> e.PersistenceFailure?
  {
    match e
    case Unauthorized => 401
    case NotFound => 404
    case PersistenceFailure => 500
    case _ => 400
  }
}
