/** The API's error responses: `http_response_code(...)` followed by `respond(['error' => ...])`. */
module Responses {

  datatype Failure =
    | ProductNotFound     // cart.add with an id missing from the catalogue
    | CartEmpty           // checkout with no resolvable cart line
    | InvalidCredentials  // admin or customer login refused
    | Unauthorized        // admin.orders without the admin session flag
    | FieldsRequired      // registration with an empty email or password
    | UserExists          // registration with an email already taken
    | LoginRequired       // customer orders without a logged-in customer
    | OrderNotFound       // order lookup by an unknown id

  /** The HTTP status the backend sets before responding. */
  function Status(f: Failure): int {
    match f
    case ProductNotFound => 422
    case CartEmpty => 400
    case InvalidCredentials => 401
    case Unauthorized => 401
    case FieldsRequired => 422
    case UserExists => 409
    case LoginRequired => 401
    case OrderNotFound => 404
  }

  /** The `error` text of the JSON response. */
  function Message(f: Failure): string {
    match f
    case ProductNotFound => "Product not found"
    case CartEmpty => "Cart is empty"
    case InvalidCredentials => "Invalid credentials"
    case Unauthorized => "Unauthorized"
    case FieldsRequired => "Email and password required"
    case UserExists => "User already exists"
    case LoginRequired => "Login required"
    case OrderNotFound => "Order not found"
  }

  /** What an action responds with: its payload, or an error response. */
  datatype Result<T> = Ok(value: T) | Err(failure: Failure)
}
