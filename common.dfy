/** Values shared by every part of the CureLink backend model: optional
    values, identities, roles of the authenticated caller, and the HTTP
    error responses the controllers send. */
module Common {

  datatype Option<T> = None | Some(value: T)

  /** A MongoDB ObjectId, treated as an opaque comparable identifier. */
  type Id = nat

  /** A JavaScript `Date` after `new Date(...)`: the number of milliseconds
      since the epoch, compared but never parsed by the model. */
  type Date = int

  /** The `createdAt` stamp Mongoose's `timestamps` option writes. */
  type Timestamp = int

  /** The closed set of account roles of the `User` schema's enum. */
  datatype Role = Patient | Doctor | Admin

  /** The identity the authentication middleware resolves (`req.user`). */
  datatype Caller = Caller(id: Id, role: Role)

  /** The reasons a controller answers 400. */
  datatype BadRequestReason =
    | MissingDoctorOrDate   // getAvailableSlots without doctorId or date
    | InvalidDoctorId       // bookAppointment: no such user, or not a doctor
    | SlotAlreadyBooked     // bookAppointment: the store reported duplicate key 11000
    | InvalidStatus         // updateAppointmentStatus: status not one of the three
    | EmailInUse            // addDoctor: the store reported duplicate key 11000
    | InvalidPatientId      // createRecord: no such user, or not a patient

  /** An error response: what the controller writes with `res.status(...)`. */
  datatype Error =
    | BadRequest(reason: BadRequestReason)
    | NotAuthorized
    | NotFound
    | ServerError

  /** The HTTP status code of an error response. */
  function StatusCode(e: Error): (code: nat)
    ensures 400 <= code < 600
    ensures code == 400 <==> e.BadRequest?
  {
    match e
    case BadRequest(_) => 400
    case NotAuthorized => 403
    case NotFound => 404
    case ServerError => 500
  }

  /** Why the database refuses a write. */
  datatype StoreFailure =
    | ValidationError   // a `required` path is undefined or empty
    | DuplicateKey      // a unique index already holds the key (MongoDB error 11000)

  /** The outcome of a write to the database. */
  datatype Write<T> = Written(value: T) | Refused(failure: StoreFailure)

  /** A controller's answer: the JSON body of a success, or an error. */
  datatype Result<T> = Ok(value: T) | Err(error: Error)
}
