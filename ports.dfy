/** The error kinds of the repository contract. A database failure carries
    the backend's message; the model never produces one, since no database
    backend is modelled. */
module Ports {

  /** `CreateUrlError`. `LockError` stands for a poisoned lock. */
  datatype CreateUrlError = DBError(message: string) | AlreadyExists | LockError

  /** `GetByCodeError`. */
  datatype GetByCodeError = DBError(message: string) | NotFound
}
