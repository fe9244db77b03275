/**
 The records of the client book (types.ts). Every measurement is kept as the
 text the user typed; an empty string stands for "not measured".
 */
module Types {

  /** Six body measurements plus free-text notes. */
  datatype Measurements = Measurements(
    waist: string,
    pantsLength: string,
    shoulderWidth: string,
    neck: string,
    sleeve: string,
    wrist: string,
    notes: string)

  /** A stored customer; `createdAt` is a millisecond timestamp. */
  datatype Client = Client(
    id: string,
    name: string,
    phoneNumber: string,
    measurements: Measurements,
    createdAt: int)

  /** The four screens of the application. */
  datatype ViewState = List | Add | Details | Edit

}
