/** The values a ticket purchase is made of: ticket categories, ticket
    requests, the loosely typed arguments of a purchase call, and the closed
    set of errors the purchase can report. */
module Tickets {

  /** The three ticket categories a request can name. */
  datatype TicketType = ADULT | CHILD | INFANT

  /** An immutable request for `noOfTickets` tickets of one category.
      Its constructor is not part of this model, so the count is any `nat`. */
  datatype TicketTypeRequest = TicketTypeRequest(ticketType: TicketType, noOfTickets: nat)

  /** One argument after the account id. The purchase accepts any values
      there, so an argument is either a genuine `TicketTypeRequest` or some
      other value (an array, a string, a number, ...). */
  datatype Elem = Request(req: TicketTypeRequest) | Malformed

  /** The account-id argument: an integer-valued number, or a value for
      which `Number.isInteger` is false (undefined, a string, 4.23, ...). */
  datatype AccountId = IntegerId(value: int) | NotInteger

  /** One tag per error message the purchase can raise. */
  datatype Err =
    | InvalidAccountId
    | NoTicketsProvided
    | InvalidTicketTypeRequests
    | MaxTicketsExceeded
    | InsufficientAdults
    | AdultsLessThanInfants

  /** The outcome of a check or of the whole purchase: it returns normally,
      or it throws the error tagged here. */
  datatype Outcome = Pass | Fail(error: Err)

  /** The most tickets one purchase may contain. */
  const MaxTickets: nat := 20
}
