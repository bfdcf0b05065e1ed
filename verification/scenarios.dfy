/** Consequences of the purchase rules for particular inputs: the scenarios
    the service's own tests exercise, the boundaries of the count rules, and
    the ordering between the two adult rules. */
module Scenarios {
  import opened Tickets
  import opened Counting
  import opened TicketService
  import opened Rules

  function Adult(n: nat): Elem { Request(TicketTypeRequest(ADULT, n)) }
  function Child(n: nat): Elem { Request(TicketTypeRequest(CHILD, n)) }
  function Infant(n: nat): Elem { Request(TicketTypeRequest(INFANT, n)) }

  /** An input with infant tickets but no adult ticket breaks both adult
      rules, yet is never reported as having fewer adults than infants:
      once the account, list and maximum checks pass, it is reported as
      lacking an adult. */
  lemma {:induction false} NoAdultWithInfantsReportsInsufficientAdults(account: AccountId, elems: seq<Elem>)
    requires CountOf(Genuine(elems), ADULT) == 0 && CountOf(Genuine(elems), INFANT) > 0
    ensures Violates(InsufficientAdults, account, elems)
    ensures Violates(AdultsLessThanInfants, account, elems)
    ensures PurchaseTickets(account, elems) != Fail(AdultsLessThanInfants)
    ensures (ValidateAccountId(account) == Pass && ValidateTicketTypeRequests(elems) == Pass
             && TotalCount(Genuine(elems)) <= MaxTickets)
              ==> PurchaseTickets(account, elems) == Fail(InsufficientAdults)
  {
    var reqs := Genuine(elems);
    CountOfPositive(reqs, ADULT);
    CountOfPositive(reqs, INFANT);
    var i :| 0 <= i < |reqs| && reqs[i].ticketType == INFANT && reqs[i].noOfTickets > 0;
    assert SomeChildOrInfantTickets(reqs);
    assert Violates(InsufficientAdults, account, elems);
    PurchaseReportsFirstViolation(account, elems, AdultsLessThanInfants);
    PurchaseReportsFirstViolation(account, elems, InsufficientAdults);
    ChecksMatchRules(account, elems);
  }

  /** An account id that is missing, a string, a fraction or below 1 is
      rejected even for a valid request. */
  lemma InvalidAccountIdsRejected()
    ensures PurchaseTickets(NotInteger, [Adult(1)]) == Fail(InvalidAccountId)
    ensures PurchaseTickets(IntegerId(0), [Adult(1)]) == Fail(InvalidAccountId)
  {
  }

  /** A purchase with no requests at all. */
  lemma NoRequestsRejected()
    ensures PurchaseTickets(IntegerId(123), []) == Fail(NoTicketsProvided)
  {
  }

  /** Non-request arguments are rejected even beside a valid request. */
  lemma MalformedRequestsRejected()
    ensures PurchaseTickets(IntegerId(123), [Malformed, Malformed, Malformed, Adult(1)])
              == Fail(InvalidTicketTypeRequests)
  {
  }

  /** 23 tickets are too many. */
  lemma MoreThanMaxTickets()
    ensures PurchaseTickets(IntegerId(123), [Adult(12), Child(10), Infant(1)]) == Fail(MaxTicketsExceeded)
  {
  }

  /** Exactly 20 tickets are allowed. */
  lemma ExactlyMaxTickets()
    ensures PurchaseTickets(IntegerId(123), [Adult(10), Child(10)]) == Pass
  {
  }

  /** Children and infants with no adult: the adult rule fires first. */
  lemma ChildrenAndInfantsWithoutAdult()
    ensures PurchaseTickets(IntegerId(123), [Child(9), Infant(9)]) == Fail(InsufficientAdults)
  {
  }

  /** More infants than adults is rejected. */
  lemma MoreInfantsThanAdults()
    ensures PurchaseTickets(IntegerId(123), [Adult(8), Infant(9)]) == Fail(AdultsLessThanInfants)
  {
  }

  /** As many infants as adults is allowed. */
  lemma AsManyInfantsAsAdults()
    ensures PurchaseTickets(IntegerId(123), [Adult(2), Infant(2)]) == Pass
  {
  }

  /** Requests of the same category accumulate. */
  lemma RepeatedCategoriesAccumulate()
    ensures PurchaseTickets(IntegerId(123), [Adult(5), Infant(4), Infant(4)]) == Fail(AdultsLessThanInfants)
  {
  }

  /** No check looks at individual counts, so requests for zero tickets pass. */
  lemma ZeroCountRequestsPass()
    ensures PurchaseTickets(IntegerId(123), [Adult(0), Child(0), Infant(0)]) == Pass
  {
  }
}
