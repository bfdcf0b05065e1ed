# Cinema ticket purchase validation, modelled in Dafny

This project models the ticket service of a cinema-tickets exercise. The
service's one public operation, `purchaseTickets(accountId, ...ticketTypeRequests)`,
checks a purchase in six fixed steps and throws at the first one that fails:

1. the account id must be an integer of at least 1;
2. there must be at least one request, and every argument after the account
   id must be a genuine `TicketTypeRequest`;
3. the requests are grouped into a map from ticket category (ADULT, CHILD,
   INFANT) to total count;
4. at most 20 tickets in all;
5. child or infant tickets need at least one adult ticket;
6. there must be at least as many adult tickets as infant tickets.

A purchase that passes all six returns with no result.

The model is made of pure functions over immutable datatypes:

- `tickets.dfy` (module `Tickets`) defines the values. `TicketType` is the
  category, `TicketTypeRequest` is a category with a `nat` count, and `Elem`
  is one argument, either a genuine request or `Malformed`, which mirrors
  the `instanceof` test. `AccountId` is an integer-valued number or
  `NotInteger`, which mirrors `Number.isInteger`. `Err` has one tag per
  message the service throws. `Outcome` is `Pass` or `Fail(Err)`, and it
  is what every check returns.
- `counting.dfy` (module `Counting`) holds the reference sums,
  stated directly over a list of requests. `CountOf` gives the tickets of
  one category and `TotalCount` gives the tickets in all. The module proves
  that counts add up over concatenation, split by category and do not
  depend on order.
- `ticket_service.dfy` (module `TicketService`) has one member per private
  method of the service, `Genuine`, which gives the requests among the
  arguments that are handed to grouping, and `PurchaseTickets`, which runs
  the checks in the service's order.
- `rules.dfy` (module `Rules`) states each business rule over the raw
  arguments, with no grouping map involved. It proves that the purchase
  reports exactly the first broken rule, succeeds exactly when no rule is
  broken, and gives the same outcome for every order of the requests.
- `scenarios.dfy` (module `Scenarios`) works out the inputs of the
  service's own tests, the boundaries of the count rules, and the
  precedence of the adult-required rule over the adult/infant ratio rule.

## Model

| member | source | states |
|---|---|---|
| `TicketService.ValidateAccountId` | src/pairtest/TicketService.js:21-25 | passes exactly when the account id is an integer of at least 1; otherwise fails with the invalid-account-id error and no other |
| `TicketService.AllGenuine` | src/pairtest/TicketService.js:32-36 | the scan over the arguments answers true exactly when every argument is a genuine request |
| `TicketService.ValidateTicketTypeRequests` | src/pairtest/TicketService.js:27-37 | an empty list fails with no-tickets-provided; a non-empty list with any non-request argument fails with invalid-ticket-type-requests, even beside valid ones; it passes exactly when the list is non-empty and every argument is a request |
| `TicketService.GroupAndCountTickets` | src/pairtest/TicketService.js:39-53 | after the fold, looking up any category (absent reads as 0) gives the sum of the counts of all requests of that category, repeated categories accumulating; the map's keys are exactly the categories that occur in some request |
| `TicketService.SumOfValues` | src/pairtest/TicketService.js:55-60 | adding up the map's values in any visiting order yields the adult, child and infant counts added together |
| `TicketService.ValidateMaxTickets` | src/pairtest/TicketService.js:55-67 | fails only with max-tickets-exceeded, and passes exactly when the total is at most 20, so a total of exactly 20 passes |
| `TicketService.ValidateAdultsWithChildOrInfant` | src/pairtest/TicketService.js:69-77 | fails only with insufficient-adults, and exactly when the adult count is 0 while the child or infant count is positive |
| `TicketService.ValidateAdultsVsInfants` | src/pairtest/TicketService.js:79-88 | fails only with adults-less-than-infants, and exactly when the adult count is below the infant count, so equal counts pass |
| `TicketService.PurchaseTickets` | src/pairtest/TicketService.js:94-103 | a bad account id is reported whatever the requests are; any other error implies the account id was valid; an error from the count checks implies the list was non-empty and held only requests |
| `TicketService.Genuine` | src/pairtest/TicketService.js:97-99 | the requests handed to grouping: when every argument is a request, they are exactly the arguments' requests, in order |
| `Counting.CountOfAppend` | src/pairtest/TicketService.js:42-50 | the tickets of a category in two lists together are the sum of those in each list |
| `Counting.TotalIsSumOfCounts` | src/pairtest/TicketService.js:55-62 | the total number of tickets over all requests equals the adult, child and infant counts added together |
| `Counting.CountOfPositive` | src/pairtest/TicketService.js:70-74 | a category's count is positive exactly when some request of that category asks for at least one ticket |
| `Counting.CountOfPermutation` | src/pairtest/TicketService.js:39-53 | any two orderings of the same requests give every category the same count |
| `TicketService.GenuinePermutation` | src/pairtest/TicketService.js:94-99 | the genuine requests of a reordering of the arguments are a reordering of the genuine requests |
| `Rules.MaxCheckMatchesRule` | src/pairtest/TicketService.js:55-67 | the maximum check on the grouped map fails exactly when the requests ask for more than 20 tickets in all |
| `Rules.AdultCheckMatchesRule` | src/pairtest/TicketService.js:69-77 | the adult-required check on the grouped map fails exactly when no adult request asks for a ticket while some child or infant request does |
| `Rules.RatioCheckMatchesRule` | src/pairtest/TicketService.js:79-88 | the ratio check on the grouped map fails exactly when the requests ask for fewer adult than infant tickets |
| `Rules.ChecksMatchRules` | src/pairtest/TicketService.js:21-88 | each of the six checks fails exactly when its rule, stated over the raw arguments, is broken |
| `Rules.PurchaseReportsFirstViolation` | src/pairtest/TicketService.js:94-103 | fail-fast: the purchase fails with error e exactly when e's rule is broken and no rule checked before it is |
| `Rules.PurchaseSucceedsIffNoViolation` | src/pairtest/TicketService.js:94-103 | the purchase succeeds exactly when the account id is valid, the list is non-empty and holds only requests, at most 20 tickets are asked for, child or infant tickets come with an adult ticket, and adults are at least as many as infants |
| `Rules.GroupingIgnoresOrder` | src/pairtest/TicketService.js:39-53 | any two orderings of the same requests group into the same map |
| `Rules.PurchaseIgnoresOrder` | src/pairtest/TicketService.js:94-103 | any two orderings of the same arguments give the same purchase outcome |
| `Scenarios.NoAdultWithInfantsReportsInsufficientAdults` | src/pairtest/TicketService.js:101-102 | with infants and no adult, both adult rules are broken; the purchase never reports adults-less-than-infants, and once the account, list and maximum checks pass it reports insufficient-adults, because the adult-required check runs first |
| `Scenarios.InvalidAccountIdsRejected` | test/TicketService.spec.js:18-40 | a non-integer account id, or 0, is rejected with the invalid-account-id error for a valid request |
| `Scenarios.NoRequestsRejected` | test/TicketService.spec.js:49-53 | a purchase with no requests fails with no-tickets-provided |
| `Scenarios.MalformedRequestsRejected` | test/TicketService.spec.js:55-65 | three non-request arguments beside a valid request fail with invalid-ticket-type-requests |
| `Scenarios.MoreThanMaxTickets` | test/TicketService.spec.js:71-80 | 12 adults, 10 children and 1 infant, 23 tickets, fail with max-tickets-exceeded |
| `Scenarios.ExactlyMaxTickets` | src/pairtest/TicketService.js:62-64 | 10 adults and 10 children, exactly 20 tickets, pass |
| `Scenarios.ChildrenAndInfantsWithoutAdult` | test/TicketService.spec.js:88-96 | 9 children and 9 infants with no adult fail with insufficient-adults |
| `Scenarios.MoreInfantsThanAdults` | test/TicketService.spec.js:104-112 | 8 adults and 9 infants fail with adults-less-than-infants |
| `Scenarios.AsManyInfantsAsAdults` | src/pairtest/TicketService.js:83 | 2 adults and 2 infants pass |
| `Scenarios.RepeatedCategoriesAccumulate` | src/pairtest/TicketService.js:46-49 | two infant requests of 4 add up to 8 against 5 adults, so the purchase fails the ratio rule |
| `Scenarios.ZeroCountRequestsPass` | src/pairtest/TicketService.js:94-103 | requests for zero tickets of each category pass, because no check looks at individual counts |

## Left out

- Pricing, seat counting, and payment and seat-reservation calls: the purchase ends after the adult/infant ratio check (src/pairtest/TicketService.js:102-103). No cost or seat count is computed and no other service is called, so the model has none of these.
- The empty-list and malformed-list failures are distinct messages (src/pairtest/TicketService.js:7-10), and the model keeps them as two distinct tags.
- No check looks at an individual request's count. Only the list's length is checked, so requests for zero tickets pass, as `Scenarios.ZeroCountRequestsPass` shows.
- The `TicketTypeRequest` constructor and its freezing: src/pairtest/lib/TicketTypeRequest.js is not part of this model. A request is taken as a category from the three and a `nat` count. Counts are not claimed to be positive.
- Error classes and message text: the service throws `TypeError`, `RangeError` and `InvalidPurchaseException` (src/pairtest/lib/InvalidPurchaseException.js is not part of this model) with fixed messages. The model keeps one tag per message and drops the class and the text.
- The `TICKET_VALIDATION_FAILED` message is defined but never thrown, so it has no tag.
- The rest-parameter mechanics of JavaScript are not modelled. The arguments after the account id are a plain sequence, and a call with only an account id is the empty sequence.
- Floating point: JavaScript numbers are doubles, so sums above 2^53 would lose precision. Counts and account ids are unbounded integers here.
