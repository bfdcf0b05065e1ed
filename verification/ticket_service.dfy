/** The ticket service: each private check of `purchaseTickets`, the
    grouping of requests into per-category counts, and the purchase itself,
    which runs the checks in a fixed order and stops at the first failure. */
module TicketService {
  import opened Tickets
  import opened Counting

  /** Per-category ticket counts, keyed by category like the service's `Map`. */
  type TicketCounts = map<TicketType, nat>

  /** The count stored for `t`, or 0 when `t` was never stored. */
  function Lookup(counts: TicketCounts, t: TicketType): nat
  {
    if t in counts then counts[t] else 0
  }

  /** The sum of the stored counts. Every key is one of the three categories
      and a missing one reads as 0, so this adds the three lookups. */
  function TotalTickets(counts: TicketCounts): nat
  {
    Lookup(counts, ADULT) + Lookup(counts, CHILD) + Lookup(counts, INFANT)
  }

  /** The genuine requests among the arguments, in their order. */
  function Genuine(elems: seq<Elem>): (reqs: seq<TicketTypeRequest>)
    ensures |reqs| <= |elems|
    ensures (forall i :: 0 <= i < |elems| ==> elems[i].Request?) ==>
              |reqs| == |elems| && forall i :: 0 <= i < |elems| ==> reqs[i] == elems[i].req
  {
    if |elems| == 0 then []
    else (if elems[0].Request? then [elems[0].req] else []) + Genuine(elems[1..])
  }

  /** Each request occurs among the genuine requests as often as it occurs,
      wrapped, among the arguments. */
  lemma {:induction false} GenuineMultiplicity(elems: seq<Elem>, q: TicketTypeRequest)
    ensures multiset(Genuine(elems))[q] == multiset(elems)[Request(q)]
    decreases |elems|
  {
    if |elems| > 0 {
      assert elems == [elems[0]] + elems[1..];
      GenuineMultiplicity(elems[1..], q);
    }
  }

  /** Reordering the arguments reorders the genuine requests in the same way. */
  lemma GenuinePermutation(a: seq<Elem>, b: seq<Elem>)
    requires multiset(a) == multiset(b)
    ensures multiset(Genuine(a)) == multiset(Genuine(b))
  {
    forall q
      ensures multiset(Genuine(a))[q] == multiset(Genuine(b))[q]
    {
      GenuineMultiplicity(a, q);
      GenuineMultiplicity(b, q);
    }
  }

  /** The account id must be an integer of at least 1. */
  function ValidateAccountId(account: AccountId): (r: Outcome)
    ensures r == Pass || r == Fail(InvalidAccountId)
    ensures r == Pass <==> account.IntegerId? && account.value > 0
  {
    if account.NotInteger? || account.value < 1 then Fail(InvalidAccountId) else Pass
  }

  /** Scans the arguments from the first and answers whether every one is a
      genuine request. */
  function AllGenuine(elems: seq<Elem>): (b: bool)
    ensures b <==> forall i :: 0 <= i < |elems| ==> elems[i].Request?
  {
    if |elems| == 0 then true
    else if !elems[0].Request? then false
    else AllGenuine(elems[1..])
  }

  /** The argument list must be non-empty, and then every argument must be a
      genuine request; emptiness is reported first. */
  function ValidateTicketTypeRequests(elems: seq<Elem>): (r: Outcome)
    ensures r == Fail(NoTicketsProvided) <==> |elems| == 0
    ensures r == Fail(InvalidTicketTypeRequests) <==>
              |elems| > 0 && exists i :: 0 <= i < |elems| && elems[i].Malformed?
    ensures r == Pass <==> |elems| > 0 && forall i :: 0 <= i < |elems| ==> elems[i].Request?
  {
    if |elems| == 0 then Fail(NoTicketsProvided)
    else if !AllGenuine(elems) then Fail(InvalidTicketTypeRequests)
    else Pass
  }

  /** Folds the requests, in order, into a map from category to count: each
      request adds its count to what is stored for its category (0 if
      nothing is). The result holds the total of every category that occurs
      and no other key. */
  function GroupAndCountTickets(reqs: seq<TicketTypeRequest>): (counts: TicketCounts)
    ensures forall t :: Lookup(counts, t) == CountOf(reqs, t)
    ensures forall t :: t in counts <==> exists i :: 0 <= i < |reqs| && reqs[i].ticketType == t
    decreases |reqs|
  {
    if |reqs| == 0 then map[]
    else
      var prefix := reqs[..|reqs| - 1];
      var last := reqs[|reqs| - 1];
      var counts := GroupAndCountTickets(prefix);
      assert reqs == prefix + [last];
      CountOfSnoc(prefix, last);
      counts[last.ticketType := Lookup(counts, last.ticketType) + last.noOfTickets]
  }

  /** The stored counts of the categories in `seen`, added up. */
  function SumOver(counts: TicketCounts, seen: set<TicketType>): nat
  {
    (if ADULT in seen then Lookup(counts, ADULT) else 0)
    + (if CHILD in seen then Lookup(counts, CHILD) else 0)
    + (if INFANT in seen then Lookup(counts, INFANT) else 0)
  }

  /** Visiting one more stored category adds its count. */
  lemma SumOverVisit(counts: TicketCounts, seen: set<TicketType>, t: TicketType)
    requires t in counts && t !in seen
    ensures SumOver(counts, seen + {t}) == SumOver(counts, seen) + counts[t]
  {
  }

  /** Adds up the values of the map, visiting them in whatever order the
      map yields them; the sum is the total over all categories. */
  method SumOfValues(counts: TicketCounts) returns (total: nat)
    ensures total == TotalTickets(counts)
  {
    total := 0;
    var pending := counts.Keys;
    while pending != {}
      invariant pending <= counts.Keys
      invariant total == SumOver(counts, counts.Keys - pending)
      decreases pending
    {
      var t :| t in pending;
      assert counts.Keys - (pending - {t}) == (counts.Keys - pending) + {t};
      SumOverVisit(counts, counts.Keys - pending, t);
      total := total + counts[t];
      pending := pending - {t};
    }
  }

  /** At most `MaxTickets` tickets in all; exactly `MaxTickets` is allowed. */
  function ValidateMaxTickets(counts: TicketCounts): (r: Outcome)
    ensures r == Pass || r == Fail(MaxTicketsExceeded)
    ensures r == Pass <==> TotalTickets(counts) <= MaxTickets
  {
    if TotalTickets(counts) > MaxTickets then Fail(MaxTicketsExceeded) else Pass
  }

  /** Child or infant tickets need at least one adult ticket. */
  function ValidateAdultsWithChildOrInfant(counts: TicketCounts): (r: Outcome)
    ensures r == Pass || r == Fail(InsufficientAdults)
    ensures r.Fail? <==>
              Lookup(counts, ADULT) == 0 && (Lookup(counts, CHILD) > 0 || Lookup(counts, INFANT) > 0)
  {
    var adultCount := Lookup(counts, ADULT);
    var childCount := Lookup(counts, CHILD);
    var infantCount := Lookup(counts, INFANT);
    if (childCount > 0 || infantCount > 0) && adultCount == 0 then Fail(InsufficientAdults) else Pass
  }

  /** There must be at least as many adult tickets as infant tickets. */
  function ValidateAdultsVsInfants(counts: TicketCounts): (r: Outcome)
    ensures r == Pass || r == Fail(AdultsLessThanInfants)
    ensures r.Fail? <==> Lookup(counts, ADULT) < Lookup(counts, INFANT)
  {
    if Lookup(counts, ADULT) < Lookup(counts, INFANT) then Fail(AdultsLessThanInfants) else Pass
  }

  /** A purchase: the account check, the argument-list check, grouping, then
      the three count checks, each run only when every earlier one passed.
      A purchase that passes them all returns with no result. */
  function PurchaseTickets(account: AccountId, elems: seq<Elem>): (r: Outcome)
    ensures !(account.IntegerId? && account.value > 0) ==> r == Fail(InvalidAccountId)
    ensures r.Fail? && r.error != InvalidAccountId ==> account.IntegerId? && account.value > 0
    ensures r.Fail? && Rank(r.error) > Rank(InvalidTicketTypeRequests) ==>
              |elems| > 0 && forall i :: 0 <= i < |elems| ==> elems[i].Request?
  {
    var accountCheck := ValidateAccountId(account);
    if accountCheck.Fail? then accountCheck
    else
      var listCheck := ValidateTicketTypeRequests(elems);
      if listCheck.Fail? then listCheck
      else
        var counts := GroupAndCountTickets(Genuine(elems));
        var maxCheck := ValidateMaxTickets(counts);
        if maxCheck.Fail? then maxCheck
        else
          var adultCheck := ValidateAdultsWithChildOrInfant(counts);
          if adultCheck.Fail? then adultCheck
          else ValidateAdultsVsInfants(counts)
  }

  /** The position of each error's check in the purchase; lower runs first. */
  function Rank(e: Err): nat
  {
    match e
    case InvalidAccountId => 0
    case NoTicketsProvided => 1
    case InvalidTicketTypeRequests => 2
    case MaxTicketsExceeded => 3
    case InsufficientAdults => 4
    case AdultsLessThanInfants => 5
  }
}
