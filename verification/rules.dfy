/** The purchase rules stated directly over the call's arguments, with no
    grouping map in sight, and the theorems tying the service to them: a
    purchase fails with the first rule it breaks, succeeds exactly when it
    breaks none, and does not depend on the order of its requests. */
module Rules {
  import opened Tickets
  import opened Counting
  import opened TicketService

  /** No adult request asks for any ticket. */
  ghost predicate NoAdultTickets(reqs: seq<TicketTypeRequest>)
  {
    forall i :: 0 <= i < |reqs| && reqs[i].ticketType == ADULT ==> reqs[i].noOfTickets == 0
  }

  /** Some child or infant request asks for at least one ticket. */
  ghost predicate SomeChildOrInfantTickets(reqs: seq<TicketTypeRequest>)
  {
    exists i :: 0 <= i < |reqs| && reqs[i].ticketType != ADULT && reqs[i].noOfTickets > 0
  }

  /** Whether the arguments break the rule whose error is `e`. */
  ghost predicate Violates(e: Err, account: AccountId, elems: seq<Elem>)
  {
    var reqs := Genuine(elems);
    match e
    case InvalidAccountId => !(account.IntegerId? && account.value >= 1)
    case NoTicketsProvided => |elems| == 0
    case InvalidTicketTypeRequests => Malformed in elems
    case MaxTicketsExceeded => TotalCount(reqs) > MaxTickets
    case InsufficientAdults => NoAdultTickets(reqs) && SomeChildOrInfantTickets(reqs)
    case AdultsLessThanInfants => CountOf(reqs, ADULT) < CountOf(reqs, INFANT)
  }

  /** `e` is broken and no rule checked before it is. */
  ghost predicate FirstViolation(e: Err, account: AccountId, elems: seq<Elem>)
  {
    Violates(e, account, elems) && forall e' :: Rank(e') < Rank(e) ==> !Violates(e', account, elems)
  }

  /** The maximum check on the grouped counts fails exactly when the
      requests ask for more than `MaxTickets` tickets in all. */
  lemma MaxCheckMatchesRule(reqs: seq<TicketTypeRequest>)
    ensures ValidateMaxTickets(GroupAndCountTickets(reqs)).Fail? <==> TotalCount(reqs) > MaxTickets
  {
    TotalIsSumOfCounts(reqs);
  }

  /** The adult-required check on the grouped counts fails exactly when no
      adult request asks for a ticket while some child or infant request does. */
  lemma AdultCheckMatchesRule(reqs: seq<TicketTypeRequest>)
    ensures ValidateAdultsWithChildOrInfant(GroupAndCountTickets(reqs)).Fail? <==>
              NoAdultTickets(reqs) && SomeChildOrInfantTickets(reqs)
  {
    var counts := GroupAndCountTickets(reqs);
    CountOfPositive(reqs, ADULT);
    CountOfPositive(reqs, CHILD);
    CountOfPositive(reqs, INFANT);
    assert Lookup(counts, ADULT) == 0 <==> NoAdultTickets(reqs);
    if SomeChildOrInfantTickets(reqs) {
      var i :| 0 <= i < |reqs| && reqs[i].ticketType != ADULT && reqs[i].noOfTickets > 0;
      assert CountOf(reqs, reqs[i].ticketType) > 0;
    }
  }

  /** The ratio check on the grouped counts fails exactly when the requests
      ask for fewer adult tickets than infant tickets. */
  lemma RatioCheckMatchesRule(reqs: seq<TicketTypeRequest>)
    ensures ValidateAdultsVsInfants(GroupAndCountTickets(reqs)).Fail? <==>
              CountOf(reqs, ADULT) < CountOf(reqs, INFANT)
  {
  }

  /** Each check of the purchase fails exactly when its rule is broken,
      given that every check before it passed. */
  lemma ChecksMatchRules(account: AccountId, elems: seq<Elem>)
    ensures ValidateAccountId(account).Fail? <==> Violates(InvalidAccountId, account, elems)
    ensures ValidateTicketTypeRequests(elems) == Fail(NoTicketsProvided) <==>
              Violates(NoTicketsProvided, account, elems)
    ensures ValidateTicketTypeRequests(elems) == Fail(InvalidTicketTypeRequests) <==>
              !Violates(NoTicketsProvided, account, elems) && Violates(InvalidTicketTypeRequests, account, elems)
    ensures var counts := GroupAndCountTickets(Genuine(elems));
            && (ValidateMaxTickets(counts).Fail? <==> Violates(MaxTicketsExceeded, account, elems))
            && (ValidateAdultsWithChildOrInfant(counts).Fail? <==> Violates(InsufficientAdults, account, elems))
            && (ValidateAdultsVsInfants(counts).Fail? <==> Violates(AdultsLessThanInfants, account, elems))
  {
    var reqs := Genuine(elems);
    MaxCheckMatchesRule(reqs);
    AdultCheckMatchesRule(reqs);
    RatioCheckMatchesRule(reqs);
    if Malformed in elems {
      var i :| 0 <= i < |elems| && elems[i] == Malformed;
      assert elems[i].Malformed?;
    }
  }

  /** Fail-fast: the purchase reports error `e` exactly when `e`'s rule is
      the first broken one, in the order the checks run. */
  lemma PurchaseReportsFirstViolation(account: AccountId, elems: seq<Elem>, e: Err)
    ensures PurchaseTickets(account, elems) == Fail(e) <==> FirstViolation(e, account, elems)
  {
    ChecksMatchRules(account, elems);
  }

  /** The purchase succeeds exactly when it breaks no rule, that is, when
      all of the following hold at once. */
  lemma PurchaseSucceedsIffNoViolation(account: AccountId, elems: seq<Elem>)
    ensures PurchaseTickets(account, elems) == Pass <==> forall e :: !Violates(e, account, elems)
    ensures PurchaseTickets(account, elems) == Pass <==>
              && account.IntegerId? && account.value >= 1
              && |elems| > 0
              && (forall i :: 0 <= i < |elems| ==> elems[i].Request?)
              && TotalCount(Genuine(elems)) <= MaxTickets
              && (SomeChildOrInfantTickets(Genuine(elems)) ==> !NoAdultTickets(Genuine(elems)))
              && CountOf(Genuine(elems), ADULT) >= CountOf(Genuine(elems), INFANT)
  {
    ChecksMatchRules(account, elems);
    if forall i :: 0 <= i < |elems| ==> elems[i].Request? {
      assert Malformed !in elems;
    }
  }

  /** Grouping depends only on which requests there are, not on their order. */
  lemma GroupingIgnoresOrder(a: seq<TicketTypeRequest>, b: seq<TicketTypeRequest>)
    requires multiset(a) == multiset(b)
    ensures GroupAndCountTickets(a) == GroupAndCountTickets(b)
  {
    var ga, gb := GroupAndCountTickets(a), GroupAndCountTickets(b);
    forall t
      ensures t in ga <==> t in gb
      ensures t in ga ==> ga[t] == gb[t]
    {
      CountOfPermutation(a, b, t);
      if t in ga {
        var i :| 0 <= i < |a| && a[i].ticketType == t;
        assert a[i] in multiset(b);
        var j :| 0 <= j < |b| && b[j] == a[i];
      }
      if t in gb {
        var j :| 0 <= j < |b| && b[j].ticketType == t;
        assert b[j] in multiset(a);
        var i :| 0 <= i < |a| && a[i] == b[j];
      }
    }
  }

  /** Reordering the arguments after the account id never changes the
      outcome of a purchase. */
  lemma PurchaseIgnoresOrder(account: AccountId, a: seq<Elem>, b: seq<Elem>)
    requires multiset(a) == multiset(b)
    ensures PurchaseTickets(account, a) == PurchaseTickets(account, b)
  {
    assert |a| == |multiset(a)| == |multiset(b)| == |b|;
    assert Malformed in a <==> Malformed in b by {
      assert Malformed in a <==> Malformed in multiset(a);
      assert Malformed in b <==> Malformed in multiset(b);
    }
    ChecksMatchRules(account, a);
    ChecksMatchRules(account, b);
    GenuinePermutation(a, b);
    GroupingIgnoresOrder(Genuine(a), Genuine(b));
  }
}
