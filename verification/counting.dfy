/** Reference definitions of how many tickets a list of requests asks for,
    stated directly over the list, and the facts about them that the
    grouping of requests relies on. */
module Counting {
  import opened Tickets

  /** The tickets one request contributes to category `t`. */
  function Share(q: TicketTypeRequest, t: TicketType): nat
  {
    if q.ticketType == t then q.noOfTickets else 0
  }

  /** The number of tickets of category `t` asked for by `reqs`: requests of
      the same category add up, and a category nobody asks for counts 0. */
  function CountOf(reqs: seq<TicketTypeRequest>, t: TicketType): nat
  {
    if |reqs| == 0 then 0
    else Share(reqs[0], t) + CountOf(reqs[1..], t)
  }

  /** The number of tickets asked for by `reqs`, whatever their category. */
  function TotalCount(reqs: seq<TicketTypeRequest>): nat
  {
    if |reqs| == 0 then 0 else reqs[0].noOfTickets + TotalCount(reqs[1..])
  }

  lemma {:induction false} CountOfAppend(a: seq<TicketTypeRequest>, b: seq<TicketTypeRequest>, t: TicketType)
    ensures CountOf(a + b, t) == CountOf(a, t) + CountOf(b, t)
    decreases |a|
  {
    if |a| == 0 {
      assert a + b == b;
    } else {
      assert (a + b)[1..] == a[1..] + b;
      CountOfAppend(a[1..], b, t);
    }
  }

  /** Adding one request at the end adds its tickets to its own category only. */
  lemma CountOfSnoc(reqs: seq<TicketTypeRequest>, last: TicketTypeRequest)
    ensures forall t :: CountOf(reqs + [last], t) == CountOf(reqs, t) + Share(last, t)
  {
    forall t
      ensures CountOf(reqs + [last], t) == CountOf(reqs, t) + Share(last, t)
    {
      CountOfAppend(reqs, [last], t);
    }
  }

  /** Counting every ticket at once is the same as counting each category. */
  lemma {:induction false} TotalIsSumOfCounts(reqs: seq<TicketTypeRequest>)
    ensures TotalCount(reqs) == CountOf(reqs, ADULT) + CountOf(reqs, CHILD) + CountOf(reqs, INFANT)
    decreases |reqs|
  {
    if |reqs| > 0 {
      TotalIsSumOfCounts(reqs[1..]);
    }
  }

  /** A category has tickets exactly when some request of it has a positive count. */
  lemma {:induction false} CountOfPositive(reqs: seq<TicketTypeRequest>, t: TicketType)
    ensures CountOf(reqs, t) > 0 <==>
              exists i :: 0 <= i < |reqs| && reqs[i].ticketType == t && reqs[i].noOfTickets > 0
    decreases |reqs|
  {
    if |reqs| > 0 {
      CountOfPositive(reqs[1..], t);
      if CountOf(reqs[1..], t) > 0 {
        var j :| 0 <= j < |reqs[1..]| && reqs[1..][j].ticketType == t && reqs[1..][j].noOfTickets > 0;
        assert reqs[j + 1] == reqs[1..][j];
      }
      if exists i :: 0 <= i < |reqs| && reqs[i].ticketType == t && reqs[i].noOfTickets > 0 {
        var i :| 0 <= i < |reqs| && reqs[i].ticketType == t && reqs[i].noOfTickets > 0;
        if i > 0 {
          assert reqs[1..][i - 1] == reqs[i];
        }
      }
    }
  }

  /** Taking request `i` out of a list takes away exactly its share. */
  lemma CountOfRemove(b: seq<TicketTypeRequest>, i: nat, t: TicketType)
    requires i < |b|
    ensures CountOf(b, t) == CountOf(b[..i] + b[i + 1..], t) + Share(b[i], t)
  {
    assert b == b[..i] + ([b[i]] + b[i + 1..]);
    CountOfAppend(b[..i], [b[i]] + b[i + 1..], t);
    CountOfAppend([b[i]], b[i + 1..], t);
    CountOfAppend(b[..i], b[i + 1..], t);
  }

  /** Taking request `i` out of a list takes one copy of it out of its multiset. */
  lemma MultisetRemove(b: seq<TicketTypeRequest>, i: nat)
    requires i < |b|
    ensures multiset(b[..i] + b[i + 1..]) == multiset(b) - multiset{b[i]}
  {
    assert b == b[..i] + [b[i]] + b[i + 1..];
  }

  /** The count of a category depends only on which requests there are, not
      on their order. */
  lemma {:induction false} CountOfPermutation(a: seq<TicketTypeRequest>, b: seq<TicketTypeRequest>, t: TicketType)
    requires multiset(a) == multiset(b)
    ensures CountOf(a, t) == CountOf(b, t)
    decreases |a|
  {
    if |a| == 0 {
      assert |b| == |multiset(b)| == 0;
    } else {
      var x := a[0];
      assert a == [x] + a[1..];
      assert multiset(a[1..]) == multiset(a) - multiset{x};
      assert x in multiset(b);
      var i :| 0 <= i < |b| && b[i] == x;
      MultisetRemove(b, i);
      CountOfPermutation(a[1..], b[..i] + b[i + 1..], t);
      CountOfRemove(b, i, t);
    }
  }
}
