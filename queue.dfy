/** The walk-in queue of `QueueService`: one table of tickets, each moving
    WAITING -> CALLED -> COMPLETED, served per doctor in creation order.

    The ticket table is a sequence in creation order. The store assigns ids
    and creation stamps from one counter, so both strictly increase along the
    sequence. Timestamps written by `callNext` and `complete` are the `now`
    argument. An id argument that JavaScript would find falsy (absent, null,
    0) is 0 here. */
module Queue {
  import opened Wrappers

  datatype Status = Waiting | Called | Completed | Cancelled

  datatype Ticket = Ticket(
    id: nat,
    doctorId: int,
    patientId: int,
    status: Status,
    createdAt: nat,
    calledAt: Option<int>,
    completedAt: Option<int>)

  datatype QueueError =
    | MissingIds      // 'doctorId y patientId son obligatorios'
    | MissingDoctor   // 'doctorId es obligatorio'
    | TicketNotFound  // 'Ticket no encontrado'

  /** A ticket together with its 1-based place in the queue (0 once served). */
  datatype Placed = Placed(ticket: Ticket, position: nat)

  // ---------------------------------------------------------------------
  // Queries over the ticket table

  /** Creation stamps and ids strictly increase along the table. */
  predicate Ordered(ts: seq<Ticket>) {
    forall i, j :: 0 <= i < j < |ts| ==> ts[i].createdAt < ts[j].createdAt && ts[i].id < ts[j].id
  }

  /** Every CALLED ticket has its call time, every COMPLETED one its completion time. */
  predicate Stamped(ts: seq<Ticket>) {
    forall i :: 0 <= i < |ts| ==>
      (ts[i].status == Called ==> ts[i].calledAt.Some?) &&
      (ts[i].status == Completed ==> ts[i].completedAt.Some?)
  }

  /** The ticket counts for the query "WAITING for doctor `d`", and for patient `p` when given. */
  predicate IsWaitingFor(t: Ticket, d: int, p: Option<int>) {
    t.doctorId == d && t.status == Waiting && (p.None? || t.patientId == p.value)
  }

  /** `count({doctorId: d, status: WAITING, createdAt: {lt: c}})`. */
  function CountAhead(ts: seq<Ticket>, d: int, c: int): nat {
    if ts == [] then 0
    else (if IsWaitingFor(ts[0], d, None) && ts[0].createdAt < c then 1 else 0) + CountAhead(ts[1..], d, c)
  }

  /** The WAITING tickets of doctor `d`, oldest first: the doctor's queue. */
  function WaitingOf(ts: seq<Ticket>, d: int): (w: seq<Ticket>)
    ensures |w| <= |ts|
    ensures forall t :: t in w ==> t in ts && IsWaitingFor(t, d, None)
  {
    if ts == [] then []
    else (if IsWaitingFor(ts[0], d, None) then [ts[0]] else []) + WaitingOf(ts[1..], d)
  }

  /** The position `getPosition` reports for a ticket that exists: 0 unless
      it is WAITING, else one more than the WAITING tickets of the same
      doctor created strictly earlier. */
  function Position(ts: seq<Ticket>, t: Ticket): (p: nat)
    ensures t.status == Waiting <==> p >= 1
  {
    if t.status != Waiting then 0 else CountAhead(ts, t.doctorId, t.createdAt) + 1
  }

  /** `getPosition(ticket)`: null for no ticket, otherwise `Position`. */
  function GetPosition(ts: seq<Ticket>, t: Option<Ticket>): (p: Option<nat>)
    ensures p.None? <==> t.None?
    ensures t.Some? && t.value.status != Waiting ==> p == Some(0)
    ensures t.Some? && t.value.status == Waiting ==> p.Some? && p.value >= 1
  {
    match t
    case None => None
    case Some(ticket) => Some(Position(ts, ticket))
  }

  /** `findFirst({doctorId: d, [patientId: p,] status: WAITING})`: the index
      of the first matching ticket in the table. */
  function FindWaiting(ts: seq<Ticket>, d: int, p: Option<int>): (r: Option<nat>)
    ensures r.Some? ==> r.value < |ts| && IsWaitingFor(ts[r.value], d, p)
    ensures r.Some? ==> forall j :: 0 <= j < r.value ==> !IsWaitingFor(ts[j], d, p)
    ensures r.None? ==> forall j :: 0 <= j < |ts| ==> !IsWaitingFor(ts[j], d, p)
  {
    if ts == [] then None
    else if IsWaitingFor(ts[0], d, p) then Some(0)
    else match FindWaiting(ts[1..], d, p)
      case None => None
      case Some(k) => Some(k + 1)
  }

  /** `findUnique({id})`: the index of the ticket with that id. */
  function IndexOfId(ts: seq<Ticket>, id: int): (r: Option<nat>)
    ensures r.Some? ==> r.value < |ts| && ts[r.value].id == id
    ensures r.None? ==> forall j :: 0 <= j < |ts| ==> ts[j].id != id
  {
    if ts == [] then None
    else if ts[0].id == id then Some(0)
    else match IndexOfId(ts[1..], id)
      case None => None
      case Some(k) => Some(k + 1)
  }

  /** `findFirst({doctorId: d, status: CALLED}, orderBy calledAt desc)`:
      a CALLED ticket of `d` whose call time is the latest. */
  function LatestCalled(ts: seq<Ticket>, d: int): (r: Option<nat>)
    requires Stamped(ts)
    ensures r.Some? ==> r.value < |ts| && ts[r.value].doctorId == d && ts[r.value].status == Called
    ensures r.Some? ==> forall j :: 0 <= j < |ts| && ts[j].doctorId == d && ts[j].status == Called ==>
                          ts[j].calledAt.value <= ts[r.value].calledAt.value
    ensures r.None? ==> forall j :: 0 <= j < |ts| ==> !(ts[j].doctorId == d && ts[j].status == Called)
  {
    if ts == [] then None
    else
      var rest := LatestCalled(ts[1..], d);
      if ts[0].doctorId == d && ts[0].status == Called &&
         (rest.None? || ts[rest.value + 1].calledAt.value < ts[0].calledAt.value)
      then Some(0)
      else match rest
        case None => None
        case Some(k) => Some(k + 1)
  }

  /** The row `join` creates. */
  function NewTicket(n: nat, d: int, p: int): Ticket {
    Ticket(n, d, p, Waiting, n, None, None)
  }

  /** The conditional update of `callNext`. */
  function Call(t: Ticket, now: int): Ticket {
    t.(status := Called, calledAt := Some(now))
  }

  /** The update of `complete`. */
  function Finish(t: Ticket, now: int): Ticket {
    t.(status := Completed, completedAt := Some(now))
  }

  // ---------------------------------------------------------------------
  // The service

  class QueueService {
    var tickets: seq<Ticket>
    var nextId: nat

    ghost predicate Valid()
      reads this
    {
      && Ordered(tickets)
      && Stamped(tickets)
      && (forall i :: 0 <= i < |tickets| ==> tickets[i].id < nextId && tickets[i].createdAt < nextId)
    }

    constructor ()
      ensures Valid() && tickets == [] && nextId == 1
    {
      tickets := [];
      nextId := 1;
    }

    /** `getPosition(ticket)` against the current table. */
    function GetPositionOf(t: Option<Ticket>): (p: Option<nat>)
      reads this
      ensures p.None? <==> t.None?
      ensures t.Some? ==> p == Some(Position(tickets, t.value))
    {
      GetPosition(tickets, t)
    }

    /** `join({doctorId, patientId})`. */
    method Join(doctorId: int, patientId: int) returns (r: Result<Placed, QueueError>)
      requires Valid()
      modifies this
      ensures Valid()
      ensures doctorId == 0 || patientId == 0 ==>
        r == Err(MissingIds) && tickets == old(tickets) && nextId == old(nextId)
      ensures doctorId != 0 && patientId != 0 && FindWaiting(old(tickets), doctorId, Some(patientId)).Some? ==>
        var i := FindWaiting(old(tickets), doctorId, Some(patientId)).value;
        && tickets == old(tickets) && nextId == old(nextId)
        && r == Ok(Placed(tickets[i], Position(tickets, tickets[i])))
      ensures doctorId != 0 && patientId != 0 && FindWaiting(old(tickets), doctorId, Some(patientId)).None? ==>
        var t := NewTicket(old(nextId), doctorId, patientId);
        && tickets == old(tickets) + [t] && nextId == old(nextId) + 1
        && r == Ok(Placed(t, Position(tickets, t)))
    {
      if doctorId == 0 || patientId == 0 {
        return Err(MissingIds);
      }
      var existing := FindWaiting(tickets, doctorId, Some(patientId));
      if existing.Some? {
        var t := tickets[existing.value];
        return Ok(Placed(t, Position(tickets, t)));
      }
      var t := NewTicket(nextId, doctorId, patientId);
      tickets := tickets + [t];
      nextId := nextId + 1;
      r := Ok(Placed(t, Position(tickets, t)));
    }

    /** `getCurrentForDoctor(doctorId)`. */
    function GetCurrentForDoctor(doctorId: int): (r: Option<Ticket>)
      requires Valid()
      reads this
      ensures r.Some? ==> r.value in tickets && r.value.doctorId == doctorId && r.value.status == Called
      ensures r.Some? ==> forall t :: t in tickets && t.doctorId == doctorId && t.status == Called ==>
                            t.calledAt.value <= r.value.calledAt.value
      ensures r.None? ==> forall t :: t in tickets ==> !(t.doctorId == doctorId && t.status == Called)
    {
      match LatestCalled(tickets, doctorId)
      case None => None
      case Some(i) => Some(tickets[i])
    }

    /** `updateMany({where: {id, status: WAITING}, data: {status: CALLED, calledAt}})`
        on the ticket at index `i`: the number of rows it changed. */
    method CallIfWaiting(i: nat, now: int) returns (count: nat)
      requires Valid() && i < |tickets|
      modifies this
      ensures Valid() && nextId == old(nextId)
      ensures old(tickets)[i].status == Waiting ==> count == 1 && tickets == old(tickets)[i := Call(old(tickets)[i], now)]
      ensures old(tickets)[i].status != Waiting ==> count == 0 && tickets == old(tickets)
    {
      if tickets[i].status == Waiting {
        tickets := tickets[i := Call(tickets[i], now)];
        count := 1;
      } else {
        count := 0;
      }
    }

    /** `callNext(doctorId)`: the oldest WAITING ticket of the doctor becomes CALLED. */
    method CallNext(doctorId: int, now: int) returns (r: Result<Option<Ticket>, QueueError>)
      requires Valid()
      modifies this
      ensures Valid() && nextId == old(nextId)
      ensures doctorId == 0 ==> r == Err(MissingDoctor) && tickets == old(tickets)
      ensures doctorId != 0 && FindWaiting(old(tickets), doctorId, None).None? ==>
        r == Ok(None) && tickets == old(tickets)
      ensures doctorId != 0 && FindWaiting(old(tickets), doctorId, None).Some? ==>
        var i := FindWaiting(old(tickets), doctorId, None).value;
        && tickets == old(tickets)[i := Call(old(tickets)[i], now)]
        && r == Ok(Some(tickets[i]))
    {
      if doctorId == 0 {
        return Err(MissingDoctor);
      }
      var next := FindWaiting(tickets, doctorId, None);
      if next.None? {
        return Ok(None);
      }
      var i := next.value;
      var count := CallIfWaiting(i, now);
      if count != 1 {
        // The retry path of the source: only a concurrent caller can have
        // moved the ticket between the read and the conditional update.
        assert false;
      }
      r := Ok(Some(tickets[i]));
    }

    /** `complete(ticketId)`: the ticket becomes COMPLETED whatever its status. */
    method Complete(ticketId: int, now: int) returns (r: Result<Ticket, QueueError>)
      requires Valid()
      modifies this
      ensures Valid() && nextId == old(nextId)
      ensures IndexOfId(old(tickets), ticketId).None? ==> r == Err(TicketNotFound) && tickets == old(tickets)
      ensures IndexOfId(old(tickets), ticketId).Some? ==>
        var i := IndexOfId(old(tickets), ticketId).value;
        && tickets == old(tickets)[i := Finish(old(tickets)[i], now)]
        && r == Ok(tickets[i])
    {
      var found := IndexOfId(tickets, ticketId);
      if found.None? {
        return Err(TicketNotFound);
      }
      var i := found.value;
      tickets := tickets[i := Finish(tickets[i], now)];
      r := Ok(tickets[i]);
    }

    /** `position(ticketId)`. */
    function PositionOf(ticketId: int): (r: Result<Placed, QueueError>)
      reads this
      ensures r.Err? <==> forall t :: t in tickets ==> t.id != ticketId
      ensures r.Err? ==> r.error == TicketNotFound
      ensures r.Ok? ==> r.value.ticket in tickets && r.value.ticket.id == ticketId
                        && r.value.position == Position(tickets, r.value.ticket)
    {
      match IndexOfId(tickets, ticketId)
      case None => Err(TicketNotFound)
      case Some(i) => Ok(Placed(tickets[i], Position(tickets, tickets[i])))
    }
  }

  // ---------------------------------------------------------------------
  // Properties of the queue

  /** No ticket created at or after `c` is counted. */
  lemma {:induction false} CountAheadOfEarlier(ts: seq<Ticket>, d: int, c: int)
    requires forall j :: 0 <= j < |ts| ==> ts[j].createdAt >= c
    ensures CountAhead(ts, d, c) == 0
  {
    if ts != [] {
      CountAheadOfEarlier(ts[1..], d, c);
    }
  }

  lemma OrderedTail(ts: seq<Ticket>)
    requires Ordered(ts) && ts != []
    ensures Ordered(ts[1..])
    ensures forall j :: 0 <= j < |ts[1..]| ==> ts[0].createdAt < ts[1..][j].createdAt
  {
  }

  /** In creation order, the WAITING tickets of a doctor hold positions
      1, 2, ..., N, without gaps or repeats. */
  lemma {:induction false} PositionsAreOneToN(ts: seq<Ticket>, d: int)
    requires Ordered(ts)
    ensures forall k :: 0 <= k < |WaitingOf(ts, d)| ==> Position(ts, WaitingOf(ts, d)[k]) == k + 1
  {
    if ts != [] {
      var h, rest := ts[0], ts[1..];
      OrderedTail(ts);
      PositionsAreOneToN(rest, d);
      var w := WaitingOf(ts, d);
      forall k | 0 <= k < |w|
        ensures Position(ts, w[k]) == k + 1
      {
        var wr := WaitingOf(rest, d);
        var c := w[k].createdAt;
        assert w[k] in w;
        assert CountAhead(ts, d, c) ==
               (if IsWaitingFor(h, d, None) && h.createdAt < c then 1 else 0) + CountAhead(rest, d, c);
        if IsWaitingFor(h, d, None) {
          assert w == [h] + wr;
          if k == 0 {
            CountAheadOfEarlier(rest, d, h.createdAt);
          } else {
            assert w[k] == wr[k - 1];
            assert w[k] in rest;
            assert h.createdAt < c;
            assert Position(rest, wr[k - 1]) == k;
          }
        } else {
          assert w == wr;
          assert Position(rest, wr[k]) == k + 1;
        }
      }
    }
  }

  lemma {:induction false} CountAheadAppend(ts: seq<Ticket>, t: Ticket, d: int, c: int)
    ensures CountAhead(ts + [t], d, c) ==
            CountAhead(ts, d, c) + (if IsWaitingFor(t, d, None) && t.createdAt < c then 1 else 0)
  {
    if ts == [] {
      assert [t][1..] == [];
    } else {
      assert (ts + [t])[1..] == ts[1..] + [t];
      CountAheadAppend(ts[1..], t, d, c);
    }
  }

  lemma {:induction false} CountAheadOfLater(ts: seq<Ticket>, d: int, c: int)
    requires forall j :: 0 <= j < |ts| ==> ts[j].createdAt < c
    ensures CountAhead(ts, d, c) == |WaitingOf(ts, d)|
  {
    if ts != [] {
      CountAheadOfLater(ts[1..], d, c);
    }
  }

  /** A newly created ticket joins the back of its doctor's queue, and the
      tickets already waiting keep their positions. */
  lemma JoinGoesToBack(ts: seq<Ticket>, t: Ticket)
    requires forall j :: 0 <= j < |ts| ==> ts[j].createdAt < t.createdAt
    requires t.status == Waiting
    ensures Position(ts + [t], t) == |WaitingOf(ts, t.doctorId)| + 1
    ensures forall u :: u in ts ==> Position(ts + [t], u) == Position(ts, u)
  {
    CountAheadAppend(ts, t, t.doctorId, t.createdAt);
    CountAheadOfLater(ts, t.doctorId, t.createdAt);
    forall u | u in ts
      ensures Position(ts + [t], u) == Position(ts, u)
    {
      CountAheadAppend(ts, t, u.doctorId, u.createdAt);
    }
  }

  lemma {:induction false} FindWaitingAppend(ts: seq<Ticket>, t: Ticket, d: int, p: Option<int>)
    requires FindWaiting(ts, d, p).None? && IsWaitingFor(t, d, p)
    ensures FindWaiting(ts + [t], d, p) == Some(|ts|)
  {
    if ts == [] {
    } else {
      assert (ts + [t])[1..] == ts[1..] + [t];
      FindWaitingAppend(ts[1..], t, d, p);
    }
  }

  /** `join` is idempotent: once a ticket was created for a doctor and
      patient, joining again finds that very ticket (so the table stays as it is). */
  lemma JoinAgainFindsSameTicket(ts: seq<Ticket>, n: nat, d: int, p: int)
    requires FindWaiting(ts, d, Some(p)).None?
    ensures FindWaiting(ts + [NewTicket(n, d, p)], d, Some(p)) == Some(|ts|)
  {
    FindWaitingAppend(ts, NewTicket(n, d, p), d, Some(p));
  }

  /** The ticket `callNext` picks has the smallest creation stamp among
      the doctor's WAITING tickets. */
  lemma CallNextPicksOldest(ts: seq<Ticket>, d: int)
    requires Ordered(ts) && FindWaiting(ts, d, None).Some?
    ensures var i := FindWaiting(ts, d, None).value;
      forall j :: 0 <= j < |ts| && j != i && IsWaitingFor(ts[j], d, None) ==> ts[i].createdAt < ts[j].createdAt
  {
  }

  /** Calling the next ticket removes exactly the head of that doctor's
      queue, and leaves every other doctor's queue as it was. */
  lemma {:induction false} CallNextPopsHead(ts: seq<Ticket>, d: int, now: int, e: int)
    requires FindWaiting(ts, d, None).Some?
    ensures var i := FindWaiting(ts, d, None).value;
      var after := ts[i := Call(ts[i], now)];
      && WaitingOf(ts, d) != []
      && WaitingOf(after, d) == WaitingOf(ts, d)[1..]
      && (e != d ==> WaitingOf(after, e) == WaitingOf(ts, e))
  {
    var i := FindWaiting(ts, d, None).value;
    var after := ts[i := Call(ts[i], now)];
    if i == 0 {
      assert after[1..] == ts[1..];
    } else {
      assert FindWaiting(ts[1..], d, None) == Some(i - 1);
      CallNextPopsHead(ts[1..], d, now, e);
      assert after[1..] == ts[1..][i - 1 := Call(ts[i], now)];
      assert after[0] == ts[0];
    }
  }

  /** After `callNext`, every ticket still waiting for that doctor moves up by one. */
  lemma CallNextMovesQueueUp(ts: seq<Ticket>, d: int, now: int)
    requires Ordered(ts) && FindWaiting(ts, d, None).Some?
    ensures var i := FindWaiting(ts, d, None).value;
      var after := ts[i := Call(ts[i], now)];
      forall k :: 1 <= k < |WaitingOf(ts, d)| ==>
        Position(after, WaitingOf(ts, d)[k]) == Position(ts, WaitingOf(ts, d)[k]) - 1
  {
    var i := FindWaiting(ts, d, None).value;
    var after := ts[i := Call(ts[i], now)];
    CallNextPopsHead(ts, d, now, d);
    assert Ordered(after);
    PositionsAreOneToN(ts, d);
    PositionsAreOneToN(after, d);
  }

  /** The source keeps no "one CALLED ticket per doctor" rule: two calls in a
      row leave two CALLED tickets for the same doctor. */
  lemma TwoCalledTicketsAreReachable()
    ensures var ts := [NewTicket(1, 7, 40), NewTicket(2, 7, 41)];
      var ts1 := ts[0 := Call(ts[0], 600)];
      var ts2 := ts1[1 := Call(ts1[1], 610)];
      && FindWaiting(ts, 7, None) == Some(0)
      && FindWaiting(ts1, 7, None) == Some(1)
      && ts2[0].status == Called && ts2[1].status == Called
  {
  }

  /** A CALLED patient is not WAITING, so `join` gives them a second active ticket. */
  lemma CalledPatientCanJoinAgain(ts: seq<Ticket>, d: int, p: int)
    requires ts == [Call(NewTicket(1, d, p), 600)]
    ensures FindWaiting(ts, d, Some(p)).None?
  {
  }
}
