/** `POST /api/pledges` of `src/backend/routes/pledges.js`: two checks on the request body,
    then the event lookup, then the insertion. The route has no authentication. */
module PledgeRoutes {
  import opened Common
  import opened EventModel

  /** The `amount` of the body. `Missing` is a falsy value (absent, `null`, `""`), for
      which `parseFloat` gives NaN; `Given(Some(v))` is a value that reads as the whole
      number `v`; `Given(None)` is a truthy value that is not a number (`"abc"`), which
      `parseFloat` turns into NaN and the schema's Number cast refuses on save. */
  datatype AmountInput = Missing | Given(parsed: Option<int>)

  datatype PledgeRequest = PledgeRequest(eventId: Option<EventId>, donorName: string, donorEmail: string,
                                         amount: AmountInput)

  datatype PledgeReply =
    | NonPositiveAmount        // 400 'Pledge amount must be greater than 0'
    | FillAllFields            // 400 'Please fill all fields'
    | PledgeEventNotFound      // 404 'Event not found'
    | EventClosed              // 400 'This event is closed and no longer accepting pledges'
    | PledgeCreated(pledge: Pledge)  // 201 the stored pledge
    | PledgeFailed             // 500: the schema's cast of `amount` failed
  {
    function Status(): int
    {
      match this
      case NonPositiveAmount => 400
      case FillAllFields => 400
      case PledgeEventNotFound => 404
      case EventClosed => 400
      case PledgeCreated(_) => 201
      case PledgeFailed => 500
    }
  }

  datatype PledgesOutcome = PledgesOutcome(reply: PledgeReply, pledges: seq<Pledge>)

  /** The two body checks, in their order: `parseFloat(amount) <= 0` (false for NaN), then
      a falsy field. `None` lets the request through to the store. */
  function CheckBody(req: PledgeRequest): (r: Option<PledgeReply>)
    ensures r == Some(NonPositiveAmount) <==> req.amount.Given? && req.amount.parsed.Some? && req.amount.parsed.value <= 0
    ensures r == Some(FillAllFields) <==>
              !(req.amount.Given? && req.amount.parsed.Some? && req.amount.parsed.value <= 0)
              && (req.eventId.None? || req.donorName == "" || req.donorEmail == "" || req.amount.Missing?)
    ensures r.Some? ==> r == Some(NonPositiveAmount) || r == Some(FillAllFields)
  {
    if req.amount.Given? && req.amount.parsed.Some? && req.amount.parsed.value <= 0 then Some(NonPositiveAmount)
    else if req.eventId.None? || req.donorName == "" || req.donorEmail == "" || req.amount.Missing? then Some(FillAllFields)
    else None
  }

  function AddPledge(events: seq<Event>, pledges: seq<Pledge>, req: PledgeRequest, now: int): (o: PledgesOutcome)
    ensures CheckBody(req).Some? ==> o == PledgesOutcome(CheckBody(req).value, pledges)
    ensures CheckBody(req).None? && FindEvent(events, req.eventId.value).None? ==>
              o == PledgesOutcome(PledgeEventNotFound, pledges)
    ensures CheckBody(req).None? && FindEvent(events, req.eventId.value).Some?
            && events[FindEvent(events, req.eventId.value).value].status == Closed ==>
              o == PledgesOutcome(EventClosed, pledges)
    ensures o.reply.PledgeCreated? <==>
              && CheckBody(req).None? && FindEvent(events, req.eventId.value).Some?
              && events[FindEvent(events, req.eventId.value).value].status == Active
              && req.amount.parsed.Some?
    ensures o.reply.PledgeCreated? ==>
              && o.pledges == pledges + [o.reply.pledge]
              && o.reply.pledge == Pledge(req.eventId.value, req.donorName, req.donorEmail, req.amount.parsed.value, now)
              && o.reply.pledge.amount > 0
    ensures !o.reply.PledgeCreated? ==> o.pledges == pledges
  {
    match CheckBody(req)
    case Some(refusal) => PledgesOutcome(refusal, pledges)
    case None =>
      var id := req.eventId.value;
      match FindEvent(events, id)
      case None => PledgesOutcome(PledgeEventNotFound, pledges)
      case Some(i) =>
        if events[i].status == Closed then PledgesOutcome(EventClosed, pledges)
        else if req.amount.parsed.None? then PledgesOutcome(PledgeFailed, pledges)
        else
          var p := NewPledge(id, req.donorName, req.donorEmail, req.amount.parsed.value, now);
          assert p.amount > 0;
          assert events[FindEvent(events, req.eventId.value).value].status == Active;
          PledgesOutcome(PledgeCreated(p), pledges + [p])
  }

  /** The body checks come before any read: a request they refuse gets the same reply
      against every store, and no store changes. */
  lemma BodyChecksPrecedeLookup(events1: seq<Event>, pledges1: seq<Pledge>, events2: seq<Event>,
                                pledges2: seq<Pledge>, req: PledgeRequest, now: int)
    requires CheckBody(req).Some?
    ensures AddPledge(events1, pledges1, req, now).reply == AddPledge(events2, pledges2, req, now).reply
    ensures AddPledge(events1, pledges1, req, now).pledges == pledges1
  {
  }

  /** A stored pledge raises its event's total by its amount and leaves every other
      event's pledges as they were. */
  lemma PledgeRaisesTotal(events: seq<Event>, pledges: seq<Pledge>, req: PledgeRequest, now: int, other: EventId)
    requires AddPledge(events, pledges, req, now).reply.PledgeCreated?
    ensures var after := AddPledge(events, pledges, req, now).pledges;
            var v := req.amount.parsed.value;
            && TotalPledged(PledgesOf(after, req.eventId.value)) == TotalPledged(PledgesOf(pledges, req.eventId.value)) + v
            && |PledgesOf(after, req.eventId.value)| == |PledgesOf(pledges, req.eventId.value)| + 1
            && (other != req.eventId.value ==> PledgesOf(after, other) == PledgesOf(pledges, other))
  {
    var p := AddPledge(events, pledges, req, now).reply.pledge;
    var id := req.eventId.value;
    FilterAppend(pledges, p, (q: Pledge) => q.event == id);
    FilterAppend(pledges, p, (q: Pledge) => q.event == other);
    TotalPledgedAppend(PledgesOf(pledges, id), p);
  }
}
