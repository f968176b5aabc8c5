/** The rules of `src/backend/routes/events.js`: the organizer's list, create, the
    ownership gate shared by update, delete and close, the public list and the single
    event. Mutations are functions from the event collection to the reply and the
    collection saved; `Events.EventStore` performs them in place. Progress is an exact
    ratio: the floating-point rounding of the source is not modelled. */
module EventRoutes {
  import opened Common
  import opened UserModel
  import opened EventModel

  datatype EventReply =
    | EventNotFound              // 404 'Event not found'
    | NotAuthorized              // 401 'User not authorized'
    | HasPledges                 // 400 'Cannot delete an event that has pledges.'
    | Created(event: Event)      // 201 the new event
    | Saved(event: Event)        // 200 the updated or closed event
    | Removed                    // 200 'Event removed'
    | SaveFailed                 // 500: the schema's validation refused the document
  {
    function Status(): int
    {
      match this
      case EventNotFound => 404
      case NotAuthorized => 401
      case HasPledges => 400
      case Created(_) => 201
      case Saved(_) => 200
      case Removed => 200
      case SaveFailed => 500
    }
  }

  datatype EventsOutcome = EventsOutcome(reply: EventReply, events: seq<Event>)

  /** `event.targetGoal ? (totalPledged / event.targetGoal) * 100 : 0`. */
  function Progress(total: int, goal: int): (p: real)
    ensures goal == 0 ==> p == 0.0
    ensures goal != 0 ==> p * (goal as real) == (total as real) * 100.0
  {
    if goal == 0 then 0.0 else (total as real / goal as real) * 100.0
  }

  // ---------------------------------------------------------------- the ownership gate

  datatype Ownership = Missing | NotOwner | Owned(index: nat)

  /** `findById`, then `!event.organizer || event.organizer.toString() !== req.user.id`:
      a missing event is reported before ownership is looked at. */
  function CheckOwner(events: seq<Event>, id: EventId, caller: UserId): (g: Ownership)
    ensures g == Missing <==> FindEvent(events, id).None?
    ensures g == NotOwner <==> FindEvent(events, id).Some? && events[FindEvent(events, id).value].organizer != Some(caller)
    ensures g.Owned? ==>
              g.index == FindEvent(events, id).value && events[g.index].organizer == Some(caller)
  {
    match FindEvent(events, id)
    case None => Missing
    case Some(i) => if events[i].organizer != Some(caller) then NotOwner else Owned(i)
  }

  /** An event without an organizer fails the gate for every caller. */
  lemma OrganizerlessEventIsNobodys(events: seq<Event>, id: EventId, caller: UserId)
    requires FindEvent(events, id).Some? && events[FindEvent(events, id).value].organizer.None?
    ensures CheckOwner(events, id, caller) == NotOwner
  {
  }

  /** The reply of a refused gate; `EventNotFound` takes precedence over `NotAuthorized`. */
  function Refusal(g: Ownership): (r: EventReply)
    requires !g.Owned?
    ensures g.Missing? ==> r == EventNotFound
    ensures g.NotOwner? ==> r == NotAuthorized
  {
    if g.Missing? then EventNotFound else NotAuthorized
  }

  // ---------------------------------------------------------------- POST /

  /** `id` is the new document's ObjectId. An absent `title`, `description` or
      `targetGoal` fails the schema's required validators. */
  function Create(events: seq<Event>, id: EventId, caller: UserId, title: string, description: string,
                  targetGoal: Option<int>, endDate: Option<int>, now: int): (o: EventsOutcome)
    ensures o.reply.Created? <==> title != "" && description != "" && targetGoal.Some?
    ensures o.reply.Created? ==>
              && o.events == events + [o.reply.event]
              && o.reply.event.organizer == Some(caller) && o.reply.event.id == id
              && o.reply.event.status == Active && o.reply.event.startDate == now
              && o.reply.event.title == title && o.reply.event.description == description
              && o.reply.event.targetGoal == targetGoal.value && o.reply.event.endDate == endDate
    ensures !o.reply.Created? ==> o == EventsOutcome(SaveFailed, events)
    ensures UniqueIds(events) && FindEvent(events, id).None? ==> UniqueIds(o.events)
  {
    if title == "" || description == "" || targetGoal.None? then EventsOutcome(SaveFailed, events)
    else
      var e := NewEvent(id, title, description, targetGoal.value, endDate, Some(caller), now);
      EventsOutcome(Created(e), events + [e])
  }

  // ---------------------------------------------------------------- PUT /:id

  /** The four fields of the request body; an absent one is dropped from `$set`. */
  datatype EventEdit = EventEdit(title: Option<string>, description: Option<string>,
                                 targetGoal: Option<int>, endDate: Option<int>)

  function Pick<T>(given: Option<T>, current: T): T
  {
    if given.Some? then given.value else current
  }

  function ApplyEdit(e: Event, edit: EventEdit): (e': Event)
    ensures e'.id == e.id && e'.startDate == e.startDate && e'.organizer == e.organizer && e'.status == e.status
    ensures edit.title.Some? ==> e'.title == edit.title.value
    ensures edit.title.None? ==> e'.title == e.title
    ensures edit.description.Some? ==> e'.description == edit.description.value
    ensures edit.description.None? ==> e'.description == e.description
    ensures edit.targetGoal.Some? ==> e'.targetGoal == edit.targetGoal.value
    ensures edit.targetGoal.None? ==> e'.targetGoal == e.targetGoal
    ensures edit.endDate.Some? ==> e'.endDate == edit.endDate
    ensures edit.endDate.None? ==> e'.endDate == e.endDate
  {
    e.(title := Pick(edit.title, e.title), description := Pick(edit.description, e.description),
       targetGoal := Pick(edit.targetGoal, e.targetGoal),
       endDate := if edit.endDate.Some? then edit.endDate else e.endDate)
  }

  /** `findByIdAndUpdate` runs no validators, so any values are stored. */
  function Update(events: seq<Event>, id: EventId, caller: UserId, edit: EventEdit): (o: EventsOutcome)
    ensures CheckOwner(events, id, caller) == Missing ==> o == EventsOutcome(EventNotFound, events)
    ensures CheckOwner(events, id, caller) == NotOwner ==> o == EventsOutcome(NotAuthorized, events)
    ensures CheckOwner(events, id, caller).Owned? ==>
              var i := CheckOwner(events, id, caller).index;
              o.reply == Saved(ApplyEdit(events[i], edit)) && o.events == events[i := ApplyEdit(events[i], edit)]
    ensures |o.events| == |events|
    ensures UniqueIds(events) ==> UniqueIds(o.events)
  {
    match CheckOwner(events, id, caller)
    case Owned(i) =>
      var e := ApplyEdit(events[i], edit);
      EventsOutcome(Saved(e), events[i := e])
    case g => EventsOutcome(Refusal(g), events)
  }

  // ---------------------------------------------------------------- DELETE /:id

  function Delete(events: seq<Event>, pledges: seq<Pledge>, id: EventId, caller: UserId): (o: EventsOutcome)
    ensures CheckOwner(events, id, caller) == Missing ==> o == EventsOutcome(EventNotFound, events)
    ensures CheckOwner(events, id, caller) == NotOwner ==> o == EventsOutcome(NotAuthorized, events)
    ensures CheckOwner(events, id, caller).Owned? && |PledgesOf(pledges, id)| > 0 ==>
              o == EventsOutcome(HasPledges, events)
    ensures o.reply == Removed <==> CheckOwner(events, id, caller).Owned? && |PledgesOf(pledges, id)| == 0
    ensures o.reply == Removed ==>
              var i := CheckOwner(events, id, caller).index;
              o.events == events[..i] + events[i + 1..]
    ensures o.reply != Removed ==> o.events == events
    ensures UniqueIds(events) ==> UniqueIds(o.events)
  {
    match CheckOwner(events, id, caller)
    case Owned(i) =>
      if |PledgesOf(pledges, id)| > 0 then EventsOutcome(HasPledges, events)
      else
        RemoveKeepsUniqueIds(events, i);
        EventsOutcome(Removed, events[..i] + events[i + 1..])
    case g => EventsOutcome(Refusal(g), events)
  }

  /** Removing one event keeps the others' ids distinct. */
  lemma RemoveKeepsUniqueIds(events: seq<Event>, i: nat)
    requires i < |events|
    ensures UniqueIds(events) ==> UniqueIds(events[..i] + events[i + 1..])
  {
    var rest := events[..i] + events[i + 1..];
    assert forall k :: 0 <= k < |rest| ==> rest[k] == if k < i then events[k] else events[k + 1];
  }

  /** A successful delete removes exactly the event with that id. */
  lemma DeleteRemovesExactlyThatEvent(events: seq<Event>, pledges: seq<Pledge>, id: EventId, caller: UserId)
    requires UniqueIds(events)
    requires Delete(events, pledges, id, caller).reply == Removed
    ensures var after := Delete(events, pledges, id, caller).events;
            && |after| == |events| - 1
            && FindEvent(after, id).None?
            && forall e :: e in events && e.id != id ==> e in after
  {
    var i := CheckOwner(events, id, caller).index;
    var after := Delete(events, pledges, id, caller).events;
    assert after == events[..i] + events[i + 1..];
    forall e | e in events && e.id != id
      ensures e in after
    {
      var k :| 0 <= k < |events| && events[k] == e;
      if k < i { assert after[k] == e; } else { assert k > i; assert after[k - 1] == e; }
    }
  }

  // ---------------------------------------------------------------- POST /:id/close

  /** `event.status = 'Closed'; event.save()`: save validates the whole document. */
  function Close(events: seq<Event>, id: EventId, caller: UserId): (o: EventsOutcome)
    ensures CheckOwner(events, id, caller) == Missing ==> o == EventsOutcome(EventNotFound, events)
    ensures CheckOwner(events, id, caller) == NotOwner ==> o == EventsOutcome(NotAuthorized, events)
    ensures o.reply.Saved? <==> CheckOwner(events, id, caller).Owned? && SchemaValid(events[CheckOwner(events, id, caller).index])
    ensures o.reply.Saved? ==>
              var i := CheckOwner(events, id, caller).index;
              o.reply.event == events[i].(status := Closed) && o.events == events[i := o.reply.event]
    ensures !o.reply.Saved? ==> o.events == events
    ensures UniqueIds(events) ==> UniqueIds(o.events)
  {
    match CheckOwner(events, id, caller)
    case Owned(i) =>
      var e := events[i].(status := Closed);
      if !SchemaValid(e) then EventsOutcome(SaveFailed, events)
      else EventsOutcome(Saved(e), events[i := e])
    case g => EventsOutcome(Refusal(g), events)
  }

  /** Closing an event twice is closing it once. */
  lemma {:induction false} CloseIdempotent(events: seq<Event>, id: EventId, caller: UserId)
    ensures var once := Close(events, id, caller);
            Close(once.events, id, caller) == once
  {
    var once := Close(events, id, caller);
    match CheckOwner(events, id, caller)
    case Owned(i) =>
      if once.reply.Saved? {
        FindEventSameIds(events, i, once.events[i]);
        assert CheckOwner(once.events, id, caller) == Owned(i);
        assert once.events[i := once.events[i].(status := Closed)] == once.events;
      }
    case _ =>
  }

  /** Changing an event in place without changing its id does not move any lookup. */
  lemma {:induction false} FindEventSameIds(events: seq<Event>, i: nat, e: Event)
    requires i < |events| && e.id == events[i].id
    ensures forall id :: FindEvent(events[i := e], id) == FindEvent(events, id)
  {
    forall id ensures FindEvent(events[i := e], id) == FindEvent(events, id) {
      FirstIndexSameKeys(events, events[i := e], id);
    }
  }

  lemma {:induction false} FirstIndexSameKeys(s: seq<Event>, t: seq<Event>, id: EventId)
    requires |s| == |t| && forall k :: 0 <= k < |s| ==> s[k].id == t[k].id
    ensures FindEvent(s, id) == FindEvent(t, id)
  {
  }

  // ---------------------------------------------------------------- GET /my-events

  datatype EventProgress = EventProgress(event: Event, totalPledged: int, progress: real)

  function WithProgress(pledges: seq<Pledge>, e: Event): (r: EventProgress)
    ensures r.event == e && r.totalPledged == TotalPledged(PledgesOf(pledges, e.id))
    ensures r.progress == Progress(r.totalPledged, e.targetGoal)
  {
    var total := TotalPledged(PledgesOf(pledges, e.id));
    EventProgress(e, total, Progress(total, e.targetGoal))
  }

  function OrganizedBy(events: seq<Event>, caller: UserId): (r: seq<Event>)
    ensures forall e :: multiset(r)[e] == if e.organizer == Some(caller) then multiset(events)[e] else 0
  {
    Filter(events, (e: Event) => e.organizer == Some(caller))
  }

  function EventsOf(r: seq<EventProgress>): (es: seq<Event>)
    ensures |es| == |r| && forall i :: 0 <= i < |r| ==> es[i] == r[i].event
  {
    seq(|r|, i requires 0 <= i < |r| => r[i].event)
  }

  /** `Event.find({ organizer: req.user.id }).sort({ startDate: -1 })`, each with its total. */
  function MyEvents(events: seq<Event>, pledges: seq<Pledge>, caller: UserId): (r: seq<EventProgress>)
    ensures multiset(EventsOf(r)) == multiset(OrganizedBy(events, caller))
    ensures forall i, j :: 0 <= i < j < |r| ==> r[i].event.startDate >= r[j].event.startDate
    ensures forall i :: 0 <= i < |r| ==> r[i] == WithProgress(pledges, r[i].event)
  {
    var mine := ByNewest(OrganizedBy(events, caller));
    var r := seq(|mine|, i requires 0 <= i < |mine| => WithProgress(pledges, mine[i]));
    assert EventsOf(r) == mine;
    r
  }

  /** Every event in the organizer's list is one of theirs, and every one of theirs is in it. */
  lemma MyEventsAreExactlyMine(events: seq<Event>, pledges: seq<Pledge>, caller: UserId)
    ensures var r := MyEvents(events, pledges, caller);
            && (forall i :: 0 <= i < |r| ==> r[i].event.organizer == Some(caller) && r[i].event in events)
            && (forall e :: e in events && e.organizer == Some(caller) ==> e in EventsOf(r))
  {
    var r := MyEvents(events, pledges, caller);
    var es := EventsOf(r);
    forall i | 0 <= i < |r| ensures r[i].event.organizer == Some(caller) && r[i].event in events {
      assert es[i] in multiset(es);
    }
    forall e | e in events && e.organizer == Some(caller) ensures e in es {
      assert multiset(events)[e] > 0;
      assert e in multiset(es);
    }
  }

  // ---------------------------------------------------------------- GET /

  /** `event.description ? event.description.substring(0, 100) + '...' : ''`: unlike the
      card on the page, the list appends the ellipsis to short descriptions too. */
  function ListedDescription(d: string): (r: string)
    ensures d == "" ==> r == ""
    ensures d != "" ==> |r| == (if |d| < 100 then |d| else 100) + 3
    ensures d != "" ==> r == r[..|r| - 3] + "..." && r[..|r| - 3] == d[..|r| - 3]
  {
    if d == "" then "" else (if |d| < 100 then d else d[..100]) + "..."
  }

  datatype PublicEvent = PublicEvent(id: EventId, title: string, description: string, targetGoal: int,
                                     totalPledged: int, progress: real)

  function Publish(pledges: seq<Pledge>, e: Event): (r: PublicEvent)
    ensures r.id == e.id && r.title == e.title && r.targetGoal == e.targetGoal
    ensures r.description == ListedDescription(e.description)
    ensures r.totalPledged == TotalPledged(PledgesOf(pledges, e.id)) && r.progress == Progress(r.totalPledged, e.targetGoal)
  {
    var total := TotalPledged(PledgesOf(pledges, e.id));
    PublicEvent(e.id, e.title, ListedDescription(e.description), e.targetGoal, total, Progress(total, e.targetGoal))
  }

  function NotClosed(events: seq<Event>): (r: seq<Event>)
    ensures forall e :: multiset(r)[e] == if e.status != Closed then multiset(events)[e] else 0
  {
    Filter(events, (e: Event) => e.status != Closed)
  }

  /** `Event.find({ status: { $ne: 'Closed' } }).sort({ startDate: -1 })`, projected: the
      result is the projection of a newest-first ordering of the open events. */
  function PublicEvents(events: seq<Event>, pledges: seq<Pledge>): (r: seq<PublicEvent>)
    ensures |r| == |NotClosed(events)|
    ensures forall i :: 0 <= i < |r| ==> r[i] == Publish(pledges, ByNewest(NotClosed(events))[i])
  {
    var open := ByNewest(NotClosed(events));
    seq(|open|, i requires 0 <= i < |open| => Publish(pledges, open[i]))
  }

  /** Closed events never reach the public list, and every open event does. */
  lemma PublicEventsAreExactlyOpen(events: seq<Event>, pledges: seq<Pledge>)
    ensures var open := ByNewest(NotClosed(events));
            && (forall i :: 0 <= i < |open| ==> open[i].status == Active && open[i] in events)
            && (forall e :: e in events && e.status == Active ==> e in open)
  {
    var open := ByNewest(NotClosed(events));
    forall i | 0 <= i < |open| ensures open[i].status == Active && open[i] in events {
      assert open[i] in multiset(open);
    }
    forall e | e in events && e.status == Active ensures e in open {
      assert multiset(events)[e] > 0;
      assert e in multiset(open);
    }
  }

  // ---------------------------------------------------------------- GET /:id

  datatype EventDetail = DetailNotFound | Detail(event: Event, totalPledged: int, progress: real, pledgeCount: nat)

  function SingleEvent(events: seq<Event>, pledges: seq<Pledge>, id: EventId): (r: EventDetail)
    ensures r == DetailNotFound <==> FindEvent(events, id).None?
    ensures r.Detail? ==>
              && r.event == events[FindEvent(events, id).value]
              && r.pledgeCount == |PledgesOf(pledges, id)|
              && r.totalPledged == TotalPledged(PledgesOf(pledges, id))
              && r.progress == Progress(r.totalPledged, r.event.targetGoal)
              && (r.event.targetGoal == 0 ==> r.progress == 0.0)
  {
    match FindEvent(events, id)
    case None => DetailNotFound
    case Some(i) =>
      var ps := PledgesOf(pledges, id);
      var total := TotalPledged(ps);
      Detail(events[i], total, Progress(total, events[i].targetGoal), |ps|)
  }
}
