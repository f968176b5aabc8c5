/** The `events` and `pledges` collections and the handlers of `src/backend/routes/events.js`
    and `src/backend/routes/pledges.js` that change them, done in place: find the document,
    check it, assign its fields, save it. Each method is proved to reply and to leave the
    collections exactly as the rule of the same name in `EventRoutes` or `PledgeRoutes`
    says. New documents take their ids from `nextId`, as `new Event(...)` allocates a fresh
    ObjectId whether or not the save then succeeds. */
module Events {
  import opened Common
  import opened UserModel
  import opened EventModel
  import EventRoutes
  import PledgeRoutes

  class EventStore {
    var events: seq<Event>
    var pledges: seq<Pledge>
    var nextId: EventId

    /** Ids are unique and every id was allocated before `nextId`. */
    ghost predicate Valid()
      reads this
    {
      UniqueIds(events) && forall i :: 0 <= i < |events| ==> events[i].id < nextId
    }

    constructor ()
      ensures Valid() && events == [] && pledges == [] && nextId == 0
    {
      events := [];
      pledges := [];
      nextId := 0;
    }

    /** `POST /api/events` by the authenticated `caller`. */
    method Create(caller: UserId, title: string, description: string, targetGoal: Option<int>,
                  endDate: Option<int>, now: int) returns (r: EventRoutes.EventReply)
      requires Valid()
      modifies this
      ensures Valid()
      ensures EventRoutes.EventsOutcome(r, events)
              == EventRoutes.Create(old(events), old(nextId), caller, title, description, targetGoal, endDate, now)
      ensures nextId == old(nextId) + 1 && pledges == old(pledges)
    {
      var id := nextId;
      nextId := nextId + 1;
      if title == "" || description == "" || targetGoal.None? {
        // a required validator refuses the document in save()
        return EventRoutes.SaveFailed;
      }
      var event := NewEvent(id, title, description, targetGoal.value, endDate, Some(caller), now);
      events := events + [event];
      r := EventRoutes.Created(event);
    }

    /** `PUT /api/events/:id`: `findByIdAndUpdate` with the given fields only. */
    method Update(id: EventId, caller: UserId, edit: EventRoutes.EventEdit) returns (r: EventRoutes.EventReply)
      requires Valid()
      modifies this
      ensures Valid()
      ensures EventRoutes.EventsOutcome(r, events) == EventRoutes.Update(old(events), id, caller, edit)
      ensures nextId == old(nextId) && pledges == old(pledges)
    {
      var found := FindEvent(events, id);
      if found.None? {
        return EventRoutes.EventNotFound;
      }
      var i := found.value;
      var event := events[i];
      if event.organizer != Some(caller) {
        return EventRoutes.NotAuthorized;
      }
      if edit.title.Some? {
        event := event.(title := edit.title.value);
      }
      if edit.description.Some? {
        event := event.(description := edit.description.value);
      }
      if edit.targetGoal.Some? {
        event := event.(targetGoal := edit.targetGoal.value);
      }
      if edit.endDate.Some? {
        event := event.(endDate := edit.endDate);
      }
      events := events[i := event];
      r := EventRoutes.Saved(event);
    }

    /** `DELETE /api/events/:id`: refused while any pledge refers to the event. */
    method Delete(id: EventId, caller: UserId) returns (r: EventRoutes.EventReply)
      requires Valid()
      modifies this
      ensures Valid()
      ensures EventRoutes.EventsOutcome(r, events) == EventRoutes.Delete(old(events), old(pledges), id, caller)
      ensures nextId == old(nextId) && pledges == old(pledges)
    {
      var found := FindEvent(events, id);
      if found.None? {
        return EventRoutes.EventNotFound;
      }
      var i := found.value;
      if events[i].organizer != Some(caller) {
        return EventRoutes.NotAuthorized;
      }
      var pledgeCount := |PledgesOf(pledges, id)|;
      if pledgeCount > 0 {
        return EventRoutes.HasPledges;
      }
      ghost var before := events;
      events := events[..i] + events[i + 1..];
      assert forall k :: 0 <= k < |events| ==> events[k] == if k < i then before[k] else before[k + 1];
      r := EventRoutes.Removed;
    }

    /** `POST /api/events/:id/close`: set the status and save the whole document. */
    method Close(id: EventId, caller: UserId) returns (r: EventRoutes.EventReply)
      requires Valid()
      modifies this
      ensures Valid()
      ensures EventRoutes.EventsOutcome(r, events) == EventRoutes.Close(old(events), id, caller)
      ensures nextId == old(nextId) && pledges == old(pledges)
    {
      var found := FindEvent(events, id);
      if found.None? {
        return EventRoutes.EventNotFound;
      }
      var i := found.value;
      var event := events[i];
      if event.organizer != Some(caller) {
        return EventRoutes.NotAuthorized;
      }
      event := event.(status := Closed);
      if !SchemaValid(event) {
        // save() runs the required validators over the whole document
        return EventRoutes.SaveFailed;
      }
      events := events[i := event];
      r := EventRoutes.Saved(event);
    }

    /** `POST /api/pledges`. */
    method AddPledge(req: PledgeRoutes.PledgeRequest, now: int) returns (r: PledgeRoutes.PledgeReply)
      requires Valid()
      modifies this
      ensures Valid()
      ensures PledgeRoutes.PledgesOutcome(r, pledges) == PledgeRoutes.AddPledge(events, old(pledges), req, now)
      ensures events == old(events) && nextId == old(nextId)
    {
      var amount := req.amount;
      if amount.Given? && amount.parsed.Some? && amount.parsed.value <= 0 {
        return PledgeRoutes.NonPositiveAmount;
      }
      if req.eventId.None? || req.donorName == "" || req.donorEmail == "" || amount.Missing? {
        return PledgeRoutes.FillAllFields;
      }
      var eventId := req.eventId.value;
      var found := FindEvent(events, eventId);
      if found.None? {
        return PledgeRoutes.PledgeEventNotFound;
      }
      if events[found.value].status == Closed {
        return PledgeRoutes.EventClosed;
      }
      if amount.parsed.None? {
        // the schema's Number cast refuses the value in save()
        return PledgeRoutes.PledgeFailed;
      }
      var pledge := NewPledge(eventId, req.donorName, req.donorEmail, amount.parsed.value, now);
      pledges := pledges + [pledge];
      r := PledgeRoutes.PledgeCreated(pledge);
    }
  }

  /** An organizer's course over one store: create an event, take a pledge for it, fail to
      delete it, close it, and see the next pledge refused. */
  method PledgeLifecycle(organizer: UserId, now: int)
  {
    var store := new EventStore();
    var created := store.Create(organizer, "Food drive", "Tins for the shelter", Some(500), None, now);
    assert created.Created? && created.event.id == 0;
    var req := PledgeRoutes.PledgeRequest(Some(0), "Ann", "ann@x.org", PledgeRoutes.Given(Some(20)));
    var pledged := store.AddPledge(req, now + 1);
    assert pledged.PledgeCreated?;
    var deleted := store.Delete(0, organizer);
    assert deleted == EventRoutes.HasPledges;
    var closed := store.Close(0, organizer);
    assert closed.Saved?;
    var refused := store.AddPledge(req, now + 2);
    assert refused == PledgeRoutes.EventClosed;
    assert |store.pledges| == 1;
  }
}
