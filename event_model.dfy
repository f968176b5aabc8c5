/** The event and pledge records of `src/backend/models/Event.js` and
    `src/backend/models/Pledge.js`, with their defaults and required fields, and the
    per-event pledge queries (`Pledge.find({ event })`) the routes share. Amounts are
    whole numbers: JavaScript's floating-point numbers are not modelled. */
module EventModel {
  import opened Common
  import opened UserModel
  import opened Sorting

  type EventId = nat

  /** The schema's enum `['Active', 'Closed']`. */
  datatype Status = Active | Closed

  function StatusName(s: Status): string
  {
    match s
    case Active => "Active"
    case Closed => "Closed"
  }

  /** `organizer` is optional in the schema; an event without one belongs to nobody. */
  datatype Event = Event(
    id: EventId,
    title: string,
    description: string,
    targetGoal: int,
    startDate: int,
    endDate: Option<int>,
    organizer: Option<UserId>,
    status: Status)

  /** Mongoose's `required` validator on the two strings, checked by `save()`. */
  predicate SchemaValid(e: Event)
  {
    e.title != "" && e.description != ""
  }

  /** A new document: `startDate` defaults to the creation time and `status` to Active. */
  function NewEvent(id: EventId, title: string, description: string, targetGoal: int,
                    endDate: Option<int>, organizer: Option<UserId>, now: int): (e: Event)
    requires title != "" && description != ""
    ensures SchemaValid(e) && e.status == Active && e.startDate == now
    ensures e.id == id && e.title == title && e.description == description && e.targetGoal == targetGoal
    ensures e.endDate == endDate && e.organizer == organizer
  {
    Event(id, title, description, targetGoal, now, endDate, organizer, Active)
  }

  /** `event`, `donorName`, `donorEmail` and `amount` are required; `date` defaults to
      the creation time. */
  datatype Pledge = Pledge(event: EventId, donorName: string, donorEmail: string, amount: int, date: int)

  function NewPledge(event: EventId, donorName: string, donorEmail: string, amount: int, now: int): (p: Pledge)
    ensures p.event == event && p.donorName == donorName && p.donorEmail == donorEmail
    ensures p.amount == amount && p.date == now
  {
    Pledge(event, donorName, donorEmail, amount, now)
  }

  /** `Pledge.find({ event: id })`. */
  function PledgesOf(pledges: seq<Pledge>, id: EventId): (r: seq<Pledge>)
    ensures forall p :: multiset(r)[p] == if p.event == id then multiset(pledges)[p] else 0
    ensures forall i :: 0 <= i < |r| ==> r[i].event == id && r[i] in pledges
  {
    Filter(pledges, (p: Pledge) => p.event == id)
  }

  function PledgeAmount(p: Pledge): int
  {
    p.amount
  }

  /** `pledges.reduce((acc, p) => acc + (Number(p.amount) || 0), 0)`: the schema makes
      every stored amount a number, so the fallback to 0 only catches NaN, which whole
      numbers do not have. */
  function TotalPledged(pledges: seq<Pledge>): int
  {
    SumOf(pledges, PledgeAmount)
  }

  /** Appending a pledge adds its amount to the total. */
  lemma TotalPledgedAppend(pledges: seq<Pledge>, p: Pledge)
    ensures TotalPledged(pledges + [p]) == TotalPledged(pledges) + p.amount
  {
    SumOfAppend(pledges, [p], PledgeAmount);
    assert [p][1..] == [];
  }

  /** `Event.findById(id)`. */
  function FindEvent(events: seq<Event>, id: EventId): (r: Option<nat>)
    ensures r.None? <==> forall i :: 0 <= i < |events| ==> events[i].id != id
    ensures r.Some? ==> r.value < |events| && events[r.value].id == id
  {
    FirstIndex(events, (e: Event) => e.id == id)
  }

  predicate UniqueIds(events: seq<Event>)
  {
    forall i, j :: 0 <= i < j < |events| ==> events[i].id != events[j].id
  }

  function StartDate(e: Event): int
  {
    e.startDate
  }

  /** `.sort({ startDate: -1 })`: newest first, a permutation of the events. */
  function ByNewest(events: seq<Event>): (r: seq<Event>)
    ensures multiset(r) == multiset(events) && |r| == |events|
    ensures forall i, j :: 0 <= i < j < |r| ==> r[i].startDate >= r[j].startDate
  {
    var r := SortDesc(events, StartDate);
    assert forall i, j :: 0 <= i < j < |r| ==> StartDate(r[i]) >= StartDate(r[j]);
    r
  }
}
