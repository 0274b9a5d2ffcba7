/** EventParticipation.swift: a plain record linking a user to an event.
    The status is declared but nothing in the code moves it from one case to
    another. */
module EventParticipationModel {
  import opened Wrappers
  import EventModel

  datatype ParticipationStatus = Registered | Attended | Completed | Missed | Cancelled

  function ParticipationRawValue(s: ParticipationStatus): string
  {
    match s
    case Registered => "Registered"
    case Attended => "Attended"
    case Completed => "Completed"
    case Missed => "Missed"
    case Cancelled => "Cancelled"
  }

  function ParticipationFromRawValue(s: string): (r: Option<ParticipationStatus>)
    ensures r.Some? ==> ParticipationRawValue(r.value) == s
    ensures r.None? ==> forall p: ParticipationStatus :: ParticipationRawValue(p) != s
  {
    if s == "Registered" then Some(Registered)
    else if s == "Attended" then Some(Attended)
    else if s == "Completed" then Some(Completed)
    else if s == "Missed" then Some(Missed)
    else if s == "Cancelled" then Some(Cancelled)
    else None
  }

  lemma ParticipationRawValueRoundTrip(s: ParticipationStatus)
    ensures ParticipationFromRawValue(ParticipationRawValue(s)) == Some(s)
  {
  }

  /** A participation, with the source's defaults. The default `id` is a
      fresh UUID and the default registration date the current time, so
      here the caller supplies both. `rating` is meant to be 1 to 5 stars,
      but nothing enforces it. */
  datatype EventParticipation = EventParticipation(
    id: string,
    userId: string,
    eventId: string,
    event: Option<EventModel.Event> := None,
    status: ParticipationStatus := Registered,
    registrationDate: int,
    completionDate: Option<int> := None,
    pointsEarned: Option<int> := None,
    feedback: Option<string> := None,
    rating: Option<int> := None)

  lemma InitDefaults(id: string, userId: string, eventId: string, registrationDate: int)
    ensures var p := EventParticipation(id, userId, eventId, registrationDate := registrationDate);
      && p.event == None && p.status == Registered && p.completionDate == None
      && p.pointsEarned == None && p.feedback == None && p.rating == None
  {
  }
}
