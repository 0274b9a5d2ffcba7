/** Event.swift: categories with their colour and icon names, event
    statuses, the event record and its joinability rules. Dates are whole
    seconds since the epoch, and the current time is a parameter. */
module EventModel {
  import opened Wrappers
  import opened Text
  import Constants

  datatype Category = Environmental | Social | Governance

  /** The raw value under which a category is encoded. */
  function CategoryRawValue(c: Category): string
  {
    match c
    case Environmental => "Environmental"
    case Social => "Social"
    case Governance => "Governance"
  }

  /** Decoding a raw value: the one category with that raw value, if any. */
  function CategoryFromRawValue(s: string): (c: Option<Category>)
    ensures c.Some? ==> CategoryRawValue(c.value) == s
    ensures c.None? ==> forall d: Category :: CategoryRawValue(d) != s
  {
    if s == "Environmental" then Some(Environmental)
    else if s == "Social" then Some(Social)
    else if s == "Governance" then Some(Governance)
    else None
  }

  lemma CategoryRawValueRoundTrip(c: Category)
    ensures CategoryFromRawValue(CategoryRawValue(c)) == Some(c)
  {
  }

  /** `ESGCategory.color`: the name of the category's colour asset. */
  function Color(c: Category): (name: string)
    ensures 7 < |name| && name[|name| - 7..] == "Primary"
  {
    match c
    case Environmental => "greenPrimary"
    case Social => "bluePrimary"
    case Governance => "purplePrimary"
  }

  /** `ESGCategory.icon`: the same symbol names as the category icons of
      `AppIcons`. */
  function Icon(c: Category): (icon: string)
    ensures c == Environmental ==> icon == Constants.EnvironmentalIcon
    ensures c == Social ==> icon == Constants.SocialIcon
    ensures c == Governance ==> icon == Constants.GovernanceIcon
  {
    match c
    case Environmental => "leaf.fill"
    case Social => "person.3.fill"
    case Governance => "building.columns.fill"
  }

  /** No two categories share a colour or an icon. */
  lemma TablesInjective(c: Category, d: Category)
    requires Color(c) == Color(d) || Icon(c) == Icon(d)
    ensures c == d
  {
  }

  datatype EventStatus = Upcoming | Ongoing | Completed | Cancelled

  function StatusRawValue(s: EventStatus): string
  {
    match s
    case Upcoming => "Upcoming"
    case Ongoing => "Ongoing"
    case Completed => "Completed"
    case Cancelled => "Cancelled"
  }

  function StatusFromRawValue(s: string): (r: Option<EventStatus>)
    ensures r.Some? ==> StatusRawValue(r.value) == s
    ensures r.None? ==> forall d: EventStatus :: StatusRawValue(d) != s
  {
    if s == "Upcoming" then Some(Upcoming)
    else if s == "Ongoing" then Some(Ongoing)
    else if s == "Completed" then Some(Completed)
    else if s == "Cancelled" then Some(Cancelled)
    else None
  }

  lemma StatusRawValueRoundTrip(s: EventStatus)
    ensures StatusFromRawValue(StatusRawValue(s)) == Some(s)
  {
  }

  /** An event, with the source's defaults (its default `id` is a fresh
      UUID, so here the caller supplies it). */
  datatype Event = Event(
    id: string,
    title: string,
    category: Category,
    date: int,
    endDate: Option<int> := None,
    points: int,
    description: string,
    location: Option<string> := None,
    organizer: Option<string> := None,
    imageURL: Option<string> := None,
    maxParticipants: Option<int> := None,
    currentParticipants: int := 0,
    isOnline: bool := false,
    tags: seq<string> := [],
    requirements: Option<string> := None,
    status: EventStatus := Upcoming)

  lemma InitDefaults(id: string, title: string, c: Category, date: int, points: int, description: string)
    ensures var e := Event(id, title, c, date, points := points, description := description);
      && e.endDate == None && e.location == None && e.organizer == None && e.imageURL == None
      && e.maxParticipants == None && e.currentParticipants == 0 && !e.isOnline
      && e.tags == [] && e.requirements == None && e.status == Upcoming
  {
  }

  /** `isFull`: an event without a cap is never full; with a cap it is full
      once the participants reach it, or exceed it. */
  function IsFull(e: Event): (full: bool)
    ensures e.maxParticipants.None? ==> !full
    ensures e.maxParticipants.Some? ==> (full <==> e.currentParticipants >= e.maxParticipants.value)
  {
    match e.maxParticipants
    case None => false
    case Some(max) => e.currentParticipants >= max
  }

  /** Fullness only grows with the number of participants. */
  lemma FullStaysFull(e: Event, more: int)
    requires IsFull(e) && more >= e.currentParticipants
    ensures IsFull(e.(currentParticipants := more))
  {
  }

  /** `canJoin` at time `now`: upcoming, strictly in the future, and with
      no cap or a seat still free under it. */
  function CanJoin(e: Event, now: int): (ok: bool)
    ensures ok <==> && e.status == Upcoming && e.date > now
                    && (e.maxParticipants.None? || e.currentParticipants < e.maxParticipants.value)
  {
    e.status == Upcoming && !IsFull(e) && e.date > now
  }

  /** An event dated at or before `now` can never be joined, whatever its
      status and capacity; one joinable now was joinable at every earlier
      time. */
  lemma PastEventsNotJoinable(e: Event, now: int, earlier: int)
    ensures e.date <= now ==> !CanJoin(e, now)
    ensures CanJoin(e, now) && earlier <= now ==> CanJoin(e, earlier)
  {
  }

  /** A freshly created event can be joined exactly when it lies in the
      future and has no cap, or a positive one. */
  lemma NewEventJoinable(id: string, title: string, c: Category, date: int, points: int,
                         description: string, cap: Option<int>, now: int)
    ensures var e := Event(id, title, c, date, points := points, description := description, maxParticipants := cap);
      CanJoin(e, now) <==> date > now && (cap.None? || cap.value > 0)
  {
  }

  // ---------------------------------------------------------------------
  // timeUntilEvent

  /** Division rounding toward zero, as Swift's `Int(_: Double)` does after
      a division. */
  function TruncDiv(a: int, b: int): int
    requires b > 0
  {
    if a >= 0 then a / b else -((-a) / b)
  }

  /** Swift's `truncatingRemainder(dividingBy:)`: the sign follows `a`. */
  function TruncRem(a: int, b: int): int
    requires b > 0
  {
    a - b * TruncDiv(a, b)
  }

  const SecondsPerDay := 86400
  const SecondsPerHour := 3600

  /** `timeUntilEvent` at time `now`: whole days if there is at least one,
      else whole hours if there is at least one, else "Starting soon" (also
      for an event in the past). */
  function TimeUntilEvent(e: Event, now: int): (text: string)
    ensures var interval := e.date - now;
      && (interval >= SecondsPerDay ==> text == DecimalString(interval / SecondsPerDay) + " day(s)")
      && (SecondsPerHour <= interval < SecondsPerDay ==> text == DecimalString(interval / SecondsPerHour) + " hour(s)")
      && (interval < SecondsPerHour ==> text == "Starting soon")
  {
    var interval := e.date - now;
    var days := TruncDiv(interval, SecondsPerDay);
    var hours := TruncDiv(TruncRem(interval, SecondsPerDay), SecondsPerHour);
    if days > 0 then DecimalString(days) + " day(s)"
    else if hours > 0 then DecimalString(hours) + " hour(s)"
    else "Starting soon"
  }
}
