/**
 * The backend's event service over its repository: converting between the stored entity
 * and the DTO the REST API exchanges, creating an event for a known user, overwriting an
 * event's fields, deleting one, and listing a user's events by date. The repository is a
 * map from id to row; saving a row checks the table's not-null columns the way the
 * database does, and a failed save changes nothing.
 */
module EventService {
  import opened Wrappers
  import opened Dates

  /** The seven fields the DTO and the entity share and the converters copy; every one of
      them may be null on the DTO side. */
  datatype EventFields = EventFields(title: Option<string>, date: Option<Day>, time: Option<string>,
                                     color: Option<string>, recurrence: Option<string>,
                                     endDate: Option<Day>, meetingLink: Option<string>)

  /** A row of the `events` table. */
  datatype EventEntity = EventEntity(id: int, fields: EventFields, reminderEnabled: bool, reminderMinutes: int,
                                     userId: int)

  /** An entity built but not yet saved: no id and no user yet. */
  datatype NewEvent = NewEvent(fields: EventFields, reminderEnabled: bool, reminderMinutes: int)

  datatype EventDto = EventDto(id: Option<int>, fields: EventFields, userId: Option<int>,
                               reminderEnabled: Option<bool>, reminderMinutes: Option<int>)

  /** Why a call fails: the service's own "User not found" and "Event not found", a null
      user id handed to the repository, or a not-null column left null. */
  datatype ServiceError = UserNotFound | EventNotFound | NullUserId | NotNullViolation

  function Message(e: ServiceError): string {
    match e
    case UserNotFound => "User not found"
    case EventNotFound => "Event not found"
    case NullUserId => "The given id must not be null"
    case NotNullViolation => "not-null property references a null value"
  }

  /** `convertToDto`: the seven fields, the id and the owner's id; the reminder settings
      are not copied. */
  function ConvertToDto(e: EventEntity): (dto: EventDto)
    ensures dto.fields == e.fields && dto.id == Some(e.id) && dto.userId == Some(e.userId)
    ensures dto.reminderEnabled.None? && dto.reminderMinutes.None?
  {
    EventDto(Some(e.id), e.fields, Some(e.userId), None, None)
  }

  /** `convertToEntity`: the seven fields; the reminder settings take the entity's
      defaults (on, 15 minutes) whatever the DTO says. */
  function ConvertToEntity(dto: EventDto): (e: NewEvent)
    ensures e.fields == dto.fields
    ensures e.reminderEnabled && e.reminderMinutes == 15
  {
    NewEvent(dto.fields, true, 15)
  }

  /** The columns declared `nullable = false`, apart from the user. */
  predicate Saveable(f: EventFields) {
    f.title.Some? && f.date.Some? && f.color.Some? && f.recurrence.Some?
  }

  /** A DTO sent in and the DTO sent back carry the same seven fields, but the client's
      reminder settings are lost on the way. */
  lemma ConversionRoundTrip(dto: EventDto, id: int, userId: int)
    ensures var n := ConvertToEntity(dto);
      ConvertToDto(EventEntity(id, n.fields, n.reminderEnabled, n.reminderMinutes, userId)).fields == dto.fields
    ensures var n := ConvertToEntity(dto);
      ConvertToDto(EventEntity(id, n.fields, n.reminderEnabled, n.reminderMinutes, userId)).reminderEnabled.None?
  {
  }

  /** Converting a stored event to a DTO and back keeps the seven fields and resets the
      reminder settings to their defaults. */
  lemma EntityRoundTrip(e: EventEntity)
    ensures ConvertToEntity(ConvertToDto(e)) == NewEvent(e.fields, true, 15)
  {
  }

  // ---------------------------------------------------------------- listing

  /** The position of an event on the timeline of days (a stored event always has a date). */
  function DateKey(e: EventEntity): int {
    if e.fields.date.Some? then DayNumber(e.fields.date.value) else 0
  }

  predicate SortedByDate(s: seq<EventEntity>) {
    SortedBy(s, DateKey)
  }

  predicate SortedBy<T>(s: seq<T>, key: T -> int) {
    forall i, j :: 0 <= i < j < |s| ==> key(s[i]) <= key(s[j])
  }

  predicate DistinctIds(s: seq<EventEntity>) {
    forall i, j :: 0 <= i < j < |s| ==> s[i].id != s[j].id
  }

  /** Where an item goes in a list ordered by key: after the items of the same or a
      smaller key. */
  function InsertPosition<T>(s: seq<T>, e: T, key: T -> int): (k: nat)
    requires SortedBy(s, key)
    ensures k <= |s|
    ensures forall i :: 0 <= i < k ==> key(s[i]) <= key(e)
    ensures forall i :: k <= i < |s| ==> key(e) < key(s[i])
  {
    if s == [] || key(e) < key(s[0]) then 0 else 1 + InsertPosition(s[1..], e, key)
  }

  /** The ordered insertion the repository's `ORDER BY date` amounts to, one row at a
      time. */
  function Insert<T>(s: seq<T>, e: T, key: T -> int): (r: seq<T>)
    requires SortedBy(s, key)
    ensures SortedBy(r, key)
    ensures multiset(r) == multiset(s) + multiset{e}
  {
    var k := InsertPosition(s, e, key);
    InsertLayout(s, e, k);
    s[..k] + [e] + s[k..]
  }

  /** Where each item of s sits once e is inserted at k. */
  lemma InsertLayout<T>(s: seq<T>, e: T, k: nat)
    requires k <= |s|
    ensures var r := s[..k] + [e] + s[k..];
      |r| == |s| + 1 && forall i :: 0 <= i < |r| ==> r[i] == if i < k then s[i] else if i == k then e else s[i - 1]
    ensures multiset(s[..k] + [e] + s[k..]) == multiset(s) + multiset{e}
  {
    assert s == s[..k] + s[k..];
  }

  lemma InsertKeepsIdsDistinct(s: seq<EventEntity>, e: EventEntity)
    requires SortedByDate(s) && DistinctIds(s)
    requires forall x :: x in s ==> x.id != e.id
    ensures DistinctIds(Insert(s, e, DateKey))
  {
    var k := InsertPosition(s, e, DateKey);
    InsertLayout(s, e, k);
  }

  class EventStore {
    /** The `events` table, by id. */
    var events: map<int, EventEntity>
    /** The ids in the `users` table. */
    var users: set<int>
    /** The next identity value. */
    var nextId: int

    /** Every row sits under its own id, from 1 up to below the next identity value, belongs to a known
        user and has its not-null columns filled. */
    predicate Valid()
      reads this
    {
      1 <= nextId &&
      forall id :: id in events ==>
        events[id].id == id && 1 <= id < nextId && events[id].userId in users && Saveable(events[id].fields)
    }

    constructor (users: set<int>)
      ensures Valid()
      ensures events == map[] && this.users == users && nextId == 1
    {
      events := map[];
      this.users := users;
      nextId := 1;
    }

    /** `CreateEvent`: the DTO's fields saved under a fresh id for the DTO's user, the
        DTO's own id and reminder settings ignored. */
    method CreateEvent(dto: EventDto) returns (r: Result<EventDto, ServiceError>)
      requires Valid()
      modifies this
      ensures Valid() && users == old(users)
      ensures dto.userId.None? ==> r == Failure(NullUserId)
      ensures dto.userId.Some? && dto.userId.value !in users ==> r == Failure(UserNotFound)
      ensures dto.userId.Some? && dto.userId.value in users && !Saveable(dto.fields) ==> r == Failure(NotNullViolation)
      ensures r.Failure? ==> events == old(events) && nextId == old(nextId)
      ensures r.Success? ==>
        var stored := EventEntity(old(nextId), dto.fields, true, 15, dto.userId.value);
        old(nextId) !in old(events) &&
        events == old(events)[old(nextId) := stored] && nextId == old(nextId) + 1 &&
        r.value == ConvertToDto(stored)
      ensures r.Success? <==> dto.userId.Some? && dto.userId.value in users && Saveable(dto.fields)
    {
      if dto.userId.None? {
        return Failure(NullUserId);
      }
      var userId := dto.userId.value;
      if userId !in users {
        return Failure(UserNotFound);
      }
      var event := ConvertToEntity(dto);
      if !Saveable(event.fields) {
        return Failure(NotNullViolation);
      }
      var stored := EventEntity(nextId, event.fields, event.reminderEnabled, event.reminderMinutes, userId);
      events := events[nextId := stored];
      nextId := nextId + 1;
      r := Success(ConvertToDto(stored));
    }

    /** `updateEvent`: the seven fields overwritten by the DTO's, nulls included; the id,
        the owner and the reminder settings kept. */
    method UpdateEvent(id: int, dto: EventDto) returns (r: Result<EventDto, ServiceError>)
      requires Valid()
      modifies this
      ensures Valid() && users == old(users) && nextId == old(nextId)
      ensures id !in old(events) ==> r == Failure(EventNotFound)
      ensures id in old(events) && !Saveable(dto.fields) ==> r == Failure(NotNullViolation)
      ensures r.Failure? ==> events == old(events)
      ensures r.Success? ==>
        var updated := old(events)[id].(fields := dto.fields);
        events == old(events)[id := updated] && r.value == ConvertToDto(updated)
      ensures r.Success? <==> id in old(events) && Saveable(dto.fields)
    {
      if id !in events {
        return Failure(EventNotFound);
      }
      var event := events[id].(fields := dto.fields);
      if !Saveable(event.fields) {
        return Failure(NotNullViolation);
      }
      events := events[id := event];
      r := Success(ConvertToDto(event));
    }

    /** `DeleteEvent`: the row with that id is gone; an unknown id is no error. */
    method DeleteEvent(id: int)
      requires Valid()
      modifies this
      ensures Valid() && users == old(users) && nextId == old(nextId)
      ensures events == old(events) - {id}
    {
      events := events - {id};
    }

    /** `getEventsByUserId`: exactly the user's events, each once, ordered by date. */
    method GetEventsByUserId(userId: int) returns (r: seq<EventDto>)
      requires Valid()
      ensures exists s: seq<EventEntity> :: Listing(s, userId) && r == Dtos(s)
    {
      var acc: seq<EventEntity> := [];
      var id := 1;
      while id < nextId
        invariant 1 <= id <= nextId
        invariant SortedByDate(acc) && DistinctIds(acc)
        invariant forall x :: x in acc <==>
          x.id in events && x.id < id && events[x.id] == x && x.userId == userId
      {
        if id in events && events[id].userId == userId {
          InsertKeepsIdsDistinct(acc, events[id]);
          acc := Insert(acc, events[id], DateKey);
        }
        id := id + 1;
      }
      r := Dtos(acc);
    }

    /** s lists the user's stored events, each once, by date. */
    ghost predicate Listing(s: seq<EventEntity>, userId: int)
      reads this
    {
      SortedByDate(s) && DistinctIds(s) &&
      forall x :: x in s <==> x.id in events && events[x.id] == x && x.userId == userId
    }
  }

  function Dtos(s: seq<EventEntity>): (r: seq<EventDto>)
    ensures |r| == |s| && forall i :: 0 <= i < |s| ==> r[i] == ConvertToDto(s[i])
  {
    seq(|s|, i requires 0 <= i < |s| => ConvertToDto(s[i]))
  }
}
