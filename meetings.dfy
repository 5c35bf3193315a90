/**
 * The meeting scheduler: closed time intervals, rooms with a capacity and a
 * list of booked intervals, per-user calendars without duplicates, meetings
 * with an RSVP status per participant, and the scheduler that books the
 * first free room and records the meeting in every calendar.
 * Times are integer milliseconds.
 */
module MeetingScheduler {
  import opened Lists

  // ---------------------------------------------------------------------------
  // Intervals

  datatype Interval = Interval(startTime: int, endTime: int)

  /** Neither interval ends strictly before the other starts; the ends are inclusive. */
  predicate Overlaps(a: Interval, b: Interval) {
    !(a.endTime < b.startTime || a.startTime > b.endTime)
  }

  lemma OverlapsMeaning(a: Interval, b: Interval)
    ensures Overlaps(a, b) <==> a.endTime >= b.startTime && a.startTime <= b.endTime
    ensures Overlaps(a, b) == Overlaps(b, a)
    ensures a.startTime <= a.endTime ==> Overlaps(a, a)
  {
  }

  /** Back-to-back intervals that only share an end point still overlap. */
  lemma BackToBackOverlap(a: Interval, b: Interval)
    requires a.startTime <= a.endTime == b.startTime <= b.endTime
    ensures Overlaps(a, b) && Overlaps(b, a)
  {
  }

  // ---------------------------------------------------------------------------
  // Rooms

  /** A room can host a request if it is large enough and no booking overlaps the interval. */
  predicate RoomAvailable(capacity: int, booked: seq<Interval>, interval: Interval, request: int) {
    request <= capacity && forall i :: 0 <= i < |booked| ==> !Overlaps(booked[i], interval)
  }

  /** The bookings left after removing every one with the same start and end as `interval`. */
  function Released(booked: seq<Interval>, interval: Interval): (r: seq<Interval>)
    ensures |r| <= |booked|
  {
    if booked == [] then []
    else if booked[0].startTime == interval.startTime && booked[0].endTime == interval.endTime
    then Released(booked[1..], interval)
    else [booked[0]] + Released(booked[1..], interval)
  }

  /** Releasing drops exactly the matching bookings and keeps every other one as often as before. */
  lemma {:induction false} ReleasedMeaning(booked: seq<Interval>, interval: Interval)
    ensures interval !in Released(booked, interval)
    ensures multiset(Released(booked, interval)) == multiset(booked)[interval := 0]
  {
    if booked != [] {
      ReleasedMeaning(booked[1..], interval);
      assert booked == [booked[0]] + booked[1..];
    }
  }

  lemma {:induction false} ReleasedAppend(a: seq<Interval>, b: seq<Interval>, interval: Interval)
    ensures Released(a + b, interval) == Released(a, interval) + Released(b, interval)
  {
    if a == [] {
      assert a + b == b;
    } else {
      assert (a + b)[1..] == a[1..] + b;
      ReleasedAppend(a[1..], b, interval);
    }
  }

  /** A booked interval makes the room unavailable for it; releasing it again undoes the booking. */
  lemma BookThenRelease(capacity: int, booked: seq<Interval>, interval: Interval, request: int)
    requires interval.startTime <= interval.endTime
    ensures !RoomAvailable(capacity, booked + [interval], interval, request)
    ensures Released(booked + [interval], interval) == Released(booked, interval)
  {
    assert (booked + [interval])[|booked|] == interval;
    ReleasedAppend(booked, [interval], interval);
  }

  class MeetingRoom {
    const id: int
    const capacity: int
    var bookedIntervals: seq<Interval>

    constructor (id: int, capacity: int)
      ensures this.id == id && this.capacity == capacity && bookedIntervals == []
    {
      this.id, this.capacity := id, capacity;
      bookedIntervals := [];
    }

    /** Refuses a request above capacity, then any booking overlapping the interval. */
    method IsAvailableFor(interval: Interval, requestCapacity: int) returns (available: bool)
      ensures available <==> requestCapacity <= capacity &&
                             forall i :: 0 <= i < |bookedIntervals| ==> !Overlaps(bookedIntervals[i], interval)
    {
      if requestCapacity > capacity {
        return false;
      }
      for i := 0 to |bookedIntervals|
        invariant forall j :: 0 <= j < i ==> !Overlaps(bookedIntervals[j], interval)
      {
        if Overlaps(bookedIntervals[i], interval) {
          return false;
        }
      }
      return true;
    }

    /** Appends the interval with no check. */
    method BookInterval(interval: Interval)
      modifies this
      ensures bookedIntervals == old(bookedIntervals) + [interval]
    {
      bookedIntervals := bookedIntervals + [interval];
    }

    method ReleaseInterval(interval: Interval)
      modifies this
      ensures bookedIntervals == Released(old(bookedIntervals), interval)
    {
      bookedIntervals := Released(bookedIntervals, interval);
    }
  }

  // ---------------------------------------------------------------------------
  // Calendars and meetings

  /** One user's meetings; adding never creates a duplicate. */
  class Calendar {
    var meetings: seq<Meeting>

    constructor ()
      ensures meetings == []
    {
      meetings := [];
    }

    method AddMeeting(meeting: Meeting)
      modifies this
      ensures meetings == AddIfAbsent(old(meetings), meeting)
    {
      if meeting !in meetings {
        meetings := meetings + [meeting];
      }
    }

    method RemoveMeeting(meeting: Meeting)
      modifies this
      ensures meetings == RemoveFirst(old(meetings), meeting)
    {
      meetings := RemoveFirst(meetings, meeting);
    }
  }

  /** The RSVP states; the enumeration declares no others. */
  datatype RSVPStatus = Pending | Accepted | Rejected

  /** The source of meeting ids, shared by every meeting. */
  class MeetingIds {
    var nextId: int

    constructor ()
      ensures nextId == 1
    {
      nextId := 1;
    }
  }

  /** The participants holding status `st`. */
  function WithStatus(status: map<User, RSVPStatus>, st: RSVPStatus): set<User> {
    set u | u in status && status[u] == st
  }

  /** Accepted, pending and rejected participants are disjoint and together are all participants. */
  lemma StatusesPartition(status: map<User, RSVPStatus>)
    ensures WithStatus(status, Accepted) * WithStatus(status, Pending) == {}
    ensures WithStatus(status, Accepted) * WithStatus(status, Rejected) == {}
    ensures WithStatus(status, Pending) * WithStatus(status, Rejected) == {}
    ensures WithStatus(status, Accepted) + WithStatus(status, Pending) + WithStatus(status, Rejected) == status.Keys
  {
    forall u | u in status
      ensures u in WithStatus(status, status[u])
    {
    }
  }

  class Meeting {
    const id: int
    /** The participants in the order they were first added: the keys of `participantStatus`. */
    var participants: seq<User>
    var participantStatus: map<User, RSVPStatus>
    const interval: Interval
    const room: MeetingRoom
    const subject: string

    predicate Valid()
      reads this
    {
      NoDuplicates(participants) &&
      (forall u | u in participantStatus :: u in participants) &&
      (forall i | 0 <= i < |participants| :: participants[i] in participantStatus)
    }

    /** Every participant starts pending; the id is the next one from `ids`. */
    constructor (users: seq<User>, interval: Interval, room: MeetingRoom, subject: string, ids: MeetingIds)
      modifies ids
      ensures Valid()
      ensures id == old(ids.nextId) && ids.nextId == old(ids.nextId) + 1
      ensures forall u :: u in participantStatus <==> u in users
      ensures forall u :: u in participantStatus ==> participantStatus[u] == Pending
      ensures this.interval == interval && this.room == room && this.subject == subject
    {
      id := ids.nextId;
      ids.nextId := ids.nextId + 1;
      var keys: seq<User> := [];
      var status: map<User, RSVPStatus> := map[];
      for k := 0 to |users|
        invariant NoDuplicates(keys) && forall u :: u in status <==> u in keys
        invariant forall u :: u in status <==> u in users[..k]
        invariant forall u :: u in status ==> status[u] == Pending
      {
        assert users[..k + 1] == users[..k] + [users[k]];
        if users[k] !in status {
          keys := keys + [users[k]];
        }
        status := status[users[k] := Pending];
      }
      assert users[..|users|] == users;
      participants, participantStatus := keys, status;
      this.interval, this.room, this.subject := interval, room, subject;
    }

    /** Adds the users not yet invited, as pending; existing answers stay. */
    method AddParticipants(users: seq<User>)
      requires Valid()
      modifies this
      ensures Valid()
      ensures forall u :: u in participantStatus <==> u in old(participantStatus) || u in users
      ensures forall u :: u in old(participantStatus) ==> participantStatus[u] == old(participantStatus[u])
      ensures forall u :: u in participantStatus && u !in old(participantStatus) ==> participantStatus[u] == Pending
    {
      for k := 0 to |users|
        invariant Valid()
        invariant forall u :: u in participantStatus <==> u in old(participantStatus) || u in users[..k]
        invariant forall u :: u in old(participantStatus) ==> participantStatus[u] == old(participantStatus[u])
        invariant forall u :: u in participantStatus && u !in old(participantStatus) ==> participantStatus[u] == Pending
      {
        assert users[..k + 1] == users[..k] + [users[k]];
        if users[k] !in participantStatus {
          participants := participants + [users[k]];
          participantStatus := participantStatus[users[k] := Pending];
        }
      }
      assert users[..|users|] == users;
    }

    /** Records `status` for a participant; anyone else is ignored. */
    method UpdateParticipantStatus(user: User, status: RSVPStatus)
      modifies this
      ensures participants == old(participants)
      ensures participantStatus == if user in old(participantStatus) then old(participantStatus)[user := status]
                                   else old(participantStatus)
    {
      if user in participantStatus {
        participantStatus := participantStatus[user := status];
      }
    }

    /** The participants whose status is `st`, in participant order. */
    method ParticipantsWith(st: RSVPStatus) returns (users: seq<User>)
      requires Valid()
      ensures NoDuplicates(users)
      ensures forall u :: u in users <==> u in WithStatus(participantStatus, st)
    {
      users := [];
      for k := 0 to |participants|
        invariant NoDuplicates(users)
        invariant forall u :: u in users <==> u in participants[..k] && participantStatus[u] == st
      {
        assert participants[..k + 1] == participants[..k] + [participants[k]];
        if participantStatus[participants[k]] == st {
          users := users + [participants[k]];
        }
      }
      assert participants[..|participants|] == participants;
    }

    method GetAcceptedParticipants() returns (accepted: seq<User>)
      requires Valid()
      ensures NoDuplicates(accepted)
      ensures forall u :: u in accepted <==> u in participantStatus && participantStatus[u] == Accepted
    {
      accepted := ParticipantsWith(Accepted);
    }

    method GetPendingParticipants() returns (pending: seq<User>)
      requires Valid()
      ensures NoDuplicates(pending)
      ensures forall u :: u in pending <==> u in participantStatus && participantStatus[u] == Pending
    {
      pending := ParticipantsWith(Pending);
    }

    method GetRejectedParticipants() returns (rejected: seq<User>)
      requires Valid()
      ensures NoDuplicates(rejected)
      ensures forall u :: u in rejected <==> u in participantStatus && participantStatus[u] == Rejected
    {
      rejected := ParticipantsWith(Rejected);
    }
  }

  // ---------------------------------------------------------------------------
  // Users

  /** A user's calendar after answering `response` to `meeting`. */
  function CalendarAfter(meetings: seq<Meeting>, meeting: Meeting, response: RSVPStatus): seq<Meeting> {
    match response
    case Rejected => RemoveFirst(meetings, meeting)
    case Accepted => AddIfAbsent(meetings, meeting)
    case Pending => meetings
  }

  /**
   * In a calendar without duplicates, accepting puts the meeting in, rejecting
   * takes it out and a pending answer leaves it as it was.
   */
  lemma ResponseDecidesCalendar(meetings: seq<Meeting>, meeting: Meeting, response: RSVPStatus)
    requires NoDuplicates(meetings)
    ensures NoDuplicates(CalendarAfter(meetings, meeting, response))
    ensures meeting in CalendarAfter(meetings, meeting, response) <==>
              response == Accepted || (response == Pending && meeting in meetings)
    ensures forall m :: m != meeting ==> (m in CalendarAfter(meetings, meeting, response) <==> m in meetings)
  {
    AddIfAbsentProperties(meetings, meeting);
    RemoveFirstFromDistinct(meetings, meeting);
  }

  /** `u` has been invited to `meeting`, has not answered, and has it in the calendar once. */
  ghost predicate Invited(meeting: Meeting, u: User)
    reads meeting, u.calendar
  {
    u in meeting.participantStatus && meeting.participantStatus[u] == Pending &&
    multiset(u.calendar.meetings)[meeting] == 1
  }

  /** `u` has answered `meeting`, and has it in the calendar exactly when the answer was yes. */
  ghost predicate Answered(meeting: Meeting, u: User)
    reads meeting, u.calendar
  {
    u in meeting.participantStatus && meeting.participantStatus[u] != Pending &&
    multiset(u.calendar.meetings)[meeting] == (if meeting.participantStatus[u] == Accepted then 1 else 0)
  }

  /** How often `meeting` is in a calendar after an answer, when it was there at most once. */
  lemma AnswerCount(meetings: seq<Meeting>, meeting: Meeting, response: RSVPStatus)
    requires multiset(meetings)[meeting] <= 1
    ensures multiset(CalendarAfter(meetings, meeting, response))[meeting] ==
              match response
              case Accepted => 1
              case Rejected => 0
              case Pending => multiset(meetings)[meeting]
  {
    RemoveFirstMultiset(meetings, meeting);
  }

  /** The two calendars differ at most in how often they hold `meeting`. */
  ghost predicate OthersKept(before: seq<Meeting>, after: seq<Meeting>, meeting: Meeting) {
    multiset(before)[meeting := 0] == multiset(after)[meeting := 0]
  }

  /** An answer adds or removes only the meeting it answers. */
  lemma ResponseKeepsOthers(meetings: seq<Meeting>, meeting: Meeting, response: RSVPStatus)
    ensures OthersKept(meetings, CalendarAfter(meetings, meeting, response), meeting)
  {
    RemoveFirstMultiset(meetings, meeting);
  }

  lemma OthersKeptTrans(a: seq<Meeting>, b: seq<Meeting>, c: seq<Meeting>, meeting: Meeting)
    requires OthersKept(a, b, meeting) && OthersKept(b, c, meeting)
    ensures OthersKept(a, c, meeting)
  {
  }

  /** The simulated answer: yes accepts, no rejects. */
  function AnswerOf(accept: bool): RSVPStatus {
    if accept then Accepted else Rejected
  }

  /** Every user's recorded answer is the one given at that user's last position in `users`. */
  ghost predicate AnswersRecorded(meeting: Meeting, users: seq<User>, accepts: seq<bool>)
    reads meeting
  {
    |accepts| == |users| &&
    forall k | 0 <= k < |users| && users[k] !in users[k + 1..] ::
      users[k] in meeting.participantStatus && meeting.participantStatus[users[k]] == AnswerOf(accepts[k])
  }

  /** `AnswersRecorded` for the first `n` users only. */
  ghost predicate RecordedUpTo(meeting: Meeting, users: seq<User>, accepts: seq<bool>, n: int)
    reads meeting
  {
    0 <= n <= |users| == |accepts| &&
    forall k | 0 <= k < n && users[k] !in users[k + 1..n] ::
      users[k] in meeting.participantStatus && meeting.participantStatus[users[k]] == AnswerOf(accepts[k])
  }

  lemma RecordedAll(meeting: Meeting, users: seq<User>, accepts: seq<bool>)
    requires RecordedUpTo(meeting, users, accepts, |users|)
    ensures AnswersRecorded(meeting, users, accepts)
  {
    forall k | 0 <= k < |users|
      ensures users[k] in users[k + 1..] <==> users[k] in users[k + 1..|users|]
    {
      assert users[k + 1..] == users[k + 1..|users|];
    }
  }

  /** Every user's calendar differs from its snapshot in `start` at most in `meeting`. */
  ghost predicate CalendarsKept(start: map<User, seq<Meeting>>, users: seq<User>, meeting: Meeting)
    reads set u | u in users :: u.calendar
  {
    (forall u | u in users :: u in start) &&
    forall u {:trigger start[u]} | u in users && u in start :: OthersKept(start[u], u.calendar.meetings, meeting)
  }

  class User {
    const name: string
    const email: string
    const calendar: Calendar

    constructor (name: string, email: string)
      ensures this.name == name && this.email == email
      ensures fresh(calendar) && calendar.meetings == []
    {
      this.name, this.email := name, email;
      calendar := new Calendar();
    }

    /** Records the answer on the meeting, then updates this user's calendar. */
    method RespondInvitation(meeting: Meeting, response: RSVPStatus)
      modifies meeting, calendar
      ensures meeting.participants == old(meeting.participants)
      ensures meeting.participantStatus ==
                if this in old(meeting.participantStatus) then old(meeting.participantStatus)[this := response]
                else old(meeting.participantStatus)
      ensures calendar.meetings == CalendarAfter(old(calendar.meetings), meeting, response)
    {
      meeting.UpdateParticipantStatus(this, response);
      if response == Rejected {
        calendar.RemoveMeeting(meeting);
      } else if response == Accepted {
        calendar.AddMeeting(meeting);
      }
    }
  }

  /** Different users keep different calendar objects, as each user builds its own. */
  ghost predicate OwnCalendars(users: seq<User>) {
    forall u, v | u in users && v in users && u != v :: u.calendar != v.calendar
  }

  /** The users' calendars are their own, and none of them is the organizer's unless the user is the organizer. */
  ghost predicate SeparateCalendars(users: seq<User>, organizer: User) {
    OwnCalendars(users) && forall u | u in users && u != organizer :: u.calendar != organizer.calendar
  }

  // ---------------------------------------------------------------------------
  // The scheduler

  class Scheduler {
    const organizer: User
    const calendar: Calendar
    const rooms: seq<MeetingRoom>

    constructor (organizer: User, rooms: seq<MeetingRoom>)
      ensures this.organizer == organizer && calendar == organizer.calendar && this.rooms == rooms
    {
      this.organizer, this.rooms := organizer, rooms;
      calendar := organizer.calendar;
    }

    /** The first room, in list order, that can host `capacity` people during `interval`. */
    method CheckRoomsAvailability(capacity: int, interval: Interval) returns (room: MeetingRoom?)
      ensures room == null <==>
                forall i :: 0 <= i < |rooms| ==> !RoomAvailable(rooms[i].capacity, rooms[i].bookedIntervals, interval, capacity)
      ensures room != null ==>
                exists i :: 0 <= i < |rooms| && rooms[i] == room &&
                  RoomAvailable(room.capacity, room.bookedIntervals, interval, capacity) &&
                  forall j :: 0 <= j < i ==> !RoomAvailable(rooms[j].capacity, rooms[j].bookedIntervals, interval, capacity)
    {
      for i := 0 to |rooms|
        invariant forall j :: 0 <= j < i ==> !RoomAvailable(rooms[j].capacity, rooms[j].bookedIntervals, interval, capacity)
      {
        var available := rooms[i].IsAvailableFor(interval, capacity);
        if available {
          return rooms[i];
        }
      }
      return null;
    }

    method BookRoom(room: MeetingRoom, interval: Interval) returns (ok: bool)
      modifies room
      ensures ok && room.bookedIntervals == old(room.bookedIntervals) + [interval]
    {
      room.BookInterval(interval);
      return true;
    }

    method ReleaseRoom(room: MeetingRoom, interval: Interval) returns (ok: bool)
      modifies room
      ensures ok && room.bookedIntervals == Released(old(room.bookedIntervals), interval)
    {
      room.ReleaseInterval(interval);
      return true;
    }

    /**
     * Books the first free room, creates the meeting, adds it to every
     * participant's calendar and to the organizer's, then applies each
     * participant's answer: `accepts[k]` is the answer of `users[k]`.
     */
    method ScheduleMeeting(users: seq<User>, interval: Interval, subject: string, ids: MeetingIds, accepts: seq<bool>)
      returns (meeting: Meeting?)
      requires |accepts| == |users| && SeparateCalendars(users, organizer)
      modifies set r | r in rooms, set u | u in users :: u.calendar, organizer.calendar, ids
      ensures meeting == null <==>
                forall i :: 0 <= i < |rooms| ==>
                  !RoomAvailable(rooms[i].capacity, old(rooms[i].bookedIntervals), interval, |users|)
      ensures meeting == null ==>
                (forall r :: r in rooms ==> r.bookedIntervals == old(r.bookedIntervals)) &&
                (forall u :: u in users ==> u.calendar.meetings == old(u.calendar.meetings)) &&
                organizer.calendar.meetings == old(organizer.calendar.meetings) &&
                ids.nextId == old(ids.nextId)
      ensures meeting != null ==>
                fresh(meeting) && meeting.Valid() && meeting.room in rooms && meeting.interval == interval &&
                meeting.id == old(ids.nextId) && ids.nextId == old(ids.nextId) + 1 &&
                forall r :: r in rooms ==>
                  r.bookedIntervals == if r == meeting.room then old(r.bookedIntervals) + [interval]
                                       else old(r.bookedIntervals)
      ensures meeting != null ==>
                exists i :: 0 <= i < |rooms| && rooms[i] == meeting.room &&
                  RoomAvailable(rooms[i].capacity, old(rooms[i].bookedIntervals), interval, |users|) &&
                  forall j :: 0 <= j < i ==>
                    !RoomAvailable(rooms[j].capacity, old(rooms[j].bookedIntervals), interval, |users|)
      ensures meeting != null ==>
                (forall u :: u in meeting.participantStatus <==> u in users) &&
                (forall u :: u in users ==> Answered(meeting, u)) &&
                AnswersRecorded(meeting, users, accepts)
      ensures meeting != null ==>
                (forall u :: u in users ==> OthersKept(old(u.calendar.meetings), u.calendar.meetings, meeting)) &&
                OthersKept(old(organizer.calendar.meetings), organizer.calendar.meetings, meeting)
      ensures meeting != null && organizer !in users ==> multiset(organizer.calendar.meetings)[meeting] == 1
    {
      var room := CheckRoomsAvailability(|users|, interval);
      if room == null {
        return null;
      }
      meeting := HoldMeeting(room, users, interval, subject, ids, accepts);
    }

    /** Everything `ScheduleMeeting` does once `room` has been chosen. */
    method HoldMeeting(room: MeetingRoom, users: seq<User>, interval: Interval, subject: string, ids: MeetingIds,
                       accepts: seq<bool>) returns (meeting: Meeting)
      requires |accepts| == |users| && SeparateCalendars(users, organizer)
      modifies room, set u | u in users :: u.calendar, organizer.calendar, ids
      ensures fresh(meeting) && meeting.Valid() && meeting.room == room && meeting.interval == interval
      ensures meeting.id == old(ids.nextId) && ids.nextId == old(ids.nextId) + 1
      ensures room.bookedIntervals == old(room.bookedIntervals) + [interval]
      ensures forall u :: u in meeting.participantStatus <==> u in users
      ensures forall u :: u in users ==> Answered(meeting, u)
      ensures AnswersRecorded(meeting, users, accepts)
      ensures forall u :: u in users ==> OthersKept(old(u.calendar.meetings), u.calendar.meetings, meeting)
      ensures OthersKept(old(organizer.calendar.meetings), organizer.calendar.meetings, meeting)
      ensures organizer !in users ==> multiset(organizer.calendar.meetings)[meeting] == 1
    {
      var booked := BookRoom(room, interval);
      meeting := new Meeting(users, interval, room, subject, ids);
      InviteAll(users, meeting, accepts);
    }

    /** Puts a fresh meeting in the calendars, then applies the participants' answers. */
    method InviteAll(users: seq<User>, meeting: Meeting, accepts: seq<bool>)
      requires |accepts| == |users| && SeparateCalendars(users, organizer) && meeting.Valid()
      requires forall u :: u in meeting.participantStatus <==> u in users
      requires forall u :: u in meeting.participantStatus ==> meeting.participantStatus[u] == Pending
      requires forall u :: u in users ==> meeting !in u.calendar.meetings
      requires meeting !in organizer.calendar.meetings
      modifies meeting, set u | u in users :: u.calendar, organizer.calendar
      ensures meeting.Valid() && meeting.participants == old(meeting.participants)
      ensures forall u :: u in meeting.participantStatus <==> u in users
      ensures forall u :: u in users ==> Answered(meeting, u)
      ensures AnswersRecorded(meeting, users, accepts)
      ensures forall u :: u in users ==> OthersKept(old(u.calendar.meetings), u.calendar.meetings, meeting)
      ensures OthersKept(old(organizer.calendar.meetings), organizer.calendar.meetings, meeting)
      ensures organizer !in users ==> multiset(organizer.calendar.meetings)[meeting] == 1
    {
      AddToCalendars(users, meeting);
      label Added:
      CollectAnswers(users, meeting, accepts);
      forall u | u in users
        ensures OthersKept(old(u.calendar.meetings), u.calendar.meetings, meeting)
      {
        OthersKeptTrans(old(u.calendar.meetings), old@Added(u.calendar.meetings), u.calendar.meetings, meeting);
      }
    }

    /** Puts a fresh meeting in each user's calendar, once, and then in the organizer's. */
    method AddToCalendars(users: seq<User>, meeting: Meeting)
      requires SeparateCalendars(users, organizer)
      requires forall u :: u in users ==> meeting !in u.calendar.meetings
      requires meeting !in organizer.calendar.meetings
      modifies set u | u in users :: u.calendar, organizer.calendar
      ensures forall u :: u in users ==> multiset(u.calendar.meetings)[meeting] == 1
      ensures forall u :: u in users ==> OthersKept(old(u.calendar.meetings), u.calendar.meetings, meeting)
      ensures multiset(organizer.calendar.meetings)[meeting] == 1
      ensures OthersKept(old(organizer.calendar.meetings), organizer.calendar.meetings, meeting)
    {
      AddToUsers(users, meeting);
      label Users:
      organizer.calendar.AddMeeting(meeting);
      if organizer in users {
        assert organizer.calendar.meetings == old@Users(organizer.calendar.meetings);
      } else {
        assert organizer.calendar.meetings == old(organizer.calendar.meetings) + [meeting];
        forall u | u in users
          ensures u.calendar.meetings == old@Users(u.calendar.meetings)
        {
          assert u.calendar != organizer.calendar;
        }
      }
    }

    /** Puts a fresh meeting in each user's calendar, once. */
    method AddToUsers(users: seq<User>, meeting: Meeting)
      requires OwnCalendars(users)
      requires forall u :: u in users ==> meeting !in u.calendar.meetings
      modifies set u | u in users :: u.calendar
      ensures forall u :: u in users ==> multiset(u.calendar.meetings)[meeting] == 1
      ensures forall u :: u in users ==> OthersKept(old(u.calendar.meetings), u.calendar.meetings, meeting)
    {
      ghost var start := map u | u in users :: u.calendar.meetings;
      for k := 0 to |users|
        invariant forall u :: u in users[..k] ==> multiset(u.calendar.meetings)[meeting] == 1
        invariant forall u :: u in users && u !in users[..k] ==> u.calendar.meetings == start[u]
        invariant CalendarsKept(start, users, meeting)
      {
        AddNext(users, k, meeting, start);
      }
      assert users[..|users|] == users;
      forall u | u in users
        ensures OthersKept(old(u.calendar.meetings), u.calendar.meetings, meeting)
      {
        assert start[u] == old(u.calendar.meetings);
      }
    }

    /**
     * Puts the meeting in `users[k]`'s calendar, once those before it have it;
     * `start` is the calendars' contents before the first addition.
     */
    method AddNext(users: seq<User>, k: int, meeting: Meeting, ghost start: map<User, seq<Meeting>>)
      requires 0 <= k < |users| && OwnCalendars(users)
      requires forall u :: u in users ==> u in start && meeting !in start[u]
      requires forall u :: u in users[..k] ==> multiset(u.calendar.meetings)[meeting] == 1
      requires forall u :: u in users && u !in users[..k] ==> u.calendar.meetings == start[u]
      requires CalendarsKept(start, users, meeting)
      modifies users[k].calendar
      ensures forall u :: u in users[..k + 1] ==> multiset(u.calendar.meetings)[meeting] == 1
      ensures forall u :: u in users && u !in users[..k + 1] ==> u.calendar.meetings == start[u]
      ensures CalendarsKept(start, users, meeting)
    {
      assert users[..k + 1] == users[..k] + [users[k]];
      var user := users[k];
      ghost var before := user.calendar.meetings;
      user.calendar.AddMeeting(meeting);
      if user !in users[..k] {
        assert user.calendar.meetings == before + [meeting];
      } else {
        assert user.calendar.meetings == before;
      }
      OthersKeptTrans(start[user], before, user.calendar.meetings, meeting);
      forall u | u in users && u != user
        ensures u.calendar.meetings == old(u.calendar.meetings)
      {
        assert u.calendar != user.calendar;
      }
    }

    /** Applies each participant's answer in list order. */
    method CollectAnswers(users: seq<User>, meeting: Meeting, accepts: seq<bool>)
      requires |accepts| == |users| && SeparateCalendars(users, organizer) && meeting.Valid()
      requires forall u :: u in meeting.participantStatus <==> u in users
      requires forall u :: u in users ==> Invited(meeting, u)
      modifies meeting, set u | u in users :: u.calendar
      ensures meeting.Valid() && meeting.participants == old(meeting.participants)
      ensures forall u :: u in meeting.participantStatus <==> u in users
      ensures forall u :: u in users ==> Answered(meeting, u)
      ensures AnswersRecorded(meeting, users, accepts)
      ensures forall u :: u in users ==> OthersKept(old(u.calendar.meetings), u.calendar.meetings, meeting)
      ensures organizer !in users ==> organizer.calendar.meetings == old(organizer.calendar.meetings)
    {
      ghost var start := map u | u in users :: u.calendar.meetings;
      for k := 0 to |users|
        invariant meeting.Valid() && meeting.participants == old(meeting.participants)
        invariant forall u :: u in meeting.participantStatus <==> u in users
        invariant forall u :: u in users[..k] ==> Answered(meeting, u)
        invariant forall u :: u in users && u !in users[..k] ==> Invited(meeting, u)
        invariant RecordedUpTo(meeting, users, accepts, k)
        invariant CalendarsKept(start, users, meeting)
      {
        AnswerNext(users, k, meeting, accepts, start);
      }
      assert users[..|users|] == users;
      RecordedAll(meeting, users, accepts);
      forall u | u in users
        ensures OthersKept(old(u.calendar.meetings), u.calendar.meetings, meeting)
      {
        assert start[u] == old(u.calendar.meetings);
      }
    }

    /**
     * `users[k]` answers `accepts[k]`, once those before it have answered;
     * `start` is the calendars' contents before the first answer.
     */
    method AnswerNext(users: seq<User>, k: int, meeting: Meeting, accepts: seq<bool>, ghost start: map<User, seq<Meeting>>)
      requires 0 <= k < |users| == |accepts| && SeparateCalendars(users, organizer) && meeting.Valid()
      requires forall u :: u in meeting.participantStatus <==> u in users
      requires forall u :: u in users[..k] ==> Answered(meeting, u)
      requires forall u :: u in users && u !in users[..k] ==> Invited(meeting, u)
      requires RecordedUpTo(meeting, users, accepts, k)
      requires CalendarsKept(start, users, meeting)
      modifies meeting, users[k].calendar
      ensures meeting.Valid() && meeting.participants == old(meeting.participants)
      ensures meeting.participantStatus == old(meeting.participantStatus)[users[k] := AnswerOf(accepts[k])]
      ensures forall u :: u in users[..k + 1] ==> Answered(meeting, u)
      ensures forall u :: u in users && u !in users[..k + 1] ==> Invited(meeting, u)
      ensures RecordedUpTo(meeting, users, accepts, k + 1)
      ensures CalendarsKept(start, users, meeting)
    {
      assert users[..k + 1] == users[..k] + [users[k]];
      var user := users[k];
      var response := AnswerOf(accepts[k]);
      ghost var before := user.calendar.meetings;
      label Before:
      user.RespondInvitation(meeting, response);
      AnswerCount(before, meeting, response);
      ResponseKeepsOthers(before, meeting, response);
      OthersKeptTrans(start[user], before, user.calendar.meetings, meeting);
      assert Answered(meeting, user);
      forall u | u in users && u != user
        ensures old@Before(Answered(meeting, u)) ==> Answered(meeting, u)
        ensures old@Before(Invited(meeting, u)) ==> Invited(meeting, u)
        ensures u.calendar.meetings == old(u.calendar.meetings)
        ensures OthersKept(start[u], u.calendar.meetings, meeting)
      {
        assert u.calendar != user.calendar;
      }
      forall j | 0 <= j < k + 1 && users[j] !in users[j + 1..k + 1]
        ensures meeting.participantStatus[users[j]] == AnswerOf(accepts[j])
      {
        if j < k {
          assert users[j + 1..k + 1] == users[j + 1..k] + [users[k]];
        }
      }
    }

    /**
     * Frees the room for the meeting's interval and takes the meeting out of
     * the calendar of every participant who accepted it.
     */
    method CancelMeeting(meeting: Meeting) returns (ok: bool)
      requires meeting.Valid() && OwnCalendars(meeting.participants)
      modifies meeting.room, set u | u in meeting.participants :: u.calendar
      ensures ok
      ensures meeting.room.bookedIntervals == Released(old(meeting.room.bookedIntervals), meeting.interval)
      ensures forall u :: u in meeting.participants && meeting.participantStatus[u] == Accepted ==>
                u.calendar.meetings == RemoveFirst(old(u.calendar.meetings), meeting)
      ensures forall u :: u in meeting.participants && meeting.participantStatus[u] != Accepted ==>
                u.calendar.meetings == old(u.calendar.meetings)
    {
      var released := ReleaseRoom(meeting.room, meeting.interval);
      var accepted := meeting.GetAcceptedParticipants();
      for k := 0 to |accepted|
        modifies set u | u in meeting.participants :: u.calendar
        invariant forall u :: u in meeting.participants && u in accepted[..k] ==>
                    u.calendar.meetings == RemoveFirst(old(u.calendar.meetings), meeting)
        invariant forall u :: u in meeting.participants && u !in accepted[..k] ==>
                    u.calendar.meetings == old(u.calendar.meetings)
      {
        assert accepted[..k + 1] == accepted[..k] + [accepted[k]];
        assert accepted[k] !in accepted[..k];
        accepted[k].calendar.RemoveMeeting(meeting);
      }
      assert accepted[..|accepted|] == accepted;
      forall u | u in meeting.participants
        ensures u in meeting.participantStatus
      {
        var i :| 0 <= i < |meeting.participants| && meeting.participants[i] == u;
      }
      return true;
    }
  }
}
