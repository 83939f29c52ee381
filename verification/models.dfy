/** The persistent records of the event engine, their default field values,
    and the check-in rule of an event. */
module Models {
  import opened Common

  datatype JoinPolicy = Open | OwnerApproval | InviteOnly | OwnerInviteOnly | FriendsOnly

  datatype MemberStatus = Requested | Invited | Accepted | Declined

  /** An event row. `owner` is None for an event imported from an external
      feed; `canceled` is the cancellation instant (None while active);
      `updated` is refreshed on every save. */
  datatype Event = Event(
    id: EventId,
    owner: Option<UserId>,
    start: Time,
    end: Option<Time>,
    joinPolicy: JoinPolicy,
    maxMembers: int,
    canceled: Option<Time>,
    updated: Time,
    addedFriends: bool,
    notifiedStart: bool,
    hashTags: set<TagId>)

  /** The join row of a user and an event; the store keys it by (event, user). */
  datatype EventMember = EventMember(
    status: MemberStatus,
    viewedEvent: Time,
    checkedIn: Option<Time>,
    invite: Option<InviteId>)

  datatype EventInvite = EventInvite(
    event: EventId,
    sender: UserId,
    receiver: UserId,
    sent: Time,
    responded: Option<Time>,
    accepted: bool)

  /** A directed friend edge owner -> user; the store keys it by (owner, user). */
  datatype Friend = Friend(close: bool, imported: bool, lastMet: Option<EventId>)

  type MemberKey = (EventId, UserId)
  type FriendKey = (UserId, UserId)

  /** A freshly saved event: the join policy defaults to OPEN and max_members
      to the configured maximum; it starts active and unprocessed by the
      batch jobs. */
  function NewEvent(id: EventId, owner: UserId, start: Time, end: Option<Time>,
                    joinPolicy: Option<JoinPolicy>, maxMembers: Option<int>,
                    hashTags: set<TagId>, now: Time, cfg: Config): (e: Event)
    ensures e.id == id && e.owner == Some(owner) && e.start == start && e.end == end
    ensures joinPolicy.None? ==> e.joinPolicy == Open
    ensures joinPolicy.Some? ==> e.joinPolicy == joinPolicy.value
    ensures maxMembers.None? ==> e.maxMembers == cfg.maxMembers
    ensures maxMembers.Some? ==> e.maxMembers == maxMembers.value
    ensures e.canceled.None? && !e.addedFriends && !e.notifiedStart && e.updated == now
  {
    Event(id, Some(owner), start, end, joinPolicy.GetOr(Open), maxMembers.GetOr(cfg.maxMembers),
          None, now, false, false, hashTags)
  }

  /** A member row created without an explicit status is a join request. */
  function NewMember(status: Option<MemberStatus>, now: Time): (m: EventMember)
    ensures status.None? ==> m.status == Requested
    ensures status.Some? ==> m.status == status.value
    ensures m.checkedIn.None? && m.invite.None? && m.viewedEvent == now
  {
    EventMember(status.GetOr(Requested), now, None, None)
  }

  /** The reasons a check-in is refused, each with the status text it is
      reported with. */
  datatype CheckinRefusal = AlreadyCheckedIn | TooEarly | TooLate | TooFar {
    function Status(): string {
      match this
      case AlreadyCheckedIn => "Already checked in."
      case TooEarly => "Too early to check in."
      case TooLate => "Too late to check in."
      case TooFar => "Too far away to check in."
    }
  }

  /** Check-ins open 30 minutes before the start. */
  function CheckinStart(e: Event): Time {
    e.start - 30 * MINUTE
  }

  /** Check-ins (and cancellation) close at the end, or CHECKIN_PERIOD after
      the start when the event has no end. */
  function CheckinEnd(e: Event, cfg: Config): Time {
    if e.end.None? then e.start + cfg.checkinPeriod else e.end.value
  }

  /** Event.can_checkin: None when the member may check in now, from
      `distance` metres away; otherwise the first reason that applies, in the
      order already-checked-in, too early, too late, too far. */
  function CanCheckin(e: Event, m: EventMember, now: Time, distance: real, cfg: Config): (r: Option<CheckinRefusal>)
    ensures m.checkedIn.Some? ==> r == Some(AlreadyCheckedIn)
    ensures r == Some(TooEarly) <==> m.checkedIn.None? && now < CheckinStart(e)
    ensures r == Some(TooLate) <==> m.checkedIn.None? && CheckinStart(e) <= now && now > CheckinEnd(e, cfg)
    ensures r == Some(TooFar) <==>
      m.checkedIn.None? && CheckinStart(e) <= now <= CheckinEnd(e, cfg) && distance > cfg.checkinDistance as real
    ensures r.None? <==>
      m.checkedIn.None? && CheckinStart(e) <= now <= CheckinEnd(e, cfg) && distance <= cfg.checkinDistance as real
  {
    if m.checkedIn.Some? then Some(AlreadyCheckedIn)
    else if now < CheckinStart(e) then Some(TooEarly)
    else if now > CheckinEnd(e, cfg) then Some(TooLate)
    else if distance > cfg.checkinDistance as real then Some(TooFar)
    else None
  }
}
