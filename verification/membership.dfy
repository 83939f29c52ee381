/** The event membership state machine: the store of events, member rows,
    invites and friend edges, and the actions that change it (create, join,
    leave, invite, check in, cancel, answer an invite, approve a request,
    mark a friend close). Each action answers with the new row or value, or
    with the rejection the view reports, and says exactly what it changes. */
module Membership {
  import opened Common
  import opened Models
  import opened Permissions
  import Validation
  import Text

  /** Why an action was refused. */
  datatype Error =
    | NotFound                         // get_object() found no row: 404
    | Forbidden                        // an object permission refused the request
    | Rejected(errors: seq<Validation.FieldError>)  // the serializer refused the payload: 400 with its errors
    | AlreadyMember
    | NotFriendOfOwner
    | NotMember
    | NoPermissionToInvite
    | MemberIsOwner
    | NoInvite                         // the member row has no invite: unhandled exception (500)
    | NoMemberRow                      // check-in by a non-member: unhandled exception (500)
    | CheckinRefused(reason: CheckinRefusal)
    | TooLateToCancel
    | MissingCloseFlag                 // a form body without `close`: `False.lower()` is an unhandled exception (500)
  {
    /** The text the refusal is reported with; none for a serializer refusal,
        whose body is its errors, and none for an unhandled exception (500),
        for which the view writes nothing. */
    function Status(): Option<string> {
      match this
      case NotFound => Some("Not found.")
      case Forbidden => Some("You do not have permission to perform this action.")
      case Rejected(_) => None
      case AlreadyMember => Some("Already a member")
      case NotFriendOfOwner => Some("Only the owner's friends can join")
      case NotMember => Some("Not a member")
      case NoPermissionToInvite => Some("No permission to invite")
      case MemberIsOwner => Some("Member is owner")
      case NoInvite => None
      case NoMemberRow => None
      case CheckinRefused(reason) => Some(reason.Status())
      case TooLateToCancel => Some("Too late to cancel event.")
      case MissingCloseFlag => None
    }
  }

  datatype Outcome<T> = Ok(value: T) | Err(error: Error)

  /** How a successful cancellation ended. */
  datatype CancelResult = EventDeleted | EventCanceled

  /** A close friend edge owner -> user exists. An event without an owner
      (an imported one) has no friends. */
  predicate HasCloseEdge(friends: map<FriendKey, Friend>, owner: Option<UserId>, user: UserId) {
    owner.Some? && (owner.value, user) in friends && friends[(owner.value, user)].close
  }

  /** A member other than the owner may invite only to OPEN and INVITE_ONLY
      events. */
  predicate MayInvite(e: Event, inviter: UserId) {
    e.owner == Some(inviter) || e.joinPolicy == Open || e.joinPolicy == InviteOnly
  }

  // ----------------------------------------------------- deletion cascade

  /** Deleting an event deletes its member rows ... */
  function MembersWithout(members: map<MemberKey, EventMember>, e: EventId): (r: map<MemberKey, EventMember>)
    ensures forall k :: k in r <==> k in members && k.0 != e
    ensures forall k :: k in r ==> r[k] == members[k]
  {
    map k | k in members && k.0 != e :: members[k]
  }

  /** ... its invites ... */
  function InvitesWithout(invites: map<InviteId, EventInvite>, e: EventId): (r: map<InviteId, EventInvite>)
    ensures forall i :: i in r <==> i in invites && invites[i].event != e
    ensures forall i :: i in r ==> r[i] == invites[i]
  {
    map i | i in invites && invites[i].event != e :: invites[i]
  }

  /** ... and the friend edges whose last meeting was at it. */
  function FriendsWithout(friends: map<FriendKey, Friend>, e: EventId): (r: map<FriendKey, Friend>)
    ensures forall k :: k in r <==> k in friends && friends[k].lastMet != Some(e)
    ensures forall k :: k in r ==> r[k] == friends[k]
  {
    map k | k in friends && friends[k].lastMet != Some(e) :: friends[k]
  }

  // ---------------------------------------------------------- invitations

  /** The part of the store an invitation round changes, and its counter. */
  datatype InviteState = InviteState(
    members: map<MemberKey, EventMember>,
    invites: map<InviteId, EventInvite>,
    nextInvite: InviteId,
    count: nat)

  /** One step of the invitation loop: an unknown user is skipped, an existing
      row is left as it is, otherwise an INVITED row is created together with
      the invite it points at, and the counter goes up. */
  function InviteOne(st: InviteState, e: EventId, sender: UserId, known: set<UserId>, u: UserId, now: Time): InviteState {
    if u !in known || (e, u) in st.members then st
    else InviteState(
      st.members[(e, u) := EventMember(Invited, now, None, Some(st.nextInvite))],
      st.invites[st.nextInvite := EventInvite(e, sender, u, now, None, false)],
      st.nextInvite + 1,
      st.count + 1)
  }

  /** The whole loop, over the ids in order. */
  function InviteAll(st: InviteState, e: EventId, sender: UserId, known: set<UserId>, ids: seq<UserId>, now: Time): InviteState
    decreases |ids|
  {
    if ids == [] then st
    else InviteOne(InviteAll(st, e, sender, known, ids[..|ids| - 1], now), e, sender, known, ids[|ids| - 1], now)
  }

  /** Rows and invites that existed before the round are left untouched. */
  lemma {:induction false} InviteAllKeepsExisting(st: InviteState, e: EventId, sender: UserId, known: set<UserId>, ids: seq<UserId>, now: Time)
    requires forall i :: i in st.invites ==> i < st.nextInvite
    ensures var r := InviteAll(st, e, sender, known, ids, now);
      && (forall k :: k in st.members ==> k in r.members && r.members[k] == st.members[k])
      && (forall i :: i in st.invites ==> i in r.invites && r.invites[i] == st.invites[i])
      && st.nextInvite <= r.nextInvite
      && (forall i :: i in r.invites ==> i < r.nextInvite)
    decreases |ids|
  {
    if ids != [] {
      InviteAllKeepsExisting(st, e, sender, known, ids[..|ids| - 1], now);
    }
  }

  /** Every row the round creates is an INVITED row of this event, for a
      known user named in the ids, pointing at an unanswered invite from the
      sender to that user. */
  lemma {:induction false} InviteAllNewRows(st: InviteState, e: EventId, sender: UserId, known: set<UserId>, ids: seq<UserId>, now: Time)
    requires forall i :: i in st.invites ==> i < st.nextInvite
    ensures var r := InviteAll(st, e, sender, known, ids, now);
      forall k :: k in r.members && k !in st.members ==>
        && k.0 == e && k.1 in known && k.1 in ids
        && r.members[k].status == Invited && r.members[k].checkedIn.None?
        && r.members[k].invite.Some? && r.members[k].invite.value in r.invites
        && r.invites[r.members[k].invite.value] == EventInvite(e, sender, k.1, now, None, false)
    decreases |ids|
  {
    if ids != [] {
      var pre := ids[..|ids| - 1];
      var mid := InviteAll(st, e, sender, known, pre, now);
      InviteAllNewRows(st, e, sender, known, pre, now);
      InviteAllKeepsExisting(st, e, sender, known, pre, now);
      var r := InviteAll(st, e, sender, known, ids, now);
      forall k | k in r.members && k !in st.members
        ensures k.0 == e && k.1 in known && k.1 in ids
      {
        if k in mid.members {
          assert k.1 in pre;
        }
      }
    }
  }

  /** Every known user named in the ids has a row for the event afterwards. */
  lemma {:induction false} InviteAllCoversKnown(st: InviteState, e: EventId, sender: UserId, known: set<UserId>, ids: seq<UserId>, now: Time)
    ensures var r := InviteAll(st, e, sender, known, ids, now);
      forall i :: 0 <= i < |ids| && ids[i] in known ==> (e, ids[i]) in r.members
    decreases |ids|
  {
    if ids != [] {
      var pre := ids[..|ids| - 1];
      InviteAllCoversKnown(st, e, sender, known, pre, now);
      var r := InviteAll(st, e, sender, known, ids, now);
      forall i | 0 <= i < |ids| && ids[i] in known ensures (e, ids[i]) in r.members {
        if i < |ids| - 1 {
          assert ids[i] == pre[i];
        }
      }
    }
  }

  /** The reported count is exactly the number of rows the round created. */
  lemma {:induction false} InviteAllCount(st: InviteState, e: EventId, sender: UserId, known: set<UserId>, ids: seq<UserId>, now: Time)
    ensures var r := InviteAll(st, e, sender, known, ids, now);
      st.members.Keys <= r.members.Keys && r.count == st.count + |r.members.Keys - st.members.Keys|
    decreases |ids|
  {
    if ids != [] {
      var pre := ids[..|ids| - 1];
      var mid := InviteAll(st, e, sender, known, pre, now);
      InviteAllCount(st, e, sender, known, pre, now);
      var r := InviteAll(st, e, sender, known, ids, now);
      InviteOneCount(st, mid, e, sender, known, ids[|ids| - 1], now);
    }
  }

  lemma InviteOneCount(st: InviteState, mid: InviteState, e: EventId, sender: UserId, known: set<UserId>, u: UserId, now: Time)
    requires st.members.Keys <= mid.members.Keys
    requires mid.count == st.count + |mid.members.Keys - st.members.Keys|
    ensures var r := InviteOne(mid, e, sender, known, u, now);
      st.members.Keys <= r.members.Keys && r.count == st.count + |r.members.Keys - st.members.Keys|
  {
    if u in known && (e, u) !in mid.members {
      var r := InviteOne(mid, e, sender, known, u, now);
      assert r.members.Keys == mid.members.Keys + {(e, u)};
      GrowByOne(mid.members.Keys, st.members.Keys, (e, u));
    }
  }

  lemma GrowByOne<T>(a: set<T>, b: set<T>, x: T)
    requires b <= a && x !in a
    ensures b <= a + {x}
    ensures |(a + {x}) - b| == |a - b| + 1
  {
    assert (a + {x}) - b == (a - b) + {x};
  }

  // ---------------------------------------------------------------- store

  class EventStore {
    const cfg: Config
    /** Event rows by id. */
    var events: map<EventId, Event>
    /** Member rows keyed by (event, user): at most one per pair. */
    var members: map<MemberKey, EventMember>
    var invites: map<InviteId, EventInvite>
    /** Friend edges keyed by (owner, user): at most one per pair. */
    var friends: map<FriendKey, Friend>
    /** Registered users. */
    var users: set<UserId>
    /** Users whose profile asks to befriend people met at events. */
    var friendMembers: set<UserId>
    var nextEvent: EventId
    var nextInvite: InviteId

    /** Referential integrity of the rows: every foreign key points at a row
        that exists, ids are below the next free id, and a member row's invite
        is for that member's event and user. */
    ghost predicate Valid()
      reads this
    {
      && (forall e :: e in events ==> events[e].id == e && e < nextEvent)
      && (forall e :: e in events && events[e].owner.Some? ==> events[e].owner.value in users)
      && (forall k :: k in members ==> k.0 in events && k.1 in users)
      && (forall k :: k in members && members[k].invite.Some? ==>
            && members[k].invite.value in invites
            && invites[members[k].invite.value].event == k.0
            && invites[members[k].invite.value].receiver == k.1)
      && (forall i :: i in invites ==> i < nextInvite && invites[i].event in events)
      && (forall k :: k in friends ==> k.0 in users && k.1 in users)
      && (forall k :: k in friends && friends[k].lastMet.Some? ==> friends[k].lastMet.value in events)
      && friendMembers <= users
    }

    constructor (cfg: Config, users: set<UserId>, friendMembers: set<UserId>)
      requires friendMembers <= users
      ensures Valid()
      ensures this.cfg == cfg && this.users == users && this.friendMembers == friendMembers
      ensures events == map[] && members == map[] && invites == map[] && friends == map[]
    {
      this.cfg := cfg;
      this.users := users;
      this.friendMembers := friendMembers;
      events := map[];
      members := map[];
      invites := map[];
      friends := map[];
      nextEvent := 0;
      nextInvite := 0;
    }

    /** Number of member rows of an event, whatever their status. */
    function MemberCount(e: EventId): nat
      reads this
    {
      |set k | k in members && k.0 == e|
    }

    /** Creating an event: the payload is validated, then the event is saved
        with its defaults and the owner becomes its first, accepted, member. */
    method CreateEvent(owner: UserId, start: Time, end: Option<Time>, joinPolicy: Option<JoinPolicy>,
                       maxMembers: Option<int>, hashTags: set<TagId>, now: Time) returns (r: Outcome<EventId>)
      requires Valid() && owner in users
      modifies this
      ensures Valid()
      ensures Validation.ValidateEvent(start, end, maxMembers, now, cfg) != [] ==>
        r == Err(Rejected(Validation.ValidateEvent(start, end, maxMembers, now, cfg))) && unchanged(this)
      ensures Validation.ValidateEvent(start, end, maxMembers, now, cfg) == [] ==>
        && r == Ok(old(nextEvent))
        && old(nextEvent) !in old(events)
        && events == old(events)[old(nextEvent) := NewEvent(old(nextEvent), owner, start, end, joinPolicy, maxMembers, hashTags, now, cfg)]
        && members == old(members)[(old(nextEvent), owner) := NewMember(Some(Accepted), now)]
        && invites == old(invites) && friends == old(friends) && users == old(users)
        && friendMembers == old(friendMembers) && nextInvite == old(nextInvite)
    {
      var errs := Validation.ValidateEvent(start, end, maxMembers, now, cfg);
      if errs != [] {
        return Err(Rejected(errs));
      }
      var id := nextEvent;
      events := events[id := NewEvent(id, owner, start, end, joinPolicy, maxMembers, hashTags, now, cfg)];
      members := members[(id, owner) := NewMember(Some(Accepted), now)];
      nextEvent := nextEvent + 1;
      r := Ok(id);
    }

    /** EventViewSet.join. */
    method Join(user: UserId, e: EventId, now: Time) returns (r: Outcome<EventMember>)
      requires Valid() && user in users
      modifies this
      ensures Valid()
      ensures events == old(events) && invites == old(invites) && friends == old(friends)
      ensures users == old(users) && friendMembers == old(friendMembers)
      ensures nextEvent == old(nextEvent) && nextInvite == old(nextInvite)
      ensures e !in events ==> r == Err(NotFound) && members == old(members)
      ensures e in events && (e, user) in old(members) ==> r == Err(AlreadyMember) && members == old(members)
      ensures e in events && (e, user) !in old(members) ==>
        match events[e].joinPolicy
        case Open =>
          r == Ok(NewMember(Some(Accepted), now)) && members == old(members)[(e, user) := r.value]
        case FriendsOnly =>
          if HasCloseEdge(friends, events[e].owner, user) then
            r == Ok(NewMember(Some(Accepted), now)) && members == old(members)[(e, user) := r.value]
          else
            r == Err(NotFriendOfOwner) && members == old(members)
        case _ =>
          r == Ok(NewMember(None, now)) && r.value.status == Requested && members == old(members)[(e, user) := r.value]
    {
      if e !in events {
        return Err(NotFound);
      }
      if (e, user) in members {
        return Err(AlreadyMember);
      }
      var ev := events[e];
      var m: EventMember;
      if ev.joinPolicy == Open {
        m := NewMember(Some(Accepted), now);
      } else if ev.joinPolicy == FriendsOnly {
        if !HasCloseEdge(friends, ev.owner, user) {
          return Err(NotFriendOfOwner);
        }
        m := NewMember(Some(Accepted), now);
      } else {
        m := NewMember(None, now);
      }
      members := members[(e, user) := m];
      r := Ok(m);
    }

    /** EventViewSet.leave: removes exactly the caller's row. */
    method Leave(user: UserId, e: EventId) returns (r: Outcome<string>)
      requires Valid()
      modifies this
      ensures Valid()
      ensures events == old(events) && invites == old(invites) && friends == old(friends)
      ensures users == old(users) && friendMembers == old(friendMembers)
      ensures nextEvent == old(nextEvent) && nextInvite == old(nextInvite)
      ensures e !in events ==> r == Err(NotFound) && members == old(members)
      ensures e in events && (e, user) !in old(members) ==> r == Err(NotMember) && members == old(members)
      ensures e in events && (e, user) in old(members) ==>
        r == Ok("Left event") && members == old(members) - {(e, user)}
    {
      if e !in events {
        return Err(NotFound);
      }
      if (e, user) !in members {
        return Err(NotMember);
      }
      members := members - {(e, user)};
      r := Ok("Left event");
    }

    /** EventViewSet.invite: for each id in turn, a known user without a row
        gets an INVITED row and an invite from the caller; the answer is the
        number of rows created. */
    method Invite(inviter: UserId, e: EventId, ids: seq<UserId>, now: Time) returns (r: Outcome<nat>)
      requires Valid()
      modifies this
      ensures Valid()
      ensures events == old(events) && friends == old(friends)
      ensures users == old(users) && friendMembers == old(friendMembers) && nextEvent == old(nextEvent)
      ensures e !in events ==> r == Err(NotFound) && unchanged(this)
      ensures e in events && !IsEventMember(inviter, e, old(members)) ==> r == Err(Forbidden) && unchanged(this)
      ensures e in events && IsEventMember(inviter, e, old(members)) && !MayInvite(events[e], inviter) ==>
        r == Err(NoPermissionToInvite) && unchanged(this)
      ensures e in events && IsEventMember(inviter, e, old(members)) && MayInvite(events[e], inviter) ==>
        var st := InviteAll(InviteState(old(members), old(invites), old(nextInvite), 0), e, inviter, users, ids, now);
        && r == Ok(st.count)
        && members == st.members && invites == st.invites && nextInvite == st.nextInvite
    {
      if e !in events {
        return Err(NotFound);
      }
      if !IsEventMember(inviter, e, members) {
        return Err(Forbidden);
      }
      if !MayInvite(events[e], inviter) {
        return Err(NoPermissionToInvite);
      }
      ghost var init := InviteState(members, invites, nextInvite, 0);
      var count := 0;
      var i := 0;
      while i < |ids|
        invariant 0 <= i <= |ids|
        invariant InviteState(members, invites, nextInvite, count) == InviteAll(init, e, inviter, users, ids[..i], now)
        invariant events == old(events) && friends == old(friends) && users == old(users)
        invariant friendMembers == old(friendMembers) && nextEvent == old(nextEvent)
        invariant Valid()
        invariant e in events
      {
        var u := ids[i];
        if u in users && (e, u) !in members {
          AddInvited(e, inviter, u, now);
          count := count + 1;
        }
        assert ids[..i + 1][..i] == ids[..i];
        i := i + 1;
      }
      assert ids[..|ids|] == ids;
      r := Ok(count);
    }

    /** One created invitation: an INVITED row for `u`, pointing at a new
        invite from the inviter. */
    method AddInvited(e: EventId, inviter: UserId, u: UserId, now: Time)
      requires Valid() && e in events && u in users && (e, u) !in members
      modifies this
      ensures Valid()
      ensures members == old(members)[(e, u) := EventMember(Invited, now, None, Some(old(nextInvite)))]
      ensures invites == old(invites)[old(nextInvite) := EventInvite(e, inviter, u, now, None, false)]
      ensures nextInvite == old(nextInvite) + 1
      ensures events == old(events) && friends == old(friends) && users == old(users)
      ensures friendMembers == old(friendMembers) && nextEvent == old(nextEvent)
    {
      members := members[(e, u) := EventMember(Invited, now, None, Some(nextInvite))];
      invites := invites[nextInvite := EventInvite(e, inviter, u, now, None, false)];
      nextInvite := nextInvite + 1;
    }

    /** EventViewSet.checkin: the caller's row must exist; the check-in time is
        recorded only when Event.can_checkin gives no reason against it. */
    method Checkin(user: UserId, e: EventId, now: Time, distance: real) returns (r: Outcome<Time>)
      requires Valid()
      modifies this
      ensures Valid()
      ensures events == old(events) && invites == old(invites) && friends == old(friends)
      ensures users == old(users) && friendMembers == old(friendMembers)
      ensures nextEvent == old(nextEvent) && nextInvite == old(nextInvite)
      ensures e !in events ==> r == Err(NotFound) && members == old(members)
      ensures e in events && (e, user) !in old(members) ==> r == Err(NoMemberRow) && members == old(members)
      ensures e in events && (e, user) in old(members) ==>
        var reason := CanCheckin(events[e], old(members)[(e, user)], now, distance, cfg);
        && (reason.Some? ==> r == Err(CheckinRefused(reason.value)) && members == old(members))
        && (reason.None? ==>
              r == Ok(now) && members == old(members)[(e, user) := old(members)[(e, user)].(checkedIn := Some(now))])
    {
      if e !in events {
        return Err(NotFound);
      }
      if (e, user) !in members {
        return Err(NoMemberRow);
      }
      var m := members[(e, user)];
      var reason := CanCheckin(events[e], m, now, distance, cfg);
      if reason.Some? {
        return Err(CheckinRefused(reason.value));
      }
      members := members[(e, user) := m.(checkedIn := Some(now))];
      r := Ok(now);
    }

    /** EventViewSet.cancel, by the owner, until the check-in window closes.
        With fewer than two member rows the event is deleted, and with it its
        member rows, invites and the friend edges made at it. Otherwise the
        view assigns an attribute that is not a stored field and saves, so
        the only stored change is the refreshed `updated` time. */
    method Cancel(user: UserId, e: EventId, now: Time) returns (r: Outcome<CancelResult>)
      requires Valid()
      modifies this
      ensures Valid()
      ensures users == old(users) && friendMembers == old(friendMembers)
      ensures nextEvent == old(nextEvent) && nextInvite == old(nextInvite)
      ensures e !in old(events) ==> r == Err(NotFound) && unchanged(this)
      ensures e in old(events) && !IsOwnerOrReadOnly(Put, user, old(events)[e].owner) ==> r == Err(Forbidden) && unchanged(this)
      ensures e in old(events) && IsOwnerOrReadOnly(Put, user, old(events)[e].owner) && now > CheckinEnd(old(events)[e], cfg) ==>
        r == Err(TooLateToCancel) && unchanged(this)
      ensures e in old(events) && IsOwnerOrReadOnly(Put, user, old(events)[e].owner) && now <= CheckinEnd(old(events)[e], cfg) ==>
        if old(MemberCount(e)) < 2 then
          && r == Ok(EventDeleted)
          && events == old(events) - {e}
          && members == MembersWithout(old(members), e)
          && invites == InvitesWithout(old(invites), e)
          && friends == FriendsWithout(old(friends), e)
        else
          && r == Ok(EventCanceled)
          && events == old(events)[e := old(events)[e].(updated := now)]
          && events[e].canceled == old(events)[e].canceled
          && members == old(members) && invites == old(invites) && friends == old(friends)
    {
      if e !in events {
        return Err(NotFound);
      }
      var ev := events[e];
      if !IsOwnerOrReadOnly(Put, user, ev.owner) {
        return Err(Forbidden);
      }
      if now > CheckinEnd(ev, cfg) {
        return Err(TooLateToCancel);
      }
      if MemberCount(e) < 2 {
        events := events - {e};
        members := MembersWithout(members, e);
        invites := InvitesWithout(invites, e);
        friends := FriendsWithout(friends, e);
        r := Ok(EventDeleted);
      } else {
        events := events[e := ev.(updated := now)];
        r := Ok(EventCanceled);
      }
    }

    /** EventMemberViewSet.accept_invite, by the invited user. The row must
        carry an invite; the owner's own row is refused and nothing is saved;
        otherwise the row becomes ACCEPTED or DECLINED and the invite records
        the answer and when it came. */
    method AcceptInvite(user: UserId, k: MemberKey, accept: bool, now: Time) returns (r: Outcome<string>)
      requires Valid()
      modifies this
      ensures Valid()
      ensures events == old(events) && friends == old(friends)
      ensures users == old(users) && friendMembers == old(friendMembers)
      ensures nextEvent == old(nextEvent) && nextInvite == old(nextInvite)
      ensures k !in old(members) ==> r == Err(NotFound) && unchanged(this)
      ensures k in old(members) && !IsUser(user, k.1) ==> r == Err(Forbidden) && unchanged(this)
      ensures k in old(members) && IsUser(user, k.1) && old(members)[k].invite.None? ==> r == Err(NoInvite) && unchanged(this)
      ensures k in old(members) && IsUser(user, k.1) && old(members)[k].invite.Some? && events[k.0].owner == Some(k.1) ==>
        r == Err(MemberIsOwner) && unchanged(this)
      ensures k in old(members) && IsUser(user, k.1) && old(members)[k].invite.Some? && events[k.0].owner != Some(k.1) ==>
        var i := old(members)[k].invite.value;
        && members == old(members)[k := old(members)[k].(status := if accept then Accepted else Declined)]
        && invites == old(invites)[i := old(invites)[i].(responded := Some(now), accepted := accept)]
        && r == Ok(if accept then "Member accepted invitation" else "Member declined invitation")
    {
      if k !in members {
        return Err(NotFound);
      }
      if !IsUser(user, k.1) {
        return Err(Forbidden);
      }
      var m := members[k];
      if m.invite.None? {
        return Err(NoInvite);
      }
      var i := m.invite.value;
      var invite := invites[i].(responded := Some(now));
      if events[k.0].owner == Some(k.1) {
        return Err(MemberIsOwner);
      }
      if accept {
        members := members[k := m.(status := Accepted)];
        invites := invites[i := invite.(accepted := true)];
        r := Ok("Member accepted invitation");
      } else {
        members := members[k := m.(status := Declined)];
        invites := invites[i := invite.(accepted := false)];
        r := Ok("Member declined invitation");
      }
    }

    /** EventMemberViewSet.approve, by the event's owner: the owner's own row
        is refused; otherwise the row becomes ACCEPTED, or is deleted when the
        request is declined. The row's current status is not examined. */
    method Approve(user: UserId, k: MemberKey, accept: bool) returns (r: Outcome<string>)
      requires Valid()
      modifies this
      ensures Valid()
      ensures events == old(events) && invites == old(invites) && friends == old(friends)
      ensures users == old(users) && friendMembers == old(friendMembers)
      ensures nextEvent == old(nextEvent) && nextInvite == old(nextInvite)
      ensures k !in old(members) ==> r == Err(NotFound) && members == old(members)
      ensures k in old(members) && !IsEventOwner(user, events[k.0].owner) ==> r == Err(Forbidden) && members == old(members)
      ensures k in old(members) && IsEventOwner(user, events[k.0].owner) && events[k.0].owner == Some(k.1) ==>
        r == Err(MemberIsOwner) && members == old(members)
      ensures k in old(members) && IsEventOwner(user, events[k.0].owner) && events[k.0].owner != Some(k.1) ==>
        if accept then
          r == Ok("Member accepted") && members == old(members)[k := old(members)[k].(status := Accepted)]
        else
          r == Ok("Member declined") && members == old(members) - {k}
    {
      if k !in members {
        return Err(NotFound);
      }
      var owner := events[k.0].owner;
      if !IsEventOwner(user, owner) {
        return Err(Forbidden);
      }
      if owner == Some(k.1) {
        return Err(MemberIsOwner);
      }
      if accept {
        members := members[k := members[k].(status := Accepted)];
        r := Ok("Member accepted");
      } else {
        members := members - {k};
        r := Ok("Member declined");
      }
    }

    /** FriendViewSet.close. The payload is validated first: a JSON body must
        carry `close`, while a form body may leave it out. Then the edge is
        looked up among the caller's own edges only, so anyone else's edge is
        not found. The edge becomes close exactly when the submitted text
        reads "true" in any letter case; a form body without the flag makes
        the view call `lower()` on False, which raises. */
    method SetClose(user: UserId, k: FriendKey, close: Option<string>, formBody: bool) returns (r: Outcome<Friend>)
      requires Valid()
      modifies this
      ensures Valid()
      ensures events == old(events) && members == old(members) && invites == old(invites)
      ensures users == old(users) && friendMembers == old(friendMembers)
      ensures nextEvent == old(nextEvent) && nextInvite == old(nextInvite)
      ensures r.Err? <==> friends == old(friends) && (close.None? || k !in old(friends) || k.0 != user)
      ensures close.None? && !formBody ==>
        r == Err(Rejected([Validation.FieldError("close", "This field is required.")]))
      ensures (close.Some? || formBody) && (k !in old(friends) || k.0 != user) ==> r == Err(NotFound)
      ensures close.None? && formBody && k in old(friends) && k.0 == user ==> r == Err(MissingCloseFlag)
      ensures close.Some? && k in old(friends) && k.0 == user ==>
        && r == Ok(old(friends)[k].(close := Text.Lower(close.value) == "true"))
        && friends == old(friends)[k := r.value]
    {
      if close.None? && !formBody {
        return Err(Rejected([Validation.FieldError("close", "This field is required.")]));
      }
      if k !in friends || k.0 != user {
        return Err(NotFound);
      }
      if close.None? {
        return Err(MissingCloseFlag);
      }
      var f := friends[k].(close := Text.Lower(close.value) == "true");
      friends := friends[k := f];
      r := Ok(f);
    }
  }
}
