/** The periodic jobs over the event store: befriending the people who met
    at events that have ended, and the start-of-event reminder. */
module Tasks {
  import opened Common
  import opened Models
  import opened Membership

  // --------------------------------------------------------- update_friends

  /** An event is over: it has no end and started more than CHECKIN_PERIOD
      ago, or its end has passed. */
  predicate Ended(e: Event, now: Time, cfg: Config) {
    (e.end.None? && e.start < now - cfg.checkinPeriod) || (e.end.Some? && e.end.value < now)
  }

  /** The events update_friends selects: over, and not yet processed. */
  function FriendSelection(events: map<EventId, Event>, now: Time, cfg: Config): set<EventId> {
    set id | id in events && Ended(events[id], now, cfg) && !events[id].addedFriends
  }

  /** `order` lists the ids of `s`, each exactly once. */
  predicate Enumerates(order: seq<EventId>, s: set<EventId>) {
    && (forall i :: 0 <= i < |order| ==> order[i] in s)
    && (forall id :: id in s ==> id in order)
    && (forall i, j :: 0 <= i < j < |order| ==> order[i] != order[j])
  }

  /** At event `e`, `a` checked in and wants to befriend the people met there,
      and `b` is another member of the event (whatever the status of b's row). */
  predicate Met(members: map<MemberKey, EventMember>, friendMembers: set<UserId>, e: EventId, a: UserId, b: UserId) {
    && (e, a) in members && members[(e, a)].checkedIn.Some? && a in friendMembers
    && (e, b) in members && a != b
  }

  /** The edges the job wants to exist after processing `e`. */
  function MetPairs(members: map<MemberKey, EventMember>, friendMembers: set<UserId>, e: EventId): (r: set<FriendKey>)
    ensures forall a: UserId, b: UserId :: (a, b) in r <==> Met(members, friendMembers, e, a, b)
  {
    var r := set k1, k2 | k1 in members && k2 in members && k1.0 == e && k2.0 == e
                         && Met(members, friendMembers, e, k1.1, k2.1) :: (k1.1, k2.1);
    assert forall a: UserId, b: UserId :: Met(members, friendMembers, e, a, b) ==> (e, a) in members && (e, b) in members && (a, b) in r;
    r
  }

  /** Processing one event with the lookup on (owner, user) alone: an edge that
      is missing is created as an acquaintance last met at `e`; an existing
      edge is left exactly as it is. */
  function BefriendAt(friends: map<FriendKey, Friend>, members: map<MemberKey, EventMember>,
                      friendMembers: set<UserId>, e: EventId): (r: map<FriendKey, Friend>)
    ensures forall k :: k in friends ==> k in r && r[k] == friends[k]
    ensures forall k :: k in r && k !in friends ==>
              Met(members, friendMembers, e, k.0, k.1) && r[k] == Friend(false, false, Some(e))
    ensures forall a: UserId, b: UserId :: Met(members, friendMembers, e, a, b) ==> (a, b) in r
  {
    var pairs := MetPairs(members, friendMembers, e);
    map k | k in friends.Keys + pairs :: if k in friends then friends[k] else Friend(false, false, Some(e))
  }

  /** Processing the same event twice changes nothing more. */
  lemma BefriendAtIdempotent(friends: map<FriendKey, Friend>, members: map<MemberKey, EventMember>,
                             friendMembers: set<UserId>, e: EventId)
    ensures var once := BefriendAt(friends, members, friendMembers, e);
      BefriendAt(once, members, friendMembers, e) == once
  {
    var once := BefriendAt(friends, members, friendMembers, e);
    var twice := BefriendAt(once, members, friendMembers, e);
    forall k | k in twice ensures k in once {
      var a, b := k.0, k.1;
      assert k == (a, b);
    }
    assert twice.Keys == once.Keys;
    MapExtensional(twice, once);
  }

  lemma MapExtensional<K, V>(m1: map<K, V>, m2: map<K, V>)
    requires m1.Keys == m2.Keys
    requires forall k :: k in m2 ==> m1[k] == m2[k]
    ensures m1 == m2
  {
  }

  /** The job's effect on the friend edges: the events in order. */
  function BefriendAll(friends: map<FriendKey, Friend>, members: map<MemberKey, EventMember>,
                       friendMembers: set<UserId>, order: seq<EventId>): map<FriendKey, Friend>
    decreases |order|
  {
    if order == [] then friends
    else BefriendAt(BefriendAll(friends, members, friendMembers, order[..|order| - 1]), members, friendMembers, order[|order| - 1])
  }

  /** `order[i]` is the first event in the order at which `a` met `b`. */
  predicate FirstMeeting(members: map<MemberKey, EventMember>, friendMembers: set<UserId>, order: seq<EventId>,
                         i: int, a: UserId, b: UserId) {
    && 0 <= i < |order| && Met(members, friendMembers, order[i], a, b)
    && (forall j :: 0 <= j < i ==> !Met(members, friendMembers, order[j], a, b))
  }

  lemma FirstMeetingExtend(members: map<MemberKey, EventMember>, friendMembers: set<UserId>, order: seq<EventId>,
                           i: int, a: UserId, b: UserId)
    requires |order| > 0 && FirstMeeting(members, friendMembers, order[..|order| - 1], i, a, b)
    ensures FirstMeeting(members, friendMembers, order, i, a, b)
  {
    var pre := order[..|order| - 1];
    assert order[i] == pre[i];
    forall j | 0 <= j < i ensures !Met(members, friendMembers, order[j], a, b) {
      assert order[j] == pre[j];
    }
  }

  /** A run leaves the existing edges untouched. */
  lemma {:induction false} BefriendAllKeeps(friends: map<FriendKey, Friend>, members: map<MemberKey, EventMember>,
                                            friendMembers: set<UserId>, order: seq<EventId>)
    ensures var r := BefriendAll(friends, members, friendMembers, order);
      forall k :: k in friends ==> k in r && r[k] == friends[k]
    decreases |order|
  {
    if order != [] {
      BefriendAllKeeps(friends, members, friendMembers, order[..|order| - 1]);
    }
  }

  /** Every pair that met at a processed event has an edge after the run. */
  lemma {:induction false} BefriendAllComplete(friends: map<FriendKey, Friend>, members: map<MemberKey, EventMember>,
                                               friendMembers: set<UserId>, order: seq<EventId>)
    ensures var r := BefriendAll(friends, members, friendMembers, order);
      forall i, a: UserId, b: UserId :: 0 <= i < |order| && Met(members, friendMembers, order[i], a, b) ==> (a, b) in r
    decreases |order|
  {
    if order != [] {
      var pre := order[..|order| - 1];
      BefriendAllComplete(friends, members, friendMembers, pre);
      var mid := BefriendAll(friends, members, friendMembers, pre);
      var r := BefriendAll(friends, members, friendMembers, order);
      forall i, a: UserId, b: UserId | 0 <= i < |order| && Met(members, friendMembers, order[i], a, b) ensures (a, b) in r {
        if i < |order| - 1 {
          assert order[i] == pre[i];
          assert (a, b) in mid;
        }
      }
    }
  }

  /** A new edge records as its last meeting the first event in the order
      (the most recent start) at which the two met; no edge is created
      without such an event. */
  lemma {:induction false} BefriendAllLastMet(friends: map<FriendKey, Friend>, members: map<MemberKey, EventMember>,
                                              friendMembers: set<UserId>, order: seq<EventId>)
    ensures var r := BefriendAll(friends, members, friendMembers, order);
      forall k :: k in r && k !in friends ==>
        exists i :: FirstMeeting(members, friendMembers, order, i, k.0, k.1) && r[k] == Friend(false, false, Some(order[i]))
    decreases |order|
  {
    if order != [] {
      var pre := order[..|order| - 1];
      var last := |order| - 1;
      var mid := BefriendAll(friends, members, friendMembers, pre);
      BefriendAllLastMet(friends, members, friendMembers, pre);
      var r := BefriendAll(friends, members, friendMembers, order);
      assert r == BefriendAt(mid, members, friendMembers, order[last]);
      forall k | k in r && k !in friends
        ensures exists i :: FirstMeeting(members, friendMembers, order, i, k.0, k.1) && r[k] == Friend(false, false, Some(order[i]))
      {
        if k in mid {
          var i :| FirstMeeting(members, friendMembers, pre, i, k.0, k.1) && mid[k] == Friend(false, false, Some(pre[i]));
          FirstMeetingExtend(members, friendMembers, order, i, k.0, k.1);
        } else {
          BefriendAllComplete(friends, members, friendMembers, pre);
          forall j | 0 <= j < last ensures !Met(members, friendMembers, order[j], k.0, k.1) {
            assert order[j] == pre[j];
          }
          assert FirstMeeting(members, friendMembers, order, last, k.0, k.1);
        }
      }
    }
  }

  /** The events after a run: each processed event is flagged and saved. */
  function MarkProcessed(events: map<EventId, Event>, order: seq<EventId>, now: Time): (r: map<EventId, Event>)
    ensures r.Keys == events.Keys
  {
    map id | id in events :: if id in order then events[id].(addedFriends := true, updated := now) else events[id]
  }

  lemma MarkProcessedStep(events: map<EventId, Event>, order: seq<EventId>, i: nat, now: Time)
    requires i < |order| && order[i] in events
    requires forall j :: 0 <= j < i ==> order[j] != order[i]
    ensures var before := MarkProcessed(events, order[..i], now);
      MarkProcessed(events, order[..i + 1], now) == before[order[i] := before[order[i]].(addedFriends := true, updated := now)]
  {
    assert order[..i + 1] == order[..i] + [order[i]];
    assert order[i] !in order[..i];
  }

  /** Flagging one event and saving it keeps the store's integrity. */
  method MarkEvent(store: EventStore, e: EventId, addedFriends: bool, notifiedStart: bool, now: Time)
    requires store.Valid() && e in store.events
    modifies store
    ensures store.Valid()
    ensures store.events == old(store.events)[e := old(store.events)[e].(
              addedFriends := old(store.events)[e].addedFriends || addedFriends,
              notifiedStart := old(store.events)[e].notifiedStart || notifiedStart,
              updated := now)]
    ensures store.friends == old(store.friends) && store.members == old(store.members)
    ensures store.invites == old(store.invites) && store.users == old(store.users)
    ensures store.friendMembers == old(store.friendMembers)
    ensures store.nextEvent == old(store.nextEvent) && store.nextInvite == old(store.nextInvite)
  {
    var ev := store.events[e];
    store.events := store.events[e := ev.(addedFriends := ev.addedFriends || addedFriends,
                                          notifiedStart := ev.notifiedStart || notifiedStart,
                                          updated := now)];
  }

  /** Befriending at one event keeps the store's integrity. */
  method BefriendEvent(store: EventStore, e: EventId)
    requires store.Valid() && e in store.events
    modifies store
    ensures store.Valid()
    ensures store.friends == BefriendAt(old(store.friends), store.members, store.friendMembers, e)
    ensures store.events == old(store.events) && store.members == old(store.members)
    ensures store.invites == old(store.invites) && store.users == old(store.users)
    ensures store.friendMembers == old(store.friendMembers)
    ensures store.nextEvent == old(store.nextEvent) && store.nextInvite == old(store.nextInvite)
  {
    store.friends := BefriendAt(store.friends, store.members, store.friendMembers, e);
  }

  /** update_friends, with the lookup corrected: the selected events are
      processed in the given order (latest start first), each member who
      checked in befriends every other member, and the event is flagged so
      that no later run selects it again. */
  method UpdateFriends(store: EventStore, now: Time, order: seq<EventId>)
    requires store.Valid()
    requires Enumerates(order, FriendSelection(store.events, now, store.cfg))
    requires forall i, j :: 0 <= i < j < |order| ==> store.events[order[i]].start >= store.events[order[j]].start
    modifies store
    ensures store.Valid()
    ensures store.members == old(store.members) && store.invites == old(store.invites)
    ensures store.users == old(store.users) && store.friendMembers == old(store.friendMembers)
    ensures store.nextEvent == old(store.nextEvent) && store.nextInvite == old(store.nextInvite)
    ensures store.friends == BefriendAll(old(store.friends), store.members, store.friendMembers, order)
    ensures store.events == MarkProcessed(old(store.events), order, now)
    ensures FriendSelection(store.events, now, store.cfg) == {}
  {
    var i := 0;
    while i < |order|
      invariant 0 <= i <= |order|
      invariant store.Valid()
      invariant store.members == old(store.members) && store.invites == old(store.invites)
      invariant store.users == old(store.users) && store.friendMembers == old(store.friendMembers)
      invariant store.nextEvent == old(store.nextEvent) && store.nextInvite == old(store.nextInvite)
      invariant store.friends == BefriendAll(old(store.friends), store.members, store.friendMembers, order[..i])
      invariant store.events == MarkProcessed(old(store.events), order[..i], now)
    {
      var e := order[i];
      BefriendEvent(store, e);
      assert order[..i + 1][..i] == order[..i];
      MarkProcessedStep(old(store.events), order, i, now);
      MarkEvent(store, e, true, false, now);
      i := i + 1;
    }
    assert order[..|order|] == order;
    ProcessedLeavesNothing(old(store.events), order, now, store.cfg);
  }

  /** Once the selected events are flagged, none is selected again. */
  lemma ProcessedLeavesNothing(events: map<EventId, Event>, order: seq<EventId>, now: Time, cfg: Config)
    requires Enumerates(order, FriendSelection(events, now, cfg))
    ensures FriendSelection(MarkProcessed(events, order, now), now, cfg) == {}
  {
    var after := MarkProcessed(events, order, now);
    forall id | id in after ensures !(Ended(after[id], now, cfg) && !after[id].addedFriends) {
      if id !in order {
        assert id !in FriendSelection(events, now, cfg);
      }
    }
  }

  // ------------------------------------------ update_friends as written

  /** What a run of the job as written does with one selected event: the
      inner loop reads `.user` on a user object, which raises, so as soon as
      some member would befriend someone the whole run stops with an error;
      otherwise nothing is created and the event is flagged. */
  datatype StepAsWritten = Flagged | Raised

  /** Some pair met at `e`. */
  predicate AnyMet(members: map<MemberKey, EventMember>, friendMembers: set<UserId>, e: EventId) {
    MetPairs(members, friendMembers, e) != {}
  }

  function BefriendAtAsWritten(members: map<MemberKey, EventMember>, friendMembers: set<UserId>, e: EventId): (r: StepAsWritten)
    ensures r == Raised <==> AnyMet(members, friendMembers, e)
  {
    if AnyMet(members, friendMembers, e) then Raised else Flagged
  }

  /** As written, a run over the selected events: the events before the
      first that raises are flagged, that one and all after it are not, and
      no friend edge is ever created. Returns how many events were flagged. */
  function UpdateFriendsAsWritten(members: map<MemberKey, EventMember>, friendMembers: set<UserId>, order: seq<EventId>): (n: nat)
    ensures n <= |order|
    ensures forall i :: 0 <= i < n ==> !AnyMet(members, friendMembers, order[i])
    ensures n < |order| ==> AnyMet(members, friendMembers, order[n])
  {
    FlaggedBeforeRaise(members, friendMembers, order, 0)
  }

  /** The run as written from position `i` on: the position it stops at. */
  function FlaggedBeforeRaise(members: map<MemberKey, EventMember>, friendMembers: set<UserId>, order: seq<EventId>, i: nat): (n: nat)
    requires i <= |order|
    ensures i <= n <= |order|
    ensures forall j :: i <= j < n ==> !AnyMet(members, friendMembers, order[j])
    ensures n < |order| ==> AnyMet(members, friendMembers, order[n])
    decreases |order| - i
  {
    if i == |order| then i
    else if BefriendAtAsWritten(members, friendMembers, order[i]) == Raised then i
    else FlaggedBeforeRaise(members, friendMembers, order, i + 1)
  }

  /** The discrepancy: two members met at an event where one of them checked
      in; as written the run raises on it and never flags it, while the
      corrected job creates the edge and flags the event. */
  lemma UpdateFriendsAsWrittenStopsAtMeeting()
    ensures var members := map[(7, 1) := EventMember(Accepted, 0, Some(0), None),
                               (7, 2) := EventMember(Accepted, 0, None, None)];
      && UpdateFriendsAsWritten(members, {1}, [7]) == 0
      && (1, 2) in BefriendAll(map[], members, {1}, [7])
  {
    var members := map[(7, 1) := EventMember(Accepted, 0, Some(0), None),
                       (7, 2) := EventMember(Accepted, 0, None, None)];
    assert Met(members, {1}, 7, 1, 2);
    assert (1, 2) in MetPairs(members, {1}, 7);
    assert [7][..0] == [];
  }

  /** The lookup as written also matches on last_met: an existing edge last
      met at another event is not found, and creating a second edge for the
      same pair violates the (owner, user) uniqueness constraint. */
  datatype LookupAsWritten = Found | Created(edge: Friend) | IntegrityError

  function GetOrCreateAsWritten(friends: map<FriendKey, Friend>, a: UserId, b: UserId, e: EventId): (r: LookupAsWritten)
    ensures r == IntegrityError <==> (a, b) in friends && friends[(a, b)].lastMet != Some(e)
    ensures r.Created? <==> (a, b) !in friends
  {
    if (a, b) !in friends then Created(Friend(false, false, Some(e)))
    else if friends[(a, b)].lastMet == Some(e) then Found
    else IntegrityError
  }

  /** The discrepancy: two users who meet again at a second event. The
      lookup as written fails; the corrected one keeps the existing edge. */
  lemma GetOrCreateAsWrittenFailsOnSecondMeeting()
    ensures var friends := map[(1, 2) := Friend(false, false, Some(5))];
      && GetOrCreateAsWritten(friends, 1, 2, 6) == IntegrityError
      && var members := map[(6, 1) := EventMember(Accepted, 0, Some(0), None), (6, 2) := EventMember(Accepted, 0, None, None)];
         BefriendAt(friends, members, {1}, 6)[(1, 2)] == Friend(false, false, Some(5))
  {
  }

  // ------------------------------------------------------ notify_event_start

  /** The events notify_event_start selects: not yet notified, starting
      within the next 30 minutes (or already started). */
  function NotifySelection(events: map<EventId, Event>, now: Time): set<EventId> {
    set id | id in events && !events[id].notifiedStart && events[id].start < now + 30 * MINUTE
  }

  /** A reminder sent to every member of an event (the push itself is not
      modelled, only what was sent to whom). */
  datatype Reminder = Reminder(event: EventId, recipients: set<UserId>)

  /** All users with a row for `e`, whatever its status. */
  function MemberUsers(members: map<MemberKey, EventMember>, e: EventId): set<UserId> {
    set k | k in members && k.0 == e :: k.1
  }

  /** The events after a reminder run: each reminded event is flagged and saved. */
  function MarkNotified(events: map<EventId, Event>, order: seq<EventId>, now: Time): (r: map<EventId, Event>)
    ensures r.Keys == events.Keys
  {
    map id | id in events :: if id in order then events[id].(notifiedStart := true, updated := now) else events[id]
  }

  lemma MarkNotifiedStep(events: map<EventId, Event>, order: seq<EventId>, i: nat, now: Time)
    requires i < |order| && order[i] in events
    requires forall j :: 0 <= j < i ==> order[j] != order[i]
    ensures var before := MarkNotified(events, order[..i], now);
      MarkNotified(events, order[..i + 1], now) == before[order[i] := before[order[i]].(notifiedStart := true, updated := now)]
  {
    assert order[..i + 1] == order[..i] + [order[i]];
    assert order[i] !in order[..i];
  }

  /** notify_event_start: reminds the members of each selected event, earliest
      start first, and flags it so that a later run skips it. */
  method NotifyEventStart(store: EventStore, now: Time, order: seq<EventId>) returns (sent: seq<Reminder>)
    requires store.Valid()
    requires Enumerates(order, NotifySelection(store.events, now))
    requires forall i, j :: 0 <= i < j < |order| ==> store.events[order[i]].start <= store.events[order[j]].start
    modifies store
    ensures store.Valid()
    ensures store.members == old(store.members) && store.invites == old(store.invites) && store.friends == old(store.friends)
    ensures store.users == old(store.users) && store.friendMembers == old(store.friendMembers)
    ensures store.nextEvent == old(store.nextEvent) && store.nextInvite == old(store.nextInvite)
    ensures store.events == MarkNotified(old(store.events), order, now)
    ensures |sent| == |order|
    ensures forall i :: 0 <= i < |order| ==> sent[i] == Reminder(order[i], MemberUsers(store.members, order[i]))
    ensures NotifySelection(store.events, now) == {}
  {
    sent := [];
    var i := 0;
    while i < |order|
      invariant 0 <= i <= |order|
      invariant store.Valid()
      invariant store.members == old(store.members) && store.invites == old(store.invites) && store.friends == old(store.friends)
      invariant store.users == old(store.users) && store.friendMembers == old(store.friendMembers)
      invariant store.nextEvent == old(store.nextEvent) && store.nextInvite == old(store.nextInvite)
      invariant store.events == MarkNotified(old(store.events), order[..i], now)
      invariant |sent| == i
      invariant forall j :: 0 <= j < i ==> sent[j] == Reminder(order[j], MemberUsers(store.members, order[j]))
    {
      var e := order[i];
      sent := sent + [Reminder(e, MemberUsers(store.members, e))];
      MarkNotifiedStep(old(store.events), order, i, now);
      MarkEvent(store, e, false, true, now);
      i := i + 1;
    }
    assert order[..|order|] == order;
    NotifiedLeavesNothing(old(store.events), order, now);
  }

  /** Once the selected events are flagged, none is selected again. */
  lemma NotifiedLeavesNothing(events: map<EventId, Event>, order: seq<EventId>, now: Time)
    requires Enumerates(order, NotifySelection(events, now))
    ensures NotifySelection(MarkNotified(events, order, now), now) == {}
  {
    var after := MarkNotified(events, order, now);
    forall id | id in after ensures !(!after[id].notifiedStart && after[id].start < now + 30 * MINUTE) {
      if id !in order {
        assert id !in NotifySelection(events, now);
      }
    }
  }
}
