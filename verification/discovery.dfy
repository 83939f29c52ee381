/** The discovery feeds: which events and plans a user is shown, in which
    order. Each feed is a filter and an ordering over the stored rows (given
    as a sequence in table order). Whether something is within 50 miles of
    the user is decided by the geographic database and given here as the set
    of ids that are. */
module Discovery {
  import opened Common
  import opened Models
  import opened Ordering

  function StartOf(e: Event): int { e.start }

  /** Descending start: the default ordering of events. */
  function NegStartOf(e: Event): int { -e.start }

  // -------------------------------------------------------- friend circle

  /** Targets of `u`'s close friend edges. */
  function CloseFriendsOf(friends: map<FriendKey, Friend>, u: UserId): set<UserId> {
    set k | k in friends && k.0 == u && friends[k].close :: k.1
  }

  /** Close friends, and close friends of close friends. */
  function FriendCircle(friends: map<FriendKey, Friend>, me: UserId): (r: set<UserId>)
    ensures forall o :: o in r <==>
      o in CloseFriendsOf(friends, me) || exists f :: f in CloseFriendsOf(friends, me) && o in CloseFriendsOf(friends, f)
  {
    var first := CloseFriendsOf(friends, me);
    var r := first + set k | k in friends && k.0 in first && friends[k].close :: k.1;
    assert forall f, o :: f in first && o in CloseFriendsOf(friends, f) ==> (f, o) in friends && o in r;
    r
  }

  /** The circle is not filtered: it holds the user themself as soon as one
      close friend counts them as a close friend. */
  lemma FriendCircleHoldsSelf(friends: map<FriendKey, Friend>, me: UserId, f: UserId)
    requires (me, f) in friends && friends[(me, f)].close
    requires (f, me) in friends && friends[(f, me)].close
    ensures me in FriendCircle(friends, me)
  {
    assert f in CloseFriendsOf(friends, me);
    assert me in CloseFriendsOf(friends, f);
  }

  // ---------------------------------------------------------------- events

  /** Not started more than four hours ago and not ended. */
  predicate Available(e: Event, now: Time) {
    e.start > now - 4 * HOUR && !(e.end.Some? && e.end.value < now)
  }

  /** The available pool, ascending by start. */
  function AvailableEvents(table: seq<Event>, now: Time): (r: seq<Event>)
    ensures SortedBy(r, StartOf)
    ensures forall e :: e in r <==> e in table && Available(e, now)
  {
    var pool := Filter(table, (e: Event) => Available(e, now));
    SortBySorted(pool, StartOf);
    SortByMembers(pool, StartOf);
    SortBy(pool, StartOf)
  }

  /** A filter of a start-ordered list stays start-ordered. */
  function Narrow(s: seq<Event>, p: Event -> bool): (r: seq<Event>)
    requires SortedBy(s, StartOf)
    ensures SortedBy(r, StartOf)
    ensures forall e :: e in r <==> e in s && p(e)
  {
    FilterSorted(s, p, StartOf);
    Filter(s, p)
  }

  /** The caller has a pending or accepted row for the event. */
  predicate Attending(members: map<MemberKey, EventMember>, me: UserId, e: Event) {
    (e.id, me) in members && members[(e.id, me)].status in {Accepted, Requested, Invited}
  }

  predicate OwnedWithin(circle: set<UserId>, e: Event) {
    e.owner.Some? && e.owner.value in circle
  }

  /** The event shares a hash tag with the user's interests. */
  predicate Interesting(tags: set<TagId>, e: Event) {
    e.hashTags * tags != {}
  }

  datatype EventCategory = AttendingEvents | FriendsEvents | NearbyEvents | RecommendedEvents

  /** The nearby pool: available events within 50 miles, ascending by start. */
  function NearbyPool(table: seq<Event>, nearby: set<EventId>, now: Time): (r: seq<Event>)
    ensures SortedBy(r, StartOf)
    ensures forall e :: e in r <==> e in table && Available(e, now) && e.id in nearby
  {
    Narrow(AvailableEvents(table, now), (e: Event) => e.id in nearby)
  }

  /** Nearby events matching the user's interests, falling back to the whole
      available pool (not only the nearby one) when there are none. */
  function RecommendedPool(table: seq<Event>, tags: set<TagId>, nearby: set<EventId>, now: Time): (r: seq<Event>)
    ensures SortedBy(r, StartOf)
    ensures (exists e :: e in table && Available(e, now) && e.id in nearby && Interesting(tags, e)) ==>
      forall e :: e in r <==> e in table && Available(e, now) && e.id in nearby && Interesting(tags, e)
    ensures (forall e :: e in table && Available(e, now) && e.id in nearby ==> !Interesting(tags, e)) ==>
      forall e :: e in r <==> e in table && Available(e, now)
  {
    var matching := Narrow(NearbyPool(table, nearby, now), (e: Event) => Interesting(tags, e));
    if |matching| > 0 then matching else AvailableEvents(table, now)
  }

  /** EventViewSet's list for a category; without one, every event, latest
      start first. */
  function EventFeed(category: Option<EventCategory>, table: seq<Event>, members: map<MemberKey, EventMember>,
                     friends: map<FriendKey, Friend>, me: UserId, tags: set<TagId>,
                     nearby: set<EventId>, now: Time): (r: seq<Event>)
    ensures category.None? ==> multiset(r) == multiset(table) && SortedBy(r, NegStartOf)
    ensures category.Some? ==> SortedBy(r, StartOf) && forall e :: e in r ==> e in table && Available(e, now)
    ensures category == Some(AttendingEvents) ==>
      forall e :: e in r <==> e in table && Available(e, now) && Attending(members, me, e)
    ensures category == Some(FriendsEvents) ==>
      forall e :: e in r <==> e in table && Available(e, now) && OwnedWithin(FriendCircle(friends, me), e)
    ensures category == Some(NearbyEvents) ==>
      forall e :: e in r <==> e in table && Available(e, now) && e.id in nearby
    ensures category == Some(RecommendedEvents) && (exists e :: e in table && Available(e, now)) ==> r != []
  {
    match category
    case None =>
      SortBySorted(table, NegStartOf);
      SortByPermutation(table, NegStartOf);
      SortBy(table, NegStartOf)
    case Some(AttendingEvents) =>
      Narrow(AvailableEvents(table, now), (e: Event) => Attending(members, me, e))
    case Some(FriendsEvents) =>
      var circle := FriendCircle(friends, me);
      Narrow(AvailableEvents(table, now), (e: Event) => OwnedWithin(circle, e))
    case Some(NearbyEvents) =>
      NearbyPool(table, nearby, now)
    case Some(RecommendedEvents) =>
      var r := RecommendedPool(table, tags, nearby, now);
      assert (exists e :: e in table && Available(e, now)) ==> r != [] by {
        if exists e :: e in table && Available(e, now) {
          var e :| e in table && Available(e, now);
          if !(exists x :: x in table && Available(x, now) && x.id in nearby && Interesting(tags, x)) {
            assert e in r;
          }
        }
      }
      r
  }

  /** With a `user` parameter: every event the user has a row for, whatever
      its status and however long ago, latest start first. */
  function UserEvents(table: seq<Event>, members: map<MemberKey, EventMember>, user: UserId): (r: seq<Event>)
    ensures SortedBy(r, NegStartOf)
    ensures forall e :: e in r <==> e in table && (e.id, user) in members
  {
    var mine := Filter(table, (e: Event) => (e.id, user) in members);
    SortBySorted(mine, NegStartOf);
    SortByMembers(mine, NegStartOf);
    SortBy(mine, NegStartOf)
  }

  // ----------------------------------------------------------------- plans

  /** A plan row: its owner, creation time, hash tags and the users who
      commented on it. */
  datatype Plan = Plan(id: PlanId, owner: UserId, created: Time, hashTags: set<TagId>, commenters: set<UserId>)

  function NegCreatedOf(p: Plan): int { -p.created }

  datatype PlanCategory = FriendsPlans | RecommendedPlans | NewestPlans

  /** Plans within 50 miles, newest first. */
  function NearbyPlans(table: seq<Plan>, nearby: set<PlanId>): (r: seq<Plan>)
    ensures SortedBy(r, NegCreatedOf)
    ensures forall p :: p in r <==> p in table && p.id in nearby
  {
    var close := Filter(table, (p: Plan) => p.id in nearby);
    SortBySorted(close, NegCreatedOf);
    SortByMembers(close, NegCreatedOf);
    SortBy(close, NegCreatedOf)
  }

  /** PlanViewSet's list for a category. FRIENDS and RECOMMENDED run over
      every plan, wherever it is; RECOMMENDED falls back to the nearby plans;
      without a category, every plan. */
  function PlanFeed(category: Option<PlanCategory>, table: seq<Plan>, friends: map<FriendKey, Friend>,
                    me: UserId, tags: set<TagId>, nearby: set<PlanId>): (r: seq<Plan>)
    ensures category.None? ==> r == table
    ensures forall p :: p in r ==> p in table
    ensures category == Some(FriendsPlans) ==>
      forall p :: p in r <==> p in table && p.owner in FriendCircle(friends, me)
    ensures category == Some(RecommendedPlans) && (exists p :: p in table && p.hashTags * tags != {}) ==>
      forall p :: p in r <==> p in table && p.hashTags * tags != {}
    ensures category == Some(RecommendedPlans) && (forall p :: p in table ==> p.hashTags * tags == {}) ==>
      r == NearbyPlans(table, nearby)
    ensures category == Some(NewestPlans) ==> r == NearbyPlans(table, nearby)
  {
    match category
    case None => table
    case Some(FriendsPlans) =>
      var circle := FriendCircle(friends, me);
      Filter(table, (p: Plan) => p.owner in circle)
    case Some(RecommendedPlans) =>
      var matching := Filter(table, (p: Plan) => p.hashTags * tags != {});
      if |matching| > 0 then matching else NearbyPlans(table, nearby)
    case Some(NewestPlans) => NearbyPlans(table, nearby)
  }

  /** With a `user` parameter: the plans the user owns or commented on,
      newest first. */
  function UserPlans(table: seq<Plan>, user: UserId): (r: seq<Plan>)
    ensures SortedBy(r, NegCreatedOf)
    ensures forall p :: p in r <==> p in table && (p.owner == user || user in p.commenters)
  {
    var mine := Filter(table, (p: Plan) => p.owner == user || user in p.commenters);
    SortBySorted(mine, NegCreatedOf);
    SortByMembers(mine, NegCreatedOf);
    SortBy(mine, NegCreatedOf)
  }

  // --------------------------------------------------------------- history

  datatype HistoryItem = EventItem(event: Event) | PlanItem(plan: Plan)

  /** The date an item is sorted by: an event's start, a plan's creation. */
  function ItemDate(h: HistoryItem): Time {
    match h
    case EventItem(e) => e.start
    case PlanItem(p) => p.created
  }

  function NegItemDate(h: HistoryItem): int { -ItemDate(h) }

  function EventItems(s: seq<Event>): (r: seq<HistoryItem>)
    ensures |r| == |s| && forall i :: 0 <= i < |s| ==> r[i] == EventItem(s[i])
  {
    seq(|s|, i requires 0 <= i < |s| => EventItem(s[i]))
  }

  function PlanItems(s: seq<Plan>): (r: seq<HistoryItem>)
    ensures |r| == |s| && forall i :: 0 <= i < |s| ==> r[i] == PlanItem(s[i])
  {
    seq(|s|, i requires 0 <= i < |s| => PlanItem(s[i]))
  }

  /** A past event the user was accepted to. */
  predicate AttendedBefore(members: map<MemberKey, EventMember>, user: UserId, now: Time, e: Event) {
    (e.id, user) in members && members[(e.id, user)].status == Accepted && e.start < now
  }

  /** UserHistoryView: the user's past accepted events and the plans they own
      or commented on, merged plans first and sorted latest date first;
      items with the same date keep that merged order. */
  function UserHistory(events: seq<Event>, plans: seq<Plan>, members: map<MemberKey, EventMember>,
                       user: UserId, now: Time): (r: seq<HistoryItem>)
    ensures SortedBy(r, NegItemDate)
    ensures forall e :: EventItem(e) in r <==> e in events && AttendedBefore(members, user, now, e)
    ensures forall p :: PlanItem(p) in r <==> p in plans && (p.owner == user || user in p.commenters)
  {
    var attended := Filter(events, (e: Event) => AttendedBefore(members, user, now, e));
    var mine := Filter(plans, (p: Plan) => p.owner == user || user in p.commenters);
    var merged := PlanItems(mine) + EventItems(attended);
    SortBySorted(merged, NegItemDate);
    SortByMembers(merged, NegItemDate);
    MergedMembers(mine, attended);
    SortBy(merged, NegItemDate)
  }

  /** Merging keeps exactly the events and plans it was given. */
  lemma MergedMembers(plans: seq<Plan>, events: seq<Event>)
    ensures forall e :: EventItem(e) in PlanItems(plans) + EventItems(events) <==> e in events
    ensures forall p :: PlanItem(p) in PlanItems(plans) + EventItems(events) <==> p in plans
  {
    var merged := PlanItems(plans) + EventItems(events);
    forall e ensures EventItem(e) in merged <==> e in events {
      if EventItem(e) in merged {
        var i :| 0 <= i < |merged| && merged[i] == EventItem(e);
        assert i >= |plans|;
        assert events[i - |plans|] == e;
      }
      if e in events {
        var j :| 0 <= j < |events| && events[j] == e;
        assert merged[|plans| + j] == EventItem(e);
      }
    }
    forall p ensures PlanItem(p) in merged <==> p in plans {
      if PlanItem(p) in merged {
        var i :| 0 <= i < |merged| && merged[i] == PlanItem(p);
        assert i < |plans|;
      }
      if p in plans {
        var j :| 0 <= j < |plans| && plans[j] == p;
        assert merged[j] == PlanItem(p);
      }
    }
  }
}
