/** The serializer layer: field validators for events and accounts, and the
    counts and flags computed for event, member and profile payloads. */
module Validation {
  import opened Common
  import opened Models
  import Text

  /** A validator's outcome: the payload passes, or fails with a message. */
  datatype Verdict = Pass | Fail(message: string)

  // ---------------------------------------------------------------- events

  /** An event must start at least 30 minutes from now. */
  function ValidateStartDate(start: Time, now: Time): (v: Verdict)
    ensures v.Pass? <==> start >= now + 30 * MINUTE
  {
    if start < now + 30 * MINUTE then Fail("Invalid start_date") else Pass
  }

  /** An end date, when given, may not precede the start. */
  function ValidateEventDates(start: Time, end: Option<Time>): (v: Verdict)
    ensures v.Pass? <==> end.None? || end.value >= start
  {
    if end.Some? && end.value < start then Fail("Event cannot end before it starts") else Pass
  }

  /** max_members is optional; when given it lies in [MIN_MEMBERS, MAX_MEMBERS]. */
  function ValidateMaxMembers(maxMembers: Option<int>, cfg: Config): (v: Verdict)
    ensures v.Pass? <==> maxMembers.None? || cfg.minMembers <= maxMembers.value <= cfg.maxMembers
  {
    if maxMembers.None? then Pass
    else if maxMembers.value < cfg.minMembers || maxMembers.value > cfg.maxMembers then Fail("invalid value for max_members")
    else Pass
  }

  /** One entry of a serializer's `errors`: the field it is filed under
      (`non_field_errors` for the cross-field check) and its message. */
  datatype FieldError = FieldError(field: string, message: string)

  /** A failing validator's message filed under `field`; nothing for a pass. */
  function Filed(field: string, v: Verdict): seq<FieldError> {
    if v.Fail? then [FieldError(field, v.message)] else []
  }

  /** Event validation as the serializer runs it: every field validator runs
      and each failure is collected; the cross-field date check runs only
      when no field failed. The payload passes exactly when nothing is
      collected. */
  function ValidateEvent(start: Time, end: Option<Time>, maxMembers: Option<int>, now: Time, cfg: Config): (errs: seq<FieldError>)
    ensures errs == [] <==>
      start >= now + 30 * MINUTE
      && (maxMembers.None? || cfg.minMembers <= maxMembers.value <= cfg.maxMembers)
      && (end.None? || end.value >= start)
    ensures |errs| <= 2
    ensures start < now + 30 * MINUTE ==> errs[0] == FieldError("start_date", "Invalid start_date")
    ensures maxMembers.Some? && !(cfg.minMembers <= maxMembers.value <= cfg.maxMembers) ==>
      FieldError("max_members", "invalid value for max_members") in errs
    ensures start < now + 30 * MINUTE || (maxMembers.Some? && !(cfg.minMembers <= maxMembers.value <= cfg.maxMembers)) ==>
      forall i :: 0 <= i < |errs| ==> errs[i].field != "non_field_errors"
    ensures (&& start >= now + 30 * MINUTE
             && (maxMembers.None? || cfg.minMembers <= maxMembers.value <= cfg.maxMembers)
             && end.Some? && end.value < start) ==>
      errs == [FieldError("non_field_errors", "Event cannot end before it starts")]
  {
    var fields := Filed("start_date", ValidateStartDate(start, now)) + Filed("max_members", ValidateMaxMembers(maxMembers, cfg));
    if fields != [] then fields else Filed("non_field_errors", ValidateEventDates(start, end))
  }

  /** Both field errors are reported together: a start ten minutes ahead with
      `max_members` 1 is refused for both reasons, and the date order is not
      looked at. */
  lemma ValidateEventCollectsFieldErrors()
    ensures ValidateEvent(10 * MINUTE, Some(0), Some(1), 0, Settings) ==
      [FieldError("start_date", "Invalid start_date"), FieldError("max_members", "invalid value for max_members")]
  {
  }

  /** The data-model invariant of a newly created event. */
  predicate WellFormedNewEvent(e: Event, now: Time, cfg: Config) {
    && e.start >= now + 30 * MINUTE
    && (e.end.Some? ==> e.end.value >= e.start)
    && cfg.minMembers <= e.maxMembers <= cfg.maxMembers
  }

  /** Whatever passes validation, filled in with the default values, is an
      event that satisfies the data-model invariant. */
  lemma ValidatedEventWellFormed(id: EventId, owner: UserId, start: Time, end: Option<Time>,
                                 policy: Option<JoinPolicy>, maxMembers: Option<int>,
                                 tags: set<TagId>, now: Time, cfg: Config)
    requires cfg.minMembers <= cfg.maxMembers
    requires ValidateEvent(start, end, maxMembers, now, cfg) == []
    ensures WellFormedNewEvent(NewEvent(id, owner, start, end, policy, maxMembers, tags, now, cfg), now, cfg)
  {
  }

  // -------------------------------------------------------------- accounts

  /** A birthday must lie strictly before today. */
  function ValidateBirthday(birthday: Day, today: Day): (v: Verdict)
    ensures v.Pass? <==> birthday < today
  {
    if birthday >= today then Fail("Invalid date") else Pass
  }

  /** validate_password as written: for a short password the message is
      built by adding the (integer) minimum length to a string, which raises
      a TypeError instead of producing a message; None stands for that
      error. */
  function ValidatePasswordAsWritten(password: Option<string>, cfg: Config): (v: Option<Verdict>)
    ensures v.None? <==> password.Some? && |password.value| < cfg.passwordLenMin
    ensures v.Some? ==> v.value.Pass?
  {
    if password.Some? && |password.value| < cfg.passwordLenMin then None else Some(Pass)
  }

  /** A three-letter password makes the validator raise rather than answer. */
  lemma ValidatePasswordAsWrittenRaises()
    ensures ValidatePasswordAsWritten(Some("abc"), Settings).None?
    ensures ValidatePassword(Some("abc"), Settings) == Fail("Password must be at least 6 characters")
  {
    assert Text.NatToString(6) == "6" by {
      assert Text.NatToString(6) == [Text.DigitChar(6)];
    }
  }

  /** A password, when given, has at least PASSWORD_LEN_MIN characters;
      otherwise the message states the minimum. */
  function ValidatePassword(password: Option<string>, cfg: Config): (v: Verdict)
    ensures v.Pass? <==> password.None? || |password.value| >= cfg.passwordLenMin
    ensures v.Fail? ==> v.message == "Password must be at least " + Text.NatToString(cfg.passwordLenMin) + " characters"
  {
    if password.Some? && |password.value| < cfg.passwordLenMin then
      Fail("Password must be at least " + Text.NatToString(cfg.passwordLenMin) + " characters")
    else Pass
  }

  /** Sign-up needs a registered client, and either a password or the full
      social sign-in triple (service, id, access token). */
  function ValidateUserCreate(clientKnown: bool, password: Option<string>, socialService: Option<string>,
                              socialId: Option<string>, accessToken: Option<string>): (v: Verdict)
    ensures v.Pass? ==> clientKnown
    ensures v.Pass? <==> clientKnown && (password.Some? || (socialService.Some? && socialId.Some? && accessToken.Some?))
  {
    if !clientKnown then Fail("Invalid client id or secret")
    else if password.None? && (socialService.None? || socialId.None? || accessToken.None?) then
      Fail("password, or social sign in data is required")
    else Pass
  }

  // ------------------------------------------------------ member counts

  /** Users whose row for event `e` has status `s`. */
  function UsersWithStatus(members: map<MemberKey, EventMember>, e: EventId, s: MemberStatus): set<UserId> {
    set k | k in members && k.0 == e && members[k].status == s :: k.1
  }

  /** Users among `users` whom `me` has a friend edge to, of any closeness. */
  function FriendsAmong(friends: map<FriendKey, Friend>, me: UserId, users: set<UserId>): set<UserId> {
    set u | u in users && (me, u) in friends
  }

  /** Users among `users` whom `me` has no friend edge to. */
  function NonFriendsAmong(friends: map<FriendKey, Friend>, me: UserId, users: set<UserId>): set<UserId> {
    set u | u in users && (me, u) !in friends
  }

  /** Acquaintances (non-close friends) of `me` among `users`. */
  function AcquaintancesAmong(friends: map<FriendKey, Friend>, me: UserId, users: set<UserId>): set<UserId> {
    set u | u in users && (me, u) in friends && !friends[(me, u)].close
  }

  /** Close friends of `me` among `users`. */
  function CloseFriendsAmong(friends: map<FriendKey, Friend>, me: UserId, users: set<UserId>): set<UserId> {
    set u | u in users && (me, u) in friends && friends[(me, u)].close
  }

  /** friend_count: acquaintances among the members with status `s`. */
  function FriendCount(members: map<MemberKey, EventMember>, friends: map<FriendKey, Friend>,
                       e: EventId, me: UserId, s: MemberStatus): nat {
    |AcquaintancesAmong(friends, me, UsersWithStatus(members, e, s))|
  }

  /** close_friend_count: close friends among the members with status `s`. */
  function CloseFriendCount(members: map<MemberKey, EventMember>, friends: map<FriendKey, Friend>,
                            e: EventId, me: UserId, s: MemberStatus): nat {
    |CloseFriendsAmong(friends, me, UsersWithStatus(members, e, s))|
  }

  /** other_member_count: the members with status `s` minus the friend rows
      that point at them. */
  function OtherMemberCount(members: map<MemberKey, EventMember>, friends: map<FriendKey, Friend>,
                            e: EventId, me: UserId, s: MemberStatus): int {
    var users := UsersWithStatus(members, e, s);
    |users| - |FriendsAmong(friends, me, users)|
  }

  /** The three counts split the members with a status: the subtraction
      counts exactly the members who are not friends, and acquaintances, close
      friends and others add up to all of them. */
  lemma MemberCountsPartition(members: map<MemberKey, EventMember>, friends: map<FriendKey, Friend>,
                              e: EventId, me: UserId, s: MemberStatus)
    ensures OtherMemberCount(members, friends, e, me, s) == |NonFriendsAmong(friends, me, UsersWithStatus(members, e, s))|
    ensures OtherMemberCount(members, friends, e, me, s) >= 0
    ensures FriendCount(members, friends, e, me, s) + CloseFriendCount(members, friends, e, me, s)
            + OtherMemberCount(members, friends, e, me, s) == |UsersWithStatus(members, e, s)|
  {
    FriendSplit(friends, me, UsersWithStatus(members, e, s));
  }

  lemma FriendSplit(friends: map<FriendKey, Friend>, me: UserId, users: set<UserId>)
    ensures |users| == |NonFriendsAmong(friends, me, users)| + |FriendsAmong(friends, me, users)|
    ensures |FriendsAmong(friends, me, users)|
         == |AcquaintancesAmong(friends, me, users)| + |CloseFriendsAmong(friends, me, users)|
  {
    var fr := FriendsAmong(friends, me, users);
    var others := NonFriendsAmong(friends, me, users);
    var acq := AcquaintancesAmong(friends, me, users);
    var close := CloseFriendsAmong(friends, me, users);
    assert users == others + fr by {
      forall u | u in users ensures u in others + fr {
        if (me, u) in friends { assert u in fr; } else { assert u in others; }
      }
    }
    DisjointUnionCard(users, others, fr);
    assert fr == acq + close by {
      forall u | u in fr ensures u in acq + close {
        if friends[(me, u)].close { assert u in close; } else { assert u in acq; }
      }
    }
    DisjointUnionCard(fr, acq, close);
  }

  lemma DisjointUnionCard<T>(a: set<T>, b: set<T>, c: set<T>)
    requires a == b + c && b !! c
    ensures |a| == |b| + |c|
  {
  }

  // -------------------------------------------------- mutual friends

  /** The targets of `u`'s close or imported friend edges. */
  function CloseOrImported(friends: map<FriendKey, Friend>, u: UserId): set<UserId> {
    set k | k in friends && k.0 == u && (friends[k].close || friends[k].imported) :: k.1
  }

  /** count_mutual_friends as written: `other`'s edges whose target is in my
      close-or-imported set, minus only the edges that are plain
      acquaintance AND point at me (one exclude with three conditions). */
  function MutualFriendCountAsWritten(friends: map<FriendKey, Friend>, me: UserId, other: UserId): nat {
    |set k | k in friends && k.0 == other && k.1 in CloseOrImported(friends, me)
             && !(!friends[k].close && !friends[k].imported && k.1 == me) :: k.1|
  }

  /** The discrepancy: an acquaintance edge of the other user is counted. */
  lemma MutualFriendCountAsWrittenCountsAcquaintances()
    ensures var friends := map[(1, 3) := Friend(true, false, None), (2, 3) := Friend(false, false, None)];
            MutualFriendCountAsWritten(friends, 1, 2) == 1 && MutualFriendCount(friends, 1, 2) == 0
  {
    var friends := map[(1, 3) := Friend(true, false, None), (2, 3) := Friend(false, false, None)];
    assert CloseOrImported(friends, 1) == {3};
    assert CloseOrImported(friends, 2) == {};
    var s := set k | k in friends && k.0 == 2 && k.1 in CloseOrImported(friends, 1)
                     && !(!friends[k].close && !friends[k].imported && k.1 == 1) :: k.1;
    assert s == {3} by {
      assert (2, 3) in friends;
    }
  }

  /** Mutual friends as intended: the users both have as close or imported
      friends, leaving out the two users themselves. */
  function MutualFriendCount(friends: map<FriendKey, Friend>, me: UserId, other: UserId): (n: nat)
    ensures n <= |CloseOrImported(friends, me)| && n <= |CloseOrImported(friends, other)|
  {
    var common := (CloseOrImported(friends, me) - {other}) * (CloseOrImported(friends, other) - {me});
    assert common <= CloseOrImported(friends, me) && common <= CloseOrImported(friends, other);
    SubsetCard(common, CloseOrImported(friends, me));
    SubsetCard(common, CloseOrImported(friends, other));
    |common|
  }

  lemma SubsetCard<T>(a: set<T>, b: set<T>)
    requires a <= b
    ensures |a| <= |b|
  {
    assert b == a + (b - a);
  }

  /** The intended count is the same from either side. */
  lemma MutualFriendCountSymmetric(friends: map<FriendKey, Friend>, a: UserId, b: UserId)
    ensures MutualFriendCount(friends, a, b) == MutualFriendCount(friends, b, a)
  {
    var ca, cb := CloseOrImported(friends, a), CloseOrImported(friends, b);
    assert (ca - {b}) * (cb - {a}) == (cb - {a}) * (ca - {b});
  }

  // ------------------------------------------------------- modified flag

  /** Some comment was updated strictly after `t`. */
  function AnyUpdatedAfter(commentUpdates: seq<Time>, t: Time): (r: bool)
    ensures r <==> exists i :: 0 <= i < |commentUpdates| && commentUpdates[i] > t
    decreases |commentUpdates|
  {
    if commentUpdates == [] then false
    else if commentUpdates[0] > t then true
    else
      var r := AnyUpdatedAfter(commentUpdates[1..], t);
      assert r ==> exists i :: 1 <= i < |commentUpdates| && commentUpdates[i] > t by {
        if r {
          var j :| 0 <= j < |commentUpdates[1..]| && commentUpdates[1..][j] > t;
          assert commentUpdates[j + 1] > t;
        }
      }
      r
  }

  /** EventListSerializer.is_modified: false for a non-member; for a member,
      whether the event or one of its comments changed after the member last
      viewed it. */
  function IsModified(member: Option<EventMember>, eventUpdated: Time, commentUpdates: seq<Time>): (r: bool)
    ensures member.None? ==> !r
    ensures member.Some? ==>
      (r <==> eventUpdated > member.value.viewedEvent
              || exists i :: 0 <= i < |commentUpdates| && commentUpdates[i] > member.value.viewedEvent)
  {
    if member.None? then false
    else eventUpdated > member.value.viewedEvent || AnyUpdatedAfter(commentUpdates, member.value.viewedEvent)
  }

  // ----------------------------------------------------------- reliability

  /** Events `me` joined (accepted) that have started by `now`. */
  function JoinedPast(members: map<MemberKey, EventMember>, events: map<EventId, Event>, me: UserId, now: Time): set<EventId> {
    set k | k in members && k.1 == me && members[k].status == Accepted && k.0 in events && events[k.0].start < now :: k.0
  }

  /** Those of them `me` checked in at. */
  function CheckedInPast(members: map<MemberKey, EventMember>, events: map<EventId, Event>, me: UserId, now: Time): (s: set<EventId>)
    ensures s <= JoinedPast(members, events, me, now)
  {
    set e | e in JoinedPast(members, events, me, now) && members[(e, me)].checkedIn.Some?
  }

  /** The rows the second `.filter(eventmember__checked_in__isnull=False)`
      counts as written: chained after the first filter it joins the member
      rows afresh, so every checked-in member row (of any user) of each
      joined past event is a row of the result. */
  function CheckedInRowsAsWritten(members: map<MemberKey, EventMember>, events: map<EventId, Event>, me: UserId, now: Time): (s: set<MemberKey>)
    ensures forall k :: k in s <==>
      k in members && k.0 in JoinedPast(members, events, me, now) && members[k].checkedIn.Some?
  {
    set k | k in members && k.0 in JoinedPast(members, events, me, now) && members[k].checkedIn.Some?
  }

  /** get_reliability's arithmetic as written: the Python 2 integer quotient
      is taken before multiplying by 100, so the score is always a multiple
      of 100: 0 when fewer rows than joined events were counted, and above
      100 when more were. */
  function ReliabilityAsWritten(joined: nat, checkedIn: nat): (r: int)
    ensures joined == 0 ==> r == 50
    ensures joined > 0 ==> r >= 0 && r % 100 == 0
    ensures joined > 0 ==> (r == 0 <==> checkedIn < joined)
    ensures joined > 0 ==> (r == 100 <==> joined <= checkedIn < 2 * joined)
    ensures joined > 0 ==> (r > 100 <==> checkedIn >= 2 * joined)
  {
    if joined > 0 then checkedIn / joined * 100 else 50
  }

  /** The arithmetic flaw alone: one check-in out of two joined events scores
      0, not 50. */
  lemma ReliabilityAsWrittenDropsPartialAttendance()
    ensures ReliabilityAsWritten(2, 1) == 0 && Reliability(2, 1) == 50
  {
  }

  /** get_reliability as written, from the store. */
  function ProfileReliabilityAsWritten(members: map<MemberKey, EventMember>, events: map<EventId, Event>, me: UserId, now: Time): (r: int)
    ensures JoinedPast(members, events, me, now) == {} ==> r == 50
    ensures JoinedPast(members, events, me, now) != {} ==> r >= 0 && r % 100 == 0
  {
    ReliabilityAsWritten(|JoinedPast(members, events, me, now)|, |CheckedInRowsAsWritten(members, events, me, now)|)
  }

  /** The join flaw: user 1 joined one past event and did not check in, two
      other members did; the rows of both are counted, so the score is 200,
      where the intended score is 0. */
  lemma ProfileReliabilityAsWrittenCountsOthers()
    ensures var e := Event(1, Some(1), 10, None, Open, 0, None, 0, false, false, {});
      var m := map[(1, 1) := EventMember(Accepted, 0, None, None), (1, 2) := EventMember(Accepted, 0, Some(12), None),
                   (1, 3) := EventMember(Accepted, 0, Some(12), None)];
      ProfileReliabilityAsWritten(m, map[1 := e], 1, 15) == 200
      && ProfileReliability(m, map[1 := e], 1, 15) == 0
  {
    var e := Event(1, Some(1), 10, None, Open, 0, None, 0, false, false, {});
    var m := map[(1, 1) := EventMember(Accepted, 0, None, None), (1, 2) := EventMember(Accepted, 0, Some(12), None),
                 (1, 3) := EventMember(Accepted, 0, Some(12), None)];
    var events := map[1 := e];
    var joined := JoinedPast(m, events, 1, 15);
    assert joined == {1} by {
      assert (1, 1) in m;
    }
    var rows := CheckedInRowsAsWritten(m, events, 1, 15);
    assert rows == {(1, 2), (1, 3)};
    assert CheckedInPast(m, events, 1, 15) == {};
  }

  /** Reliability as intended: the percentage of joined past events checked
      in at (rounded down), 50 for a user with none. */
  function Reliability(joined: nat, checkedIn: nat): (r: int)
    requires checkedIn <= joined
    ensures joined == 0 ==> r == 50
    ensures 0 <= r <= 100
    ensures joined > 0 ==> (r == 100 <==> checkedIn == joined)
    ensures joined > 0 ==> (r == 0 <==> checkedIn * 100 < joined)
    ensures joined > 0 ==> r * joined <= checkedIn * 100 < (r + 1) * joined
  {
    if joined > 0 then
      PercentBounds(checkedIn, joined);
      checkedIn * 100 / joined
    else 50
  }

  /** The quotient c*100/j brackets the exact percentage and stays in 0..100. */
  lemma {:induction false} PercentBounds(c: nat, j: nat)
    requires 0 < j && c <= j
    ensures var r := c * 100 / j;
      && r * j <= c * 100 < (r + 1) * j
      && 0 <= r <= 100
      && (r == 100 <==> c == j)
      && (r == 0 <==> c * 100 < j)
  {
    var a := c * 100;
    var r := a / j;
    DivBounds(a, j);
    assert a <= j * 100;
    assert r * j < 101 * j;
    MulCancelLt(r, 101, j);
    if c == j {
      assert 100 * j < (r + 1) * j;
      MulCancelLt(100, r + 1, j);
    }
    if r == 100 {
      assert 100 * j <= c * 100;
    }
    if r == 0 {
      assert a < j;
    }
    if a < j {
      assert r * j < 1 * j;
      MulCancelLt(r, 1, j);
    }
  }

  lemma DivBounds(a: nat, n: nat)
    requires n > 0
    ensures (a / n) * n <= a < (a / n + 1) * n
  {
    var q := a / n;
    assert a == q * n + a % n;
    assert (q + 1) * n == q * n + n;
  }

  lemma MulMonotone(a: int, b: int, n: nat)
    requires a <= b
    ensures a * n <= b * n
  {
  }

  lemma MulCancelLt(a: int, b: int, n: int)
    requires n > 0 && a * n < b * n
    ensures a < b
  {
    if a >= b {
      MulMonotone(b, a, n);
      assert false;
    }
  }

  /** More check-ins never lower the intended score. */
  lemma {:induction false} ReliabilityMonotone(joined: nat, c1: nat, c2: nat)
    requires c1 <= c2 <= joined
    ensures Reliability(joined, c1) <= Reliability(joined, c2)
  {
    if joined > 0 {
      var r1, r2 := Reliability(joined, c1), Reliability(joined, c2);
      assert r1 * joined < (r2 + 1) * joined;
      MulCancelLt(r1, r2 + 1, joined);
    }
  }

  /** ProfileSerializer.get_reliability for the requesting user, from the
      store, with the intended percentage. */
  function ProfileReliability(members: map<MemberKey, EventMember>, events: map<EventId, Event>, me: UserId, now: Time): (r: int)
    ensures 0 <= r <= 100
    ensures JoinedPast(members, events, me, now) == {} ==> r == 50
  {
    var joined := JoinedPast(members, events, me, now);
    var checked := CheckedInPast(members, events, me, now);
    SubsetCard(checked, joined);
    Reliability(|joined|, |checked|)
  }
}
