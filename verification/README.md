# fastfriends: a Dafny model of the event engine

fastfriends is a social events backend. Users create events, join or
request to join them, invite others, check in at the venue, and cancel. A
periodic job makes the people who checked in at an event friends. Another
job reminds members shortly before an event starts. Users browse feeds of
events and plans, search both, exchange private messages, and see prices
converted through a cached table of exchange rates.

This project models the domain logic of that backend and proves what it
promises:

- `common.dfy`: time in seconds, the identifiers, and the configuration
  constants (`CHECKIN_PERIOD` 4 h, `CHECKIN_DISTANCE` 200,
  `MIN_MEMBERS` 2, `MAX_MEMBERS` 2147483647, `MAX_MESSAGES` 500,
  `PASSWORD_LEN_MIN` 6).
- `models.dfy`: the records with their default values, and `Event.can_checkin`.
- `permissions.dfy`: the five object permissions as predicates.
  `IsUser`, `IsEventOwner` and `IsEventMember` are used directly in the
  contracts of the store's actions.
- `validation.dfy`: the serializer validators and the derived counts
  (member and friend counts, mutual friends, the modified flag,
  reliability).
- `membership.dfy`: the class `EventStore`, which holds events, member rows
  keyed by (event, user), invites and friend edges keyed by (owner, user).
  Its methods are the event actions. Its invariant `Valid` states referential
  integrity; uniqueness per key pair comes from the map keys.
- `tasks.dfy`: the `update_friends` and `notify_event_start` jobs, as
  methods over an `EventStore`.
- `importer.dfy`: the skip rule and the counting loops of the event importer.
- `discovery.dfy`: the event, plan and history feeds, as filters and sorts
  over sequences.
- `messaging.dfy`: messages as objects with two deletion flags, and the
  conversation delete.
- `currency.dfy`: `calculate_price` and the cached, fresh, stale or no-price
  decision of `convert_price`, over a table of rate rows.
- `search.dfy`: the search filter objects, their `restore_object` updates,
  `build_search` as lists of clauses, and the index document TTL.
- `text.dfy` and `ordering.dfy`: lower-casing, decimal rendering, filtering
  and stable sorting, which the modules above rely on.

The model follows the code where it departs from what its comments, names or
usual intent suggest:

- A soft cancel assigns `event.cancelled`, which is not a stored field, and
  saves (api/views.py:323). The stored `canceled` stays as it was and only
  `updated` changes.
- The RECOMMENDED event feed falls back to all available events, not to the
  nearby ones (api/views.py:517).
- The FRIENDS and RECOMMENDED plan feeds run over all plans, with no distance
  filter (api/views.py:1053-1055).
- The FRIENDS circle is not filtered, so it holds the user themself when a
  close friend has them as a close friend (`Discovery.FriendCircleHoldsSelf`).
- `convert_price` reads `conversion.date`, but a rate row has no `date`
  attribute (its fields are `updated`, `source`, `target` and `rate`,
  api/models.py:530-534). So as written it raises an AttributeError whenever
  the lookup finds a row (`Currency.ConvertAsWritten`, listed under
  Findings). Everywhere else the model gives each row the day it was last
  saved and uses that as the intended `date`.
- A rate refresh rewrites the pair's row as `from -> to`, whatever direction
  the row had before.
- The event search defaults for the date window are computed once, when the
  module loads (api/indexes.py:399). The model takes that instant as the
  parameter `loadTime`.
- The plan search distance is text, because the request field is a
  `CharField` (api/serializers.py:905).
- In the conversation delete, the `other_users is None` branch cannot be
  taken, because `split` always returns a list (api/views.py:794). Its
  serializer has no fields, so it is always valid.

## Model

| member | source | states |
|---|---|---|
| Text.Lower | api/indexes.py:386 | same length as the input, each ASCII letter mapped to lower case, and no upper-case letter left |
| Text.LowerIdempotent | api/indexes.py:420 | lower-casing an already lower-cased search text changes nothing |
| Text.NatToString | api/views.py:417 | the decimal text of a count is digits only, never empty, has no leading zero, and is "0" exactly for zero |
| Text.ParseNatToString | api/views.py:417 | the decimal text of a count reads back as the same count, so no information is lost |
| Text.IntToString | api/indexes.py:65 | `str` of an integer is non-empty and starts with a minus sign exactly when the integer is negative |
| Text.IntToStringInjective | api/indexes.py:65 | two integers with the same text are equal |
| Ordering.Filter | api/views.py:498 | a queryset filter keeps exactly the elements that pass, taken from the input and never more often than there |
| Ordering.FilterCount | api/views.py:498 | every copy of a passing element is kept and every copy of a failing one is dropped |
| Ordering.FilterAppend | api/views.py:498 | filtering a concatenation is the concatenation of the filtered parts, so the kept elements stay in input order |
| Ordering.FilterSingle | api/views.py:498 | a single element is kept exactly when it passes |
| Ordering.Insert | api/views.py:498 | one insertion step of the sort adds exactly the inserted element to the multiset |
| Ordering.InsertSorted | api/views.py:498 | inserting into a key-ordered sequence keeps it ordered |
| Ordering.SortBySorted | api/views.py:498 | `order_by` yields a sequence in ascending key order |
| Ordering.SortByPermutation | api/views.py:498 | `order_by` yields a permutation of its input |
| Ordering.SortByMembers | api/views.py:1229 | sorting keeps the length and exactly the elements it was given |
| Ordering.FilterSorted | api/views.py:499 | filtering an ordered queryset leaves it ordered |
| Models.NewEvent | api/models.py:346-362 | a new event defaults to the OPEN policy and `MAX_MEMBERS`, is not cancelled, and has neither job flag set |
| Models.NewMember | api/models.py:466-471 | a member row created without a status is a REQUESTED row, not checked in and without an invite |
| Models.CanCheckin | api/models.py:393-427 | "already checked in" whenever a check-in exists; otherwise too early before start minus 30 min, too late after the end (start plus `CHECKIN_PERIOD` when there is none), too far beyond `CHECKIN_DISTANCE`; no reason exactly inside the window and distance |
| Permissions.OwnerOrReadOnlyWrites | api/permissions.py:9-16 | safe methods are always allowed; any other method is allowed exactly to the owner, and never on an object without an owner |
| Permissions.UserPermissionsIsUser | api/permissions.py:44-48 | POST is always allowed; any other method is allowed exactly to the user the object is |
| Validation.ValidateStartDate | api/serializers.py:283-294 | a start date passes exactly when it is at least 30 minutes from now |
| Validation.ValidateEventDates | api/serializers.py:296-305 | the dates pass exactly when there is no end date or it does not precede the start |
| Validation.ValidateMaxMembers | api/serializers.py:316-322 | an absent size passes; a given one passes exactly when it lies in [`MIN_MEMBERS`, `MAX_MEMBERS`] |
| Validation.ValidateEvent | api/serializers.py:283-322 | every field validator's failure is collected under its field; the date order is checked, under `non_field_errors`, only when no field failed; nothing is collected exactly when the start is 30 minutes ahead, the size is absent or within bounds, and the end does not precede the start |
| Validation.ValidateEventCollectsFieldErrors | api/serializers.py:283-322 | a start ten minutes ahead with `max_members` 1 is refused with both field errors together |
| Validation.ValidatedEventWellFormed | api/serializers.py:283-322 | an event that passes validation, saved with its defaults, starts at least 30 minutes ahead, does not end before it starts, and has a size within bounds, including the default size |
| Validation.ValidateBirthday | api/serializers.py:582-589 | a birthday passes exactly when it lies before today |
| Validation.ValidatePasswordAsWritten | api/serializers.py:571-580 | as written, a short password makes the validator raise instead of answering; any other input passes |
| Validation.ValidatePasswordAsWrittenRaises | api/serializers.py:579 | the password "abc" makes the code as written raise, where the intended validator fails with the message naming 6 characters |
| Validation.ValidatePassword | api/serializers.py:571-580 | a password passes exactly when it is absent or has at least `PASSWORD_LEN_MIN` characters; a failure names that minimum in decimal |
| Validation.ValidateUserCreate | api/serializers.py:591-610 | the cross-field check of sign-up passes exactly for a registered client with a password or with all three social sign-in fields (the field validators are the members above) |
| Validation.MemberCountsPartition | api/serializers.py:185-208 | `other_member_count` is never negative and counts the non-friends; friend count plus close friend count plus other count is the number of members with the status |
| Validation.FriendSplit | api/serializers.py:185-208 | the users with a status split into non-friends, acquaintances and close friends, with no overlap |
| Validation.MutualFriendCountAsWrittenCountsAcquaintances | api/serializers.py:151-153 | as written, an acquaintance edge of the other user is counted as a mutual friend; the intended count leaves it out |
| Validation.MutualFriendCount | api/serializers.py:148-153 | the mutual friend count is at most either user's number of close or imported friends |
| Validation.MutualFriendCountSymmetric | api/serializers.py:148-153 | the intended mutual friend count is the same from either user's side |
| Validation.AnyUpdatedAfter | api/serializers.py:407 | true exactly when some comment was updated after the given time |
| Validation.IsModified | api/serializers.py:401-409 | false for a non-member; for a member, true exactly when the event or one of its comments was updated after the member last viewed it |
| Validation.CheckedInPast | api/serializers.py:446-447 | the intended count: the joined past events at which the user themself checked in, a subset of the joined past events |
| Validation.CheckedInRowsAsWritten | api/serializers.py:446-447 | as written, the chained filter counts exactly the checked-in member rows, of any user, of the user's joined past events |
| Validation.ReliabilityAsWritten | api/serializers.py:449-453 | as written, 50 with no joined events; otherwise a multiple of 100: 0 exactly when fewer rows than joined events were counted, 100 when up to twice as many, more above that |
| Validation.ReliabilityAsWrittenDropsPartialAttendance | api/serializers.py:451 | as written, one check-in out of two joined events scores 0, where the intended score is 50 |
| Validation.ProfileReliabilityAsWritten | api/serializers.py:442-453 | get_reliability as written: 50 when the user joined no past event, otherwise a non-negative multiple of 100 |
| Validation.ProfileReliabilityAsWrittenCountsOthers | api/serializers.py:446-451 | as written, a user who missed their one past event while two others checked in scores 200, where the intended score is 0 |
| Validation.Reliability | api/serializers.py:449-453 | 50 with no joined events; otherwise the percentage of joined events checked in, rounded down, between 0 and 100, and 100 exactly when all were checked in |
| Validation.PercentBounds | api/serializers.py:451 | the rounded percentage brackets the exact one and stays within 0..100 |
| Validation.ReliabilityMonotone | api/serializers.py:446-453 | more check-ins never lower the score |
| Validation.ProfileReliability | api/serializers.py:442-453 | the intended reliability of a profile (own check-ins over joined past events, exact percentage) lies in 0..100 and is 50 when the user joined no past event |
| Membership.MembersWithout | api/views.py:318 | deleting an event removes exactly its member rows and leaves the others as they were |
| Membership.InvitesWithout | api/views.py:318 | deleting an event removes exactly its invites and leaves the others as they were |
| Membership.FriendsWithout | api/models.py:572 | deleting an event removes exactly the friend edges last met at it and leaves the others as they were |
| Membership.InviteAllKeepsExisting | api/views.py:402-416 | an invitation round leaves every existing member row and invite unchanged |
| Membership.InviteAllNewRows | api/views.py:405-410 | every row a round creates is an INVITED row of this event, for a known user named in the ids, pointing at a new invite from the inviter |
| Membership.InviteAllCoversKnown | api/views.py:402-416 | after a round every known user named in the ids has a row for the event; unknown ids are skipped |
| Membership.InviteAllCount | api/views.py:401-417 | the count reported is exactly the number of member rows the round created |
| Membership.EventStore.CreateEvent | api/views.py:458-469 | an invalid payload changes nothing and is refused with every collected serializer error; a valid one adds the event with its defaults under a fresh id and makes the owner its ACCEPTED member |
| Membership.EventStore.Join | api/views.py:360-377 | an existing row gives "Already a member" and no change; otherwise OPEN adds an ACCEPTED row, FRIENDS_ONLY adds one only for a close friend of the owner, and any other policy adds a REQUESTED row; nothing else changes |
| Membership.EventStore.Leave | api/views.py:380-387 | without a row "Not a member" and no change; otherwise exactly the caller's row is removed |
| Membership.EventStore.Invite | api/views.py:390-420 | non-members are refused, and members other than the owner are refused unless the policy is OPEN or INVITE_ONLY; otherwise the store becomes the invitation round over the ids, with its count |
| Membership.EventStore.AddInvited | api/views.py:405-410 | one invitation adds an INVITED row and the invite it points to, under a fresh invite id |
| Membership.EventStore.Checkin | api/views.py:424-443 | without a row an error and no status reason; otherwise the check-in time is set to now exactly when `can_checkin` gives no reason, and the reason is reported otherwise |
| Membership.EventStore.Cancel | api/views.py:303-330 | only the owner may cancel, and not after the check-in window closes; with fewer than 2 member rows the event and everything hanging on it is deleted, otherwise only its `updated` time changes |
| Membership.EventStore.AcceptInvite | api/views.py:527-552 | only the invited user; the owner's own row is refused with nothing saved; otherwise the row becomes ACCEPTED or DECLINED and the invite records the answer and the time |
| Membership.EventStore.Approve | api/views.py:556-574 | only the event owner; the owner's own row is refused; otherwise accepting sets ACCEPTED and declining deletes the row |
| Membership.EventStore.SetClose | api/views.py:891-911 | a JSON body without `close` is refused with the required-field error before any lookup; an edge that is missing or not the caller's own is not found; a form body without the flag raises; otherwise the edge becomes close exactly when the text sent reads "true" in any case, and nothing else changes |
| Tasks.MetPairs | api/tasks.py:125-130 | the pairs wanted after an event are exactly (a, b) with a checked in, asking for friends, and b another member |
| Tasks.BefriendAt | api/tasks.py:125-130 | processing one event keeps every existing edge, adds an edge for every pair that met there, and new edges are acquaintances last met at that event |
| Tasks.BefriendAtIdempotent | api/tasks.py:130 | processing the same event twice gives the same edges as once: no duplicates |
| Tasks.BefriendAllKeeps | api/tasks.py:123-130 | a run leaves every edge that existed before it unchanged |
| Tasks.BefriendAllComplete | api/tasks.py:123-130 | after a run every pair that met at a processed event has an edge |
| Tasks.BefriendAllLastMet | api/tasks.py:121-130 | an edge a run creates is an acquaintance whose last meeting is the first event in the run's order at which the pair met |
| Tasks.MarkProcessed | api/tasks.py:131-133 | marking events processed keeps the same event ids |
| Tasks.MarkEvent | api/tasks.py:132-133 | flagging one event sets the requested job flags and refreshes its `updated` time; nothing else in the store changes |
| Tasks.BefriendEvent | api/tasks.py:125-130 | the friend edges after one event are those of `BefriendAt`, and nothing else changes |
| Tasks.UpdateFriends | api/tasks.py:114-135 | the friend edges become those of the run over the selected events in order, each event is flagged, and afterwards no event is selected |
| Tasks.ProcessedLeavesNothing | api/tasks.py:120-133 | once the selected events are flagged, a later run selects nothing |
| Tasks.BefriendAtAsWritten | api/tasks.py:127-130 | as written, processing an event raises exactly when some pair met there |
| Tasks.UpdateFriendsAsWritten | api/tasks.py:122-133 | as written, a run flags the events before the first one where a pair met, and stops there |
| Tasks.FlaggedBeforeRaise | api/tasks.py:123-133 | from a position on, the run as written flags events up to the first with a meeting and no further |
| Tasks.UpdateFriendsAsWrittenStopsAtMeeting | api/tasks.py:128-130 | as written, two members meeting at an event stop the run with no edge made and the event not flagged |
| Tasks.GetOrCreateAsWritten | api/tasks.py:130 | as written, the lookup fails with an integrity error exactly when the pair has an edge last met elsewhere, and creates only when there is no edge |
| Tasks.GetOrCreateAsWrittenFailsOnSecondMeeting | api/tasks.py:130 | as written, two friends meeting at a second event make the job fail, where the intended lookup finds their edge |
| Tasks.MarkNotified | api/tasks.py:108-109 | marking events notified keeps the same event ids |
| Tasks.NotifyEventStart | api/tasks.py:92-110 | every selected event, in start order, yields one reminder to all its members and is flagged; afterwards no event is selected |
| Tasks.NotifiedLeavesNothing | api/tasks.py:98-109 | once the selected events are flagged, a later run selects nothing |
| Importer.ImportOne | api/tasks.py:159-233 | an import succeeds exactly when the item is not skipped and completes; a skipped item writes nothing; a success records a new source id |
| Importer.ImportPageBounds | api/tasks.py:247-255 | a page imports at most its items, does not pass the cap when it starts below it, and only adds to the ledger |
| Importer.ImportPageCountsNewIds | api/tasks.py:247-255 | every event a page counts is a source id new to the ledger |
| Importer.ImportLedger.ImportEvent | api/tasks.py:155-233 | a skipped item returns false and writes nothing; a failure after the record is written returns false and keeps the record |
| Importer.ImportLedger.ImportEventPage | api/tasks.py:236-255 | the page loop imports in order and stops once the running total reaches the cap, never counting more than its items |
| Importer.CategoryRun | api/tasks.py:292-298 | the category loop stops exactly when the page number passes the last reported page count or the cap is reached |
| Importer.CategoryRunBounds | api/tasks.py:292-298 | the category loop only adds to the ledger, counts only new source ids, and does nothing at or above the cap |
| Importer.CategoryRunCap | api/tasks.py:292-298 | started at or below the cap, the category loop never counts past it |
| Importer.ImportLedger.ImportEventCategory | api/tasks.py:265-299 | the ledger and the count are those of the page-by-page run `CategoryRun` from page 1; nothing is imported when the cap is not positive, the count never passes the cap, and only new source ids are counted |
| Discovery.FriendCircle | api/views.py:505-507 | the owners shown are exactly the user's close friends and their close friends |
| Discovery.FriendCircleHoldsSelf | api/views.py:505-508 | the circle holds the user themself as soon as a close friend has them as a close friend |
| Discovery.AvailableEvents | api/views.py:498 | exactly the events started less than 4 hours ago and not ended, in ascending start order |
| Discovery.Narrow | api/views.py:499 | a filter of a start-ordered list keeps exactly the matching events and their order |
| Discovery.NearbyPool | api/views.py:499 | exactly the available events within 50 miles, in ascending start order |
| Discovery.RecommendedPool | api/views.py:511-517 | the nearby events matching the user's interests when there are any; otherwise all available events |
| Discovery.EventFeed | api/views.py:489-518 | without a category every event, latest first; ATTENDING, FRIENDS and NEARBY keep exactly the available events that qualify, in start order; RECOMMENDED is never empty while an event is available |
| Discovery.UserEvents | api/views.py:483-487 | exactly the events the user has a row for, latest first |
| Discovery.NearbyPlans | api/views.py:1047 | exactly the plans within 50 miles, newest first |
| Discovery.PlanFeed | api/views.py:1041-1062 | without a category every plan; FRIENDS keeps the plans of the friend circle; RECOMMENDED the plans sharing an interest, else the nearby ones; NEWEST the nearby ones |
| Discovery.UserPlans | api/views.py:1036-1039 | exactly the plans the user owns or commented on, newest first |
| Discovery.UserHistory | api/views.py:1221-1250 | exactly the user's past accepted events and the plans they own or commented on, latest date first |
| Discovery.MergedMembers | api/views.py:1229 | chaining the plans and events keeps exactly the events and the plans given |
| Messaging.Message.SetDeleted | api/models.py:511-515 | the sender's flag for the sender, otherwise the receiver's flag for the receiver, and nothing for anyone else |
| Messaging.Mailbox.Conversation | api/views.py:789-796 | exactly the stored messages between the user and the others, in either direction, without drafts addressed to the user |
| Messaging.Mailbox.BoxOf | api/serializers.py:657 | exactly the sent messages the user holds: received and not deleted by them, or sent and not deleted by them |
| Messaging.Mailbox.ValidateMessage | api/serializers.py:652-660 | a message passes exactly when the receiver holds fewer than `MAX_MESSAGES` messages, and fails with "Message box full" |
| Messaging.Mailbox.DeleteConversation | api/views.py:773-784 | every message of the conversation is marked deleted on the user's side, exactly those then meeting the deletion rule are removed, the count is the conversation's size, and no box grows |
| Currency.CalculatePrice | api/currency_helper.py:37-40 | with the row's own direction the amount is multiplied by the rate, against it the result times the rate gives back the amount |
| Currency.CalculatePriceRoundTrip | api/currency_helper.py:37-40 | converting with a row from one currency to the other and back gives the original amount |
| Currency.CalculatePriceDirectionFree | api/currency_helper.py:44-45 | a row stored the other way round with the inverse rate gives the same price |
| Currency.ConvertSpecNoneIff | api/currency_helper.py:63-66 | there is no price exactly when nothing is cached and the fetch failed |
| Currency.ConvertSpecPrefersFresh | api/currency_helper.py:49-60 | a rate cached today is used whatever the service would answer; otherwise a fetched rate wins over the stale one |
| Currency.ConvertSpecDirection | api/currency_helper.py:49-65 | whichever rate is used, converting the price back with it gives the amount: the price is in the target currency |
| Currency.RateCache.MatchIds | api/currency_helper.py:44-45 | exactly the rows converting between the two currencies, in either direction |
| Currency.RateCache.Cached | api/currency_helper.py:44-47 | no row found exactly when no row matches the pair; otherwise one of the matching rows |
| Currency.RateCache.Find | api/currency_helper.py:43-47 | with one row per pair, the lookup finds that row or reports that there is none |
| Currency.RateCache.GetConversion | api/currency_helper.py:16-34 | a failed fetch returns nothing and saves nothing; a fetched rate is saved as `source -> target` under the given key, or a new one, and returned |
| Currency.ConvertAsWritten | api/currency_helper.py:42-66 | as written, the call fails exactly when the lookup finds a row; with no row it answers as intended |
| Currency.ConvertAsWrittenRaisesOnCachedRow | api/currency_helper.py:49 | as written, a rate saved today makes the call fail, where the intended answer is the cached price |
| Currency.RateCache.ConvertPrice | api/currency_helper.py:42-66 | the price is the cached, fresh, stale or no-price decision; a refresh overwrites the pair's one row, a first fetch adds one, and there stays one row per pair |
| Currency.RefreshKeepsOnePerPair | api/currency_helper.py:53-54 | overwriting the pair's row keeps at most one row per pair |
| Currency.AddKeepsOnePerPair | api/currency_helper.py:55-56 | adding a row for a pair that has none keeps at most one row per pair |
| Search.PlanSearchFilter.constructor | api/indexes.py:373-381 | the fields given are taken, the others get their defaults: page 1, the default page size, 25 mi, position 0, 0 |
| Search.PlanSearchFilter.Restore | api/serializers.py:915-923 | each field given in the request replaces the stored one; the others stay |
| Search.PlanSearchFilter.BuildSearch | api/indexes.py:383-394 | the owner-name prefix and text clauses, on the lower-cased text, exactly when the search is non-empty; always one distance filter of distance followed by units |
| Search.EventSearchFilter.constructor | api/indexes.py:398-415 | the fields given are taken, the others get their defaults: a week from load time, 25 mi, USD, minimum size 0, no price bounds |
| Search.EventSearchFilter.Restore | api/serializers.py:882-897 | each field given in the request replaces the stored one; the others stay |
| Search.EventSearchFilter.RestoreWhereAndWhat | api/serializers.py:883-891 | the text, paging, date and place fields given replace the stored ones; the others stay |
| Search.EventSearchFilter.RestoreBounds | api/serializers.py:892-896 | the price, currency and size fields given replace the stored ones; the others stay |
| Search.EventSearchFilter.Queries | api/indexes.py:418-423 | the name, tag and description clauses on the lower-cased text, exactly when the search is non-empty |
| Search.EventSearchFilter.Filters | api/indexes.py:425-440 | always the date window, the distance and the lower-cased currency; a price or size bound exactly when it is given and positive |
| Search.EventSearchFilter.PriceFilters | api/indexes.py:429-433 | a minimum or maximum amount clause exactly when that bound is given and positive |
| Search.EventSearchFilter.SizeFilters | api/indexes.py:436-440 | a minimum or maximum size clause exactly when that bound is given and positive |
| Search.BuildSearchAdmits | api/indexes.py:417-443 | a document passes all the filter clauses exactly when it lies in the date window, within the distance, in the currency, and within every positive bound |
| Search.PriceFiltersHold | api/indexes.py:430-433 | the price clauses hold exactly when the amount respects every positive price bound |
| Search.SizeFiltersHold | api/indexes.py:437-440 | the size clauses hold exactly when `max_members` respects every positive size bound |
| Search.EventTtl | api/indexes.py:62 | the TTL brings now to a week past the start, and is positive exactly while that moment lies ahead |
| Search.TtlText | api/indexes.py:65 | the TTL text ends in `s` and starts with a minus sign exactly for a negative TTL |
| Search.TtlTextInjective | api/indexes.py:62-65 | different TTLs are written differently |

## Left out

- Push notifications and e-mail (api/message_helper.py and every `send_gcm` call) are I/O. The reminder job returns its reminders instead.
- Network calls are not modelled: the Eventful feed, the image download, Google Places, and the social token checks. The import outcome and the rate service answer are parameters.
- Geographic distance and projection are floating-point GIS calls. The check-in distance is a real parameter. "Within 50 miles" is a set of event or plan ids. Whether a search document lies within the distance is a boolean parameter.
- Elasticsearch index management, relevance scoring and query execution are not modelled. Only the clause lists are.
- Pagination, file and resource handling, password hashing and the mention and hash-tag regexes are left out.
- Concurrency is left out: Celery scheduling and simultaneous joins. Uniqueness is modelled sequentially, by the map keys.
- The querysets the batch jobs iterate over are parameters. A `requires` states that they list exactly the selected events in the documented order.
- Prices and rates are reals, not decimals, so rounding of the stored rate is not modelled. The rate service is assumed to answer positive rates.
- The feed in `ImportEventCategory` never reports more pages than it serves; that is a precondition.
- Discovery.UserPlans: the query joins comments without `distinct` (api/views.py:1036-1039), so the source returns a plan once per joined comment row: an owned plan once per comment, a commented plan once per comment by the user. The model returns each matching plan once and does not capture that repetition.
- Messaging.Mailbox.DeleteConversation: the other users come from the `users` request parameter split on commas (api/views.py:789-796). When it is absent, empty or not numeric, the lookup `receiver__in` raises a ValueError; the model takes the other users as a set of ids and does not capture that failure.
- Membership.EventStore.SetClose: the `close` value is taken as text. A JSON boolean, which the serializer accepts and on which the view's `lower()` then raises, is not modelled.
- Text.Lower: only the ASCII letters A-Z are folded, while Python's `lower()` folds every cased Unicode letter. `Search.PlanSearchFilter.BuildSearch`, `Search.EventSearchFilter.Queries`, `Search.EventSearchFilter.Filters` (the currency code) and `Membership.EventStore.SetClose` (the `close` flag text) inherit this.
- The validators' language, display name and access token checks are not modelled. Neither are the promo, comment and device endpoints.
- `import_events` only calls the category import for six fixed categories and is not modelled.
- Validation.ValidateStartDate: the error message leaves out the rejected date's text, which is a Python datetime rendering.
- Membership.EventStore.Checkin: the serializer check of the latitude and longitude fields is not modelled; the distance is given.
- Membership.EventStore.Invite: ids in the request are user ids. An id that is not a number makes the code raise, and that is not modelled.
- Discovery.EventFeed: the RECOMMENDED result is stated only as non-empty while an event is available, and as drawn from the available events in start order. `Discovery.RecommendedPool` states its contents.

## Findings

| source | as written | input that shows it | evidently intended | confidence | as-written member | corrected member |
|---|---|---|---|---|---|---|
| api/serializers.py:451 | `checked_in.count() / joined_count * 100` uses Python 2 integer division before multiplying | joined 2 past events, checked in at 1: score 0 | the percentage checked in, 50 | high, not executed | Validation.ReliabilityAsWrittenDropsPartialAttendance | Validation.Reliability |
| api/serializers.py:447 | the chained `.filter(eventmember__checked_in__isnull=False)` joins the member rows afresh, so every member's check-in at a joined event is counted | user 1 joined one past event and did not check in; users 2 and 3 checked in there: score 200 | count only the user's own check-ins: 0 | high, not executed | Validation.ProfileReliabilityAsWrittenCountsOthers | Validation.ProfileReliability |
| api/currency_helper.py:49 | `conversion.date` is read, but a rate row has no `date` attribute, which raises an AttributeError | a USD to EUR rate of 2 is stored; convert 10 USD to EUR: the call fails | compare the day the row was last saved with today and use the cached price, 20 | high, not executed | Currency.ConvertAsWrittenRaisesOnCachedRow | Currency.RateCache.ConvertPrice |
| api/tasks.py:130 | `user=other.user`, but `other` is a User from `event.members`, which has no `user` attribute | two members at an ended event, one checked in and asking for friends: the job raises before making an edge or flagging the event | `user=other`, making an edge to each other member | high, not executed | Tasks.UpdateFriendsAsWrittenStopsAtMeeting | Tasks.UpdateFriends |
| api/tasks.py:130 | `get_or_create` looks up on `last_met` too, while (owner, user) is unique | an edge (1, 2) last met at event 5; the pair meets again at event 6: the create violates uniqueness | find the edge by (owner, user) alone | high, not executed | Tasks.GetOrCreateAsWrittenFailsOnSecondMeeting | Tasks.BefriendAt |
| api/serializers.py:152 | `exclude(close=False, imported=False, user=me)` excludes only rows matching all three, so acquaintance edges of the other user are counted | user 1 has a close edge to 3; user 2 has an acquaintance edge to 3: count 1 | count only the other user's close or imported edges: 0 | medium, not executed | Validation.MutualFriendCountAsWrittenCountsAcquaintances | Validation.MutualFriendCount |
| api/serializers.py:579 | a string is concatenated with the integer `PASSWORD_LEN_MIN`, which raises a TypeError | password "abc": the request fails instead of answering with a validation error | the message "Password must be at least 6 characters" | high, not executed | Validation.ValidatePasswordAsWrittenRaises | Validation.ValidatePassword |
