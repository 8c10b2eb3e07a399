/**
 * The expiry-notification scheduler. Once a day it publishes an "expiring" event for every
 * ACTIVE booking whose notification is PENDING and whose end date is at most seven days
 * away, page by page, marking each PROCESSED when the publish returns and FAILED when it
 * throws. Once an hour it retries one page of FAILED notifications; a retry that fails again
 * counts the attempt, and the third failed attempt ABANDONS the notification.
 *
 * The event publisher is a parameter: `publish(v)` is true when publishing the event for
 * view `v` returns normally and false when it throws. The clock is the parameter `today`.
 */
module ExpiryScheduler {
  import opened Wrappers
  import opened Entities
  import opened Tables
  import opened Sorting
  import opened BookingQueries

  const BATCH_SIZE: nat := 20
  const MAX_RETRIES: nat := 3
  const LOOKAHEAD_DAYS: nat := 7

  /** Whether publishing the event for a view returns normally (true) or throws (false). */
  type Publisher = ExpiringBooking -> bool

  /** The last end date both runs look at: seven days from today. */
  function Horizon(today: Date): Date
  {
    today + LOOKAHEAD_DAYS
  }

  /** What the daily scan selects. */
  function Due(horizon: Date): Criteria
  {
    Criteria(horizon, None, Some(Pending))
  }

  /** What the hourly retry scan selects. */
  function Retryable(horizon: Date): Criteria
  {
    Criteria(horizon, None, Some(Failed))
  }

  /** markBookingAsProcessed / markBookingAsFailed: only the notification status is edited before the save. */
  function Mark(b: Booking, ns: NotificationStatus): (r: Booking)
    ensures r.notificationStatus == ns
    ensures r.(notificationStatus := b.notificationStatus, version := b.version) == b
  {
    SaveBooking(b, b.(notificationStatus := ns))
  }

  /** incrementRetryCount: count one more failed attempt and abandon the notification at the limit. */
  function AfterFailedRetry(b: Booking): (r: Booking)
    ensures r.(notificationStatus := b.notificationStatus, retryCount := b.retryCount, version := b.version) == b
  {
    var retries := GetOr(b.retryCount, 0) + 1;
    var edited := b.(retryCount := Some(retries));
    SaveBooking(b, edited.(notificationStatus := if retries >= MAX_RETRIES then Abandoned else Failed))
  }

  /** A failed retry adds exactly one to the count (a missing count is 0) and abandons at three. */
  lemma FailedRetryCounts(b: Booking)
    ensures var r := AfterFailedRetry(b);
      && r.retryCount == Some(GetOr(b.retryCount, 0) + 1)
      && (r.notificationStatus == Abandoned <==> GetOr(b.retryCount, 0) + 1 >= MAX_RETRIES)
      && (r.notificationStatus != Abandoned ==> r.notificationStatus == Failed)
      && r.version == b.version + 1
  {
    var r := AfterFailedRetry(b);
    assert r.retryCount != b.retryCount;
  }

  /** A notification that starts with no failed retries is abandoned by its third failed retry and not before. */
  lemma ThirdFailedRetryAbandons(b: Booking)
    requires b.retryCount == Some(0) || b.retryCount == None
    ensures AfterFailedRetry(b).notificationStatus == Failed
    ensures AfterFailedRetry(AfterFailedRetry(b)).notificationStatus == Failed
    ensures AfterFailedRetry(AfterFailedRetry(AfterFailedRetry(b))).notificationStatus == Abandoned
    ensures AfterFailedRetry(AfterFailedRetry(AfterFailedRetry(b))).retryCount == Some(MAX_RETRIES)
  {
    FailedRetryCounts(b);
    FailedRetryCounts(AfterFailedRetry(b));
    FailedRetryCounts(AfterFailedRetry(AfterFailedRetry(b)));
  }

  /** What the daily run does to a due booking: PROCESSED if its event was published, FAILED if not. */
  function DailyOutcome(db: Db, id: Id, publish: Publisher): Booking
    requires Joined(db, id)
  {
    Mark(db.bookings[id], if publish(View(db, id)) then Processed else Failed)
  }

  /** The booking table after the daily run that starts from `db`. */
  function DailyRun(db: Db, horizon: Date, publish: Publisher): (r: map<Id, Booking>)
    ensures r.Keys == db.bookings.Keys
  {
    map id | id in db.bookings ::
      if id in MatchingIds(db, Due(horizon)) then DailyOutcome(db, id, publish) else db.bookings[id]
  }

  /** The events the daily run publishes: one per due booking whose publish returns. */
  function DailyPublished(db: Db, horizon: Date, publish: Publisher): set<ExpiringBooking>
  {
    set id | id in MatchingIds(db, Due(horizon)) && publish(View(db, id)) :: View(db, id)
  }

  /** The store after the daily run. */
  function AfterDaily(db: Db, horizon: Date, publish: Publisher): Db
  {
    db.(bookings := DailyRun(db, horizon, publish))
  }

  /** The notification moves only forward: PENDING to PROCESSED or FAILED, FAILED to PROCESSED, FAILED or ABANDONED. */
  predicate Forward(from: NotificationStatus, to: NotificationStatus)
  {
    || from == to
    || (from == Pending && (to == Processed || to == Failed))
    || (from == Failed && (to == Processed || to == Abandoned))
  }

  /** The edit touches the notification status, the retry count and the version, nothing else. */
  predicate NotificationOnly(before: Booking, after: Booking)
  {
    after.(notificationStatus := before.notificationStatus, retryCount := before.retryCount,
           version := before.version) == before
  }

  /** Editing only notification fields changes neither whether a booking joins nor its view. */
  lemma ViewStable(db: Db, bookings: map<Id, Booking>, id: Id)
    requires id in db.bookings && id in bookings && NotificationOnly(db.bookings[id], bookings[id])
    ensures Joined(db.(bookings := bookings), id) == Joined(db, id)
    ensures Joined(db, id) ==> View(db.(bookings := bookings), id) == View(db, id)
  {
  }

  /**
   * The daily run: a due booking whose publish returns becomes PROCESSED, one whose publish
   * throws becomes FAILED, each with its version advanced and its retry count untouched; a
   * failure does not keep the rest from being handled; no other booking changes, so PROCESSED,
   * FAILED and ABANDONED bookings are left alone.
   */
  lemma DailyRunOutcome(db: Db, horizon: Date, publish: Publisher, id: Id)
    requires id in db.bookings
    ensures var b := db.bookings[id];
      var b' := DailyRun(db, horizon, publish)[id];
      && NotificationOnly(b, b') && b'.retryCount == b.retryCount
      && Forward(b.notificationStatus, b'.notificationStatus)
      && (b.notificationStatus != Pending ==> b' == b)
      && (id in MatchingIds(db, Due(horizon)) ==>
            && b'.notificationStatus == (if publish(View(db, id)) then Processed else Failed)
            && b'.version == b.version + 1)
      && (id !in MatchingIds(db, Due(horizon)) ==> b' == b)
  {
  }

  /** After the daily run no ACTIVE booking ending within the horizon is still PENDING. */
  lemma DailyRunClearsDue(db: Db, horizon: Date, publish: Publisher)
    requires Wf(db)
    ensures MatchingIds(AfterDaily(db, horizon, publish), Due(horizon)) == {}
  {
    var db' := AfterDaily(db, horizon, publish);
    forall id | id in db'.bookings
      ensures !Matches(db', id, Due(horizon))
    {
      DailyRunOutcome(db, horizon, publish, id);
      ViewStable(db, db'.bookings, id);
    }
  }

  /**
   * Running the daily job again with nothing changed in between, whatever the publisher does
   * this time, finds an empty first page, publishes nothing and writes nothing.
   */
  lemma DailyRunIdempotent(db: Db, horizon: Date, publish: Publisher, again: Publisher)
    requires Wf(db)
    ensures var db' := AfterDaily(db, horizon, publish);
      && Wf(db')
      && GetUnprocessedExpiringBookings(db', horizon, BATCH_SIZE) == []
      && DailyPublished(db', horizon, again) == {}
      && DailyRun(db', horizon, again) == db'.bookings
  {
    var db' := AfterDaily(db, horizon, publish);
    DailyRunClearsDue(db, horizon, publish);
    forall id | id in db'.bookings
      ensures db'.bookings[id].id == id
    {
      DailyRunOutcome(db, horizon, publish, id);
    }
    assert Wf(db');
  }

  /** The ids of a page of views. */
  function PageIds(page: seq<ExpiringBooking>): set<Id>
  {
    set v | v in page :: v.bookingId
  }

  lemma PageIdsOfPrefix(page: seq<ExpiringBooking>, k: nat)
    requires k < |page|
    ensures PageIds(page[..k + 1]) == PageIds(page[..k]) + {page[k].bookingId}
  {
    assert page[..k + 1] == page[..k] + [page[k]];
  }

  /** Distinct views of one store name distinct bookings. */
  lemma DistinctViewsDistinctIds(db: Db, page: seq<ExpiringBooking>)
    requires Distinct(page)
    requires forall v | v in page :: Joined(db, v.bookingId) && v == View(db, v.bookingId)
    ensures forall i, j | 0 <= i < j < |page| :: page[i].bookingId != page[j].bookingId
  {
    forall i, j | 0 <= i < j < |page|
      ensures page[i].bookingId != page[j].bookingId
    {
      assert page[i] in page && page[j] in page;
    }
  }

  /**
   * The page the hourly retry works on: the first BATCH_SIZE FAILED bookings within the horizon
   * by end date, all of them when there are no more than that.
   */
  function RetryBatch(db: Db, horizon: Date): (r: seq<ExpiringBooking>)
    requires Wf(db)
    ensures forall v | v in r :: v.bookingId in MatchingIds(db, Retryable(horizon)) && v == View(db, v.bookingId)
    ensures |r| <= BATCH_SIZE && Distinct(r)
    ensures forall i, j | 0 <= i < j < |r| :: r[i].bookingId != r[j].bookingId
    ensures |r| <= |Ordered(db, Retryable(horizon))| && r == Ordered(db, Retryable(horizon))[..|r|]
    ensures |r| == BATCH_SIZE || r == Ordered(db, Retryable(horizon))
    ensures r == [] <==> MatchingIds(db, Retryable(horizon)) == {}
    ensures |Ordered(db, Retryable(horizon))| <= BATCH_SIZE ==>
      forall id | id in MatchingIds(db, Retryable(horizon)) :: View(db, id) in r
  {
    var page := GetFailedExpiringBookings(db, horizon, BATCH_SIZE);
    assert forall v | v in page :: Matches(db, v.bookingId, Retryable(horizon));
    DistinctViewsDistinctIds(db, page);
    OrderedHasEveryMatch(db, Retryable(horizon));
    page
  }

  /** What a retry does to one booking: PROCESSED if its event was published, one more failed attempt if not. */
  function RetryOutcome(db: Db, id: Id, publish: Publisher): Booking
    requires Joined(db, id)
  {
    if publish(View(db, id)) then Mark(db.bookings[id], Processed) else AfterFailedRetry(db.bookings[id])
  }

  /** The booking table after retrying the bookings of `page`, which were read from `db`. */
  function RetryApplied(db: Db, page: seq<ExpiringBooking>, publish: Publisher): (r: map<Id, Booking>)
    ensures r.Keys == db.bookings.Keys
  {
    map id | id in db.bookings ::
      if id in PageIds(page) && Joined(db, id) then RetryOutcome(db, id, publish) else db.bookings[id]
  }

  /** The booking table after the hourly retry that starts from `db`. */
  function RetryRun(db: Db, horizon: Date, publish: Publisher): (r: map<Id, Booking>)
    requires Wf(db)
    ensures r.Keys == db.bookings.Keys
  {
    RetryApplied(db, RetryBatch(db, horizon), publish)
  }

  /** The views of `page` whose publish returns, in page order. */
  function PublishedOf(page: seq<ExpiringBooking>, publish: Publisher): (r: seq<ExpiringBooking>)
    ensures forall v :: v in r <==> v in page && publish(v)
    ensures Distinct(page) ==> Distinct(r)
    decreases |page|
  {
    if page == [] then []
    else
      var last := page[|page| - 1];
      var init := page[..|page| - 1];
      assert page == init + [last];
      assert Distinct(page) ==> last !in init;
      PublishedOf(init, publish) + if publish(last) then [last] else []
  }

  /** The events the hourly retry publishes, in the order it publishes them. */
  function RetryPublished(db: Db, horizon: Date, publish: Publisher): seq<ExpiringBooking>
    requires Wf(db)
  {
    PublishedOf(RetryBatch(db, horizon), publish)
  }

  /** A page has no more distinct ids than views. */
  lemma {:induction false} PageIdsBound(page: seq<ExpiringBooking>)
    ensures |PageIds(page)| <= |page|
  {
    if page != [] {
      PageIdsBound(page[1..]);
      assert PageIds(page) == PageIds(page[1..]) + {page[0].bookingId} by {
        assert forall v | v in page :: v == page[0] || v in page[1..];
      }
    }
  }

  /**
   * The hourly retry: it changes only bookings that were FAILED, ACTIVE and ending within the
   * horizon; a retry whose publish returns makes the booking PROCESSED and leaves its retry count,
   * one whose publish throws adds one to the count (a missing count is 0) and ABANDONS the
   * notification when the count reaches three, otherwise keeps it FAILED. PENDING, PROCESSED and
   * ABANDONED bookings are left alone.
   */
  lemma RetryRunOutcome(db: Db, horizon: Date, publish: Publisher, id: Id)
    requires Wf(db) && id in db.bookings
    ensures var b := db.bookings[id];
      var b' := RetryRun(db, horizon, publish)[id];
      && NotificationOnly(b, b')
      && Forward(b.notificationStatus, b'.notificationStatus)
      && (b' != b ==> Matches(db, id, Retryable(horizon)))
      && (b.notificationStatus != Failed ==> b' == b)
      && (b' != b && b'.notificationStatus == Processed ==> b'.retryCount == b.retryCount)
      && (b' != b && b'.notificationStatus != Processed ==>
            && b'.retryCount == Some(GetOr(b.retryCount, 0) + 1)
            && (b'.notificationStatus == Abandoned <==> GetOr(b.retryCount, 0) + 1 >= MAX_RETRIES))
      && (id in PageIds(RetryBatch(db, horizon)) ==>
            && Joined(db, id)
            && b' == if publish(View(db, id)) then Mark(b, Processed) else AfterFailedRetry(b))
      && (id !in PageIds(RetryBatch(db, horizon)) ==> b' == b)
  {
    var b := db.bookings[id];
    var b' := RetryRun(db, horizon, publish)[id];
    var retried := PageIds(RetryBatch(db, horizon));
    if id in retried && Joined(db, id) {
      var v :| v in RetryBatch(db, horizon) && v.bookingId == id;
      FailedRetryCounts(b);
    }
  }

  /** The bookings a run changed. */
  function Changed(before: map<Id, Booking>, after: map<Id, Booking>): set<Id>
  {
    set id | id in before && id in after && after[id] != before[id]
  }

  /** The hourly retry changes at most BATCH_SIZE bookings. */
  lemma RetryRunBounded(db: Db, horizon: Date, publish: Publisher)
    requires Wf(db)
    ensures |Changed(db.bookings, RetryRun(db, horizon, publish))| <= BATCH_SIZE
  {
    var after := RetryRun(db, horizon, publish);
    var changed := Changed(db.bookings, after);
    var retried := PageIds(RetryBatch(db, horizon));
    forall id | id in changed
      ensures id in retried
    {
    }
    PageIdsBound(RetryBatch(db, horizon));
    SubsetCardinality(changed, retried);
  }

  lemma SubsetCardinality<T>(a: set<T>, b: set<T>)
    requires a <= b
    ensures |a| <= |b|
  {
    assert b == a + (b - a);
  }

  /**
   * Part-way through the daily run: the bookings in `done` hold their outcome and every other
   * booking is as it was at the start.
   */
  ghost predicate DailyState(db0: Db, horizon: Date, publish: Publisher, bookings: map<Id, Booking>, done: set<Id>)
  {
    && done <= MatchingIds(db0, Due(horizon))
    && bookings.Keys == db0.bookings.Keys
    && (forall id | id in bookings ::
          bookings[id] == if id in done then DailyOutcome(db0, id, publish) else db0.bookings[id])
  }

  /** Part-way through, the daily scan selects exactly the due bookings not yet done, with unchanged views. */
  lemma DailyStateScan(db0: Db, horizon: Date, publish: Publisher, bookings: map<Id, Booking>, done: set<Id>)
    requires Wf(db0) && DailyState(db0, horizon, publish, bookings, done)
    ensures Wf(db0.(bookings := bookings))
    ensures MatchingIds(db0.(bookings := bookings), Due(horizon)) == MatchingIds(db0, Due(horizon)) - done
    ensures forall id | id in MatchingIds(db0.(bookings := bookings), Due(horizon)) ::
      View(db0.(bookings := bookings), id) == View(db0, id) && bookings[id] == db0.bookings[id]
  {
    var db := db0.(bookings := bookings);
    forall id | id in bookings
      ensures Joined(db, id) == Joined(db0, id)
      ensures Joined(db0, id) ==> View(db, id) == View(db0, id)
      ensures bookings[id].id == id
      ensures Matches(db, id, Due(horizon)) <==> id in MatchingIds(db0, Due(horizon)) && id !in done
    {
      DailyRunOutcome(db0, horizon, publish, id);
      ViewStable(db0, bookings, id);
    }
  }

  /** The events published for the bookings in `done`. */
  ghost function PublishedFor(db0: Db, horizon: Date, publish: Publisher, done: set<Id>): set<ExpiringBooking>
  {
    set id | id in done && id in MatchingIds(db0, Due(horizon)) && publish(View(db0, id)) :: View(db0, id)
  }

  /** The state the daily run ends in, once every due booking is done. */
  lemma DailyStateComplete(db0: Db, horizon: Date, publish: Publisher, bookings: map<Id, Booking>)
    requires DailyState(db0, horizon, publish, bookings, MatchingIds(db0, Due(horizon)))
    ensures bookings == DailyRun(db0, horizon, publish)
    ensures PublishedFor(db0, horizon, publish, MatchingIds(db0, Due(horizon))) == DailyPublished(db0, horizon, publish)
  {
  }

  /** Publishing the event of a booking not yet done adds a new event to those published. */
  lemma PublishedGrows(db0: Db, horizon: Date, publish: Publisher, done: set<Id>, id: Id,
                       published: seq<ExpiringBooking>)
    requires id in MatchingIds(db0, Due(horizon)) && id !in done && publish(View(db0, id))
    requires Distinct(published) && (set v | v in published) == PublishedFor(db0, horizon, publish, done)
    ensures Distinct(published + [View(db0, id)])
    ensures (set v | v in published + [View(db0, id)]) == PublishedFor(db0, horizon, publish, done + {id})
  {
    var v := View(db0, id);
    assert PublishedFor(db0, horizon, publish, done + {id}) == PublishedFor(db0, horizon, publish, done) + {v};
  }

  /** Handling one due booking that is not yet done moves it into `done`. */
  lemma DailyStep(db0: Db, horizon: Date, publish: Publisher, bookings: map<Id, Booking>, done: set<Id>, id: Id)
    requires DailyState(db0, horizon, publish, bookings, done)
    requires id in MatchingIds(db0, Due(horizon)) && id !in done
    ensures id in bookings && bookings[id] == db0.bookings[id]
    ensures DailyState(db0, horizon, publish, bookings[id := DailyOutcome(db0, id, publish)], done + {id})
  {
  }

  /** Every view on the first due page is of a due booking not yet done, and the page is not empty while any remains. */
  lemma DailyPage(db0: Db, horizon: Date, publish: Publisher, bookings: map<Id, Booking>, done: set<Id>)
    requires Wf(db0) && DailyState(db0, horizon, publish, bookings, done)
    ensures Wf(db0.(bookings := bookings))
    ensures var page := GetUnprocessedExpiringBookings(db0.(bookings := bookings), horizon, BATCH_SIZE);
      && (forall j | 0 <= j < |page| ::
            page[j].bookingId in MatchingIds(db0, Due(horizon)) && page[j].bookingId !in done
            && page[j] == View(db0, page[j].bookingId))
      && (forall i, j | 0 <= i < j < |page| :: page[i].bookingId != page[j].bookingId)
      && (page == [] <==> done == MatchingIds(db0, Due(horizon)))
  {
    var db := db0.(bookings := bookings);
    DailyStateScan(db0, horizon, publish, bookings, done);
    var page := GetUnprocessedExpiringBookings(db, horizon, BATCH_SIZE);
    DistinctViewsDistinctIds(db, page);
    forall j | 0 <= j < |page|
      ensures page[j].bookingId in MatchingIds(db0, Due(horizon)) && page[j].bookingId !in done
      ensures page[j] == View(db0, page[j].bookingId)
    {
      assert page[j] in page;
      assert page[j].bookingId in MatchingIds(db, Due(horizon));
    }
  }

  /** Part-way through the daily run, with the events published so far and their count. */
  ghost predicate DailyProgress(db0: Db, horizon: Date, publish: Publisher, bookings: map<Id, Booking>,
                                done: set<Id>, published: seq<ExpiringBooking>, count: nat)
  {
    && DailyState(db0, horizon, publish, bookings, done)
    && Distinct(published) && count == |published|
    && (set v | v in published) == PublishedFor(db0, horizon, publish, done)
  }

  /** Handling one due booking not yet done: it gets its outcome, and its event is added if published. */
  lemma DailyProgressStep(db0: Db, horizon: Date, publish: Publisher, bookings: map<Id, Booking>,
                          done: set<Id>, published: seq<ExpiringBooking>, count: nat, id: Id)
    requires DailyProgress(db0, horizon, publish, bookings, done, published, count)
    requires id in MatchingIds(db0, Due(horizon)) && id !in done
    ensures id in bookings && bookings[id] == db0.bookings[id]
    ensures var bookings' := bookings[id := DailyOutcome(db0, id, publish)];
      if publish(View(db0, id)) then
        DailyProgress(db0, horizon, publish, bookings', done + {id}, published + [View(db0, id)], count + 1)
      else
        DailyProgress(db0, horizon, publish, bookings', done + {id}, published, count)
  {
    DailyStep(db0, horizon, publish, bookings, done, id);
    if publish(View(db0, id)) {
      PublishedGrows(db0, horizon, publish, done, id, published);
    } else {
      assert PublishedFor(db0, horizon, publish, done + {id}) == PublishedFor(db0, horizon, publish, done);
    }
  }

  /** Retrying the next booking of the page extends the retried prefix by one. */
  lemma RetryAppliedStep(db: Db, page: seq<ExpiringBooking>, publish: Publisher, k: nat)
    requires k < |page|
    requires forall v | v in page :: Joined(db, v.bookingId) && v == View(db, v.bookingId)
    requires forall i, j | 0 <= i < j < |page| :: page[i].bookingId != page[j].bookingId
    ensures page[k].bookingId in RetryApplied(db, page[..k], publish)
    ensures RetryApplied(db, page[..k], publish)[page[k].bookingId] == db.bookings[page[k].bookingId]
    ensures publish(page[k]) ==>
      RetryApplied(db, page[..k + 1], publish)
      == RetryApplied(db, page[..k], publish)[page[k].bookingId := Mark(db.bookings[page[k].bookingId], Processed)]
    ensures !publish(page[k]) ==>
      RetryApplied(db, page[..k + 1], publish)
      == RetryApplied(db, page[..k], publish)[page[k].bookingId := AfterFailedRetry(db.bookings[page[k].bookingId])]
    ensures PublishedOf(page[..k + 1], publish)
         == PublishedOf(page[..k], publish) + (if publish(page[k]) then [page[k]] else [])
  {
    assert page[k] in page;
    PageIdsOfPrefix(page, k);
    assert page[..k + 1][..k] == page[..k];
  }

  /** Retrying an empty page changes nothing. */
  lemma RetryAppliedNone(db: Db, publish: Publisher)
    ensures RetryApplied(db, [], publish) == db.bookings
  {
    assert PageIds([]) == {};
  }

  /** The retry keeps the store well formed. */
  lemma RetryRunKeepsWf(db: Db, horizon: Date, publish: Publisher)
    requires Wf(db)
    ensures Wf(db.(bookings := RetryRun(db, horizon, publish)))
  {
    forall id | id in db.bookings
      ensures RetryRun(db, horizon, publish)[id].id == id
    {
      RetryRunOutcome(db, horizon, publish, id);
    }
  }

  class BookingExpiryScheduler {
    const store: Database

    constructor (store: Database)
      ensures this.store == store
    {
      this.store := store;
    }

    method MarkBookingAsProcessed(bookingId: Id)
      requires bookingId in store.bookings
      modifies store`bookings
      ensures store.bookings == old(store.bookings)[bookingId := Mark(old(store.bookings)[bookingId], Processed)]
    {
      var booking := store.bookings[bookingId];
      store.bookings := store.bookings[bookingId := SaveBooking(booking, booking.(notificationStatus := Processed))];
    }

    method MarkBookingAsFailed(bookingId: Id)
      requires bookingId in store.bookings
      modifies store`bookings
      ensures store.bookings == old(store.bookings)[bookingId := Mark(old(store.bookings)[bookingId], Failed)]
    {
      var booking := store.bookings[bookingId];
      store.bookings := store.bookings[bookingId := SaveBooking(booking, booking.(notificationStatus := Failed))];
    }

    method IncrementRetryCount(bookingId: Id)
      requires bookingId in store.bookings
      modifies store`bookings
      ensures store.bookings == old(store.bookings)[bookingId := AfterFailedRetry(old(store.bookings)[bookingId])]
    {
      var booking := store.bookings[bookingId];
      var currentRetries := if booking.retryCount.Some? then booking.retryCount.value else 0;
      var edited := booking.(retryCount := Some(currentRetries + 1));
      if currentRetries + 1 >= MAX_RETRIES {
        edited := edited.(notificationStatus := Abandoned);
      } else {
        edited := edited.(notificationStatus := Failed);
      }
      store.bookings := store.bookings[bookingId := SaveBooking(booking, edited)];
    }

    /**
     * The for loop of checkExpiringBookings: publish and mark each booking of one page. A
     * publish that throws marks that booking FAILED and the loop goes on with the next.
     */
    method PublishBatch(batch: seq<ExpiringBooking>, horizon: Date, publish: Publisher,
                        ghost db0: Db, ghost done0: set<Id>, published0: seq<ExpiringBooking>, count0: nat)
      returns (published: seq<ExpiringBooking>, processedCount: nat, ghost done: set<Id>)
      requires store.Snapshot() == db0.(bookings := store.bookings)
      requires DailyProgress(db0, horizon, publish, store.bookings, done0, published0, count0)
      requires forall j | 0 <= j < |batch| ::
        && batch[j].bookingId in MatchingIds(db0, Due(horizon)) && batch[j].bookingId !in done0
        && batch[j] == View(db0, batch[j].bookingId)
      requires forall i, j | 0 <= i < j < |batch| :: batch[i].bookingId != batch[j].bookingId
      modifies store`bookings
      ensures store.Snapshot() == db0.(bookings := store.bookings)
      ensures DailyProgress(db0, horizon, publish, store.bookings, done, published, processedCount)
      ensures done == done0 + PageIds(batch)
    {
      published, processedCount, done := published0, count0, done0;
      for k := 0 to |batch|
        invariant DailyProgress(db0, horizon, publish, store.bookings, done, published, processedCount)
        invariant done == done0 + PageIds(batch[..k])
        invariant forall j | k <= j < |batch| :: batch[j].bookingId !in done
      {
        var booking := batch[k];
        ghost var id := booking.bookingId;
        DailyProgressStep(db0, horizon, publish, store.bookings, done, published, processedCount, id);
        if publish(booking) {
          published := published + [booking];
          MarkBookingAsProcessed(booking.bookingId);
          processedCount := processedCount + 1;
        } else {
          MarkBookingAsFailed(booking.bookingId);
        }
        done := done + {id};
        PageIdsOfPrefix(batch, k);
      }
      assert batch[..|batch|] == batch;
    }

    /**
     * checkExpiringBookings: scan the first page of due bookings again and again until it
     * comes back empty, publishing and marking each booking of each page. The run ends
     * because every page takes its bookings out of the due set.
     */
    method CheckExpiringBookings(today: Date, publish: Publisher)
      returns (published: seq<ExpiringBooking>, processedCount: nat)
      requires store.Valid()
      modifies store`bookings
      ensures store.Valid()
      ensures store.bookings == DailyRun(old(store.Snapshot()), Horizon(today), publish)
      ensures Distinct(published) && processedCount == |published|
      ensures (set v | v in published) == DailyPublished(old(store.Snapshot()), Horizon(today), publish)
    {
      ghost var db0 := store.Snapshot();
      var horizon := Horizon(today);
      ghost var due := MatchingIds(db0, Due(horizon));
      ghost var done: set<Id> := {};
      published, processedCount := [], 0;
      while true
        invariant Wf(db0) && store.Snapshot() == db0.(bookings := store.bookings)
        invariant DailyProgress(db0, horizon, publish, store.bookings, done, published, processedCount)
        decreases due - done
      {
        DailyPage(db0, horizon, publish, store.bookings, done);
        var batch := GetUnprocessedExpiringBookings(store.Snapshot(), horizon, BATCH_SIZE);
        if batch == [] {
          break;
        }
        ghost var doneBefore := done;
        published, processedCount, done :=
          PublishBatch(batch, horizon, publish, db0, done, published, processedCount);
        assert batch[0].bookingId in PageIds(batch);
      }
      DailyStateScan(db0, horizon, publish, store.bookings, done);
      DailyStateComplete(db0, horizon, publish, store.bookings);
    }

    /**
     * The for loop of retryFailedNotifications: publish each booking of the page again; mark
     * it PROCESSED when that returns, count a failed attempt when it throws.
     */
    method RetryPage(page: seq<ExpiringBooking>, publish: Publisher, ghost db0: Db)
      returns (published: seq<ExpiringBooking>, retriedCount: nat)
      requires store.bookings == db0.bookings
      requires forall v | v in page :: Joined(db0, v.bookingId) && v == View(db0, v.bookingId)
      requires forall i, j | 0 <= i < j < |page| :: page[i].bookingId != page[j].bookingId
      modifies store`bookings
      ensures store.bookings == RetryApplied(db0, page, publish)
      ensures published == PublishedOf(page, publish) && retriedCount == |published|
    {
      RetryAppliedNone(db0, publish);
      published, retriedCount := [], 0;
      for k := 0 to |page|
        invariant store.bookings == RetryApplied(db0, page[..k], publish)
        invariant published == PublishedOf(page[..k], publish) && retriedCount == |published|
      {
        var booking := page[k];
        RetryAppliedStep(db0, page, publish, k);
        if publish(booking) {
          published := published + [booking];
          MarkBookingAsProcessed(booking.bookingId);
          retriedCount := retriedCount + 1;
        } else {
          IncrementRetryCount(booking.bookingId);
        }
      }
      assert page[..|page|] == page;
    }

    /**
     * retryFailedNotifications: one page of FAILED bookings is read; an empty page ends the
     * run; otherwise each booking of it is retried.
     */
    method RetryFailedNotifications(today: Date, publish: Publisher)
      returns (published: seq<ExpiringBooking>, retriedCount: nat)
      requires store.Valid()
      modifies store`bookings
      ensures store.Valid()
      ensures store.bookings == RetryRun(old(store.Snapshot()), Horizon(today), publish)
      ensures published == RetryPublished(old(store.Snapshot()), Horizon(today), publish)
      ensures retriedCount == |published|
    {
      ghost var db0 := store.Snapshot();
      var horizon := Horizon(today);
      var failedBatch := GetFailedExpiringBookings(store.Snapshot(), horizon, BATCH_SIZE);
      assert failedBatch == RetryBatch(db0, horizon);
      RetryRunKeepsWf(db0, horizon, publish);
      if failedBatch == [] {
        RetryAppliedNone(db0, publish);
        assert store.Snapshot() == db0.(bookings := RetryRun(db0, horizon, publish));
        return [], 0;
      }
      published, retriedCount := RetryPage(failedBatch, publish, db0);
      assert store.Snapshot() == db0.(bookings := RetryRun(db0, horizon, publish));
    }
  }
}
