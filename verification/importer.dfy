/** Importing events from the external listings feed: one item at a time, a
    page of items at a time, and a category page by page, each with a cap on
    how many events are imported. The feed itself and everything an import
    fetches are outside the model: what each import attempt does is given as
    part of the item. */
module Importer {

  /** How an import attempt that passes the skip rule ends: it completes, or
      it raises before or after the import record is written (the record
      marks the source id as imported). */
  datatype Attempt = Completes | FailsBeforeRecord | FailsAfterRecord

  /** A listing item: its id at the source, whether it has an image, and how
      its import would end. */
  datatype Item = Item(sourceId: string, hasImage: bool, attempt: Attempt)

  /** One page of the feed: the page count it reports, and its items. */
  datatype Page = Page(pageCount: int, items: seq<Item>)

  /** The skip rule: items without an image and items already imported are
      not imported. */
  predicate Skipped(imported: set<string>, item: Item) {
    !item.hasImage || item.sourceId in imported
  }

  /** One import on the ledger of imported source ids: whether it succeeded,
      and the ledger afterwards. */
  function ImportOne(imported: set<string>, item: Item): (r: (set<string>, bool))
    ensures r.1 <==> !Skipped(imported, item) && item.attempt == Completes
    ensures r.1 ==> item.sourceId !in imported && r.0 == imported + {item.sourceId}
    ensures Skipped(imported, item) ==> r.0 == imported
  {
    if Skipped(imported, item) then (imported, false)
    else if item.attempt == FailsBeforeRecord then (imported, false)
    else (imported + {item.sourceId}, item.attempt == Completes)
  }

  /** The result of importing a page: the ledger and the number of events
      imported. */
  datatype PageResult = PageResult(imported: set<string>, count: nat)

  /** The page loop, from the current item on, with `count` imports so far:
      it stops right after the import that brings `base + count` up to the
      cap. */
  function ImportPage(imported: set<string>, items: seq<Item>, base: int, maxEvents: int, count: nat): PageResult
    decreases |items|
  {
    if items == [] then PageResult(imported, count)
    else
      var (next, ok) := ImportOne(imported, items[0]);
      if ok && base + count + 1 >= maxEvents then PageResult(next, count + 1)
      else ImportPage(next, items[1..], base, maxEvents, if ok then count + 1 else count)
  }

  /** A page never imports more than its items, never passes the cap when it
      starts below it, and only ever adds to the ledger. */
  lemma {:induction false} ImportPageBounds(imported: set<string>, items: seq<Item>, base: int, maxEvents: int, count: nat)
    requires base + count < maxEvents
    ensures var r := ImportPage(imported, items, base, maxEvents, count);
      && count <= r.count <= count + |items|
      && base + r.count <= maxEvents
      && imported <= r.imported
    decreases |items|
  {
    if items != [] {
      var (next, ok) := ImportOne(imported, items[0]);
      if !(ok && base + count + 1 >= maxEvents) {
        ImportPageBounds(next, items[1..], base, maxEvents, if ok then count + 1 else count);
      }
    }
  }

  /** Every event counted is a new source id in the ledger. */
  lemma {:induction false} ImportPageCountsNewIds(imported: set<string>, items: seq<Item>, base: int, maxEvents: int, count: nat)
    ensures var r := ImportPage(imported, items, base, maxEvents, count);
      imported <= r.imported && r.count - count <= |r.imported - imported|
    decreases |items|
  {
    if items != [] {
      var (next, ok) := ImportOne(imported, items[0]);
      var r := ImportPage(imported, items, base, maxEvents, count);
      if ok && base + count + 1 >= maxEvents {
        assert next - imported == {items[0].sourceId};
      } else {
        var c := if ok then count + 1 else count;
        ImportPageCountsNewIds(next, items[1..], base, maxEvents, c);
        assert r == ImportPage(next, items[1..], base, maxEvents, c);
        assert r.imported - imported == (r.imported - next) + (next - imported);
        assert (r.imported - next) !! (next - imported);
        if ok {
          assert next - imported == {items[0].sourceId};
        }
      }
    }
  }

  /** Pages the feed may serve for one category: `pages[n - 1]` answers page
      n, and no page reports more pages than are served. */
  predicate FeedPages(pages: seq<Page>) {
    |pages| >= 1 && forall n :: 0 <= n < |pages| ==> pages[n].pageCount <= |pages|
  }

  /** Where the category loop stops: the ledger, the number of events
      imported, the next page number and the last reported page count. */
  datatype CategoryResult = CategoryResult(imported: set<string>, eventCount: int, pageNumber: int, pageCount: int)

  /** The category loop from page `pageNumber` on, with the page count last
      reported and `eventCount` events imported so far: each round imports
      one page against the cap and takes the page count that page reports.
      It ends exactly when the page number passes the page count or the cap
      is reached. */
  function CategoryRun(imported: set<string>, pages: seq<Page>, pageNumber: int, pageCount: int, eventCount: int, maxEvents: int): (r: CategoryResult)
    requires FeedPages(pages)
    requires 1 <= pageNumber <= |pages| + 1 && pageCount <= |pages|
    ensures !(r.pageNumber <= r.pageCount && r.eventCount < maxEvents)
    ensures pageNumber <= r.pageNumber
    decreases |pages| + 1 - pageNumber
  {
    if pageNumber <= pageCount && eventCount < maxEvents then
      var page := pages[pageNumber - 1];
      var done := ImportPage(imported, page.items, eventCount, maxEvents, 0);
      CategoryRun(done.imported, pages, pageNumber + 1, page.pageCount, eventCount + done.count, maxEvents)
    else CategoryResult(imported, eventCount, pageNumber, pageCount)
  }

  /** The category loop only adds to the ledger, counts only new source ids,
      and does nothing once the cap is reached. */
  lemma {:induction false} CategoryRunBounds(imported: set<string>, pages: seq<Page>, pageNumber: int, pageCount: int, eventCount: int, maxEvents: int)
    requires FeedPages(pages)
    requires 1 <= pageNumber <= |pages| + 1 && pageCount <= |pages|
    ensures var r := CategoryRun(imported, pages, pageNumber, pageCount, eventCount, maxEvents);
      && imported <= r.imported
      && eventCount <= r.eventCount
      && r.eventCount - eventCount <= |r.imported - imported|
      && (maxEvents <= eventCount ==> r.imported == imported && r.eventCount == eventCount)
    decreases |pages| + 1 - pageNumber
  {
    if pageNumber <= pageCount && eventCount < maxEvents {
      var page := pages[pageNumber - 1];
      var done := ImportPage(imported, page.items, eventCount, maxEvents, 0);
      ImportPageCountsNewIds(imported, page.items, eventCount, maxEvents, 0);
      CategoryRunBounds(done.imported, pages, pageNumber + 1, page.pageCount, eventCount + done.count, maxEvents);
      var r := CategoryRun(done.imported, pages, pageNumber + 1, page.pageCount, eventCount + done.count, maxEvents);
      NewIdsChain(imported, done.imported, r.imported, done.count, r.eventCount - (eventCount + done.count));
    }
  }

  /** New ids counted in two rounds are new ids of the whole. */
  lemma NewIdsChain(a: set<string>, b: set<string>, c: set<string>, n1: int, n2: int)
    requires a <= b <= c && n1 <= |b - a| && n2 <= |c - b|
    ensures n1 + n2 <= |c - a|
  {
    assert c - a == (c - b) + (b - a);
    assert (c - b) !! (b - a);
  }

  /** Started at or below the cap, the category loop never passes it. */
  lemma {:induction false} CategoryRunCap(imported: set<string>, pages: seq<Page>, pageNumber: int, pageCount: int, eventCount: int, maxEvents: int)
    requires FeedPages(pages)
    requires 1 <= pageNumber <= |pages| + 1 && pageCount <= |pages|
    requires eventCount <= maxEvents
    ensures CategoryRun(imported, pages, pageNumber, pageCount, eventCount, maxEvents).eventCount <= maxEvents
    decreases |pages| + 1 - pageNumber
  {
    if pageNumber <= pageCount && eventCount < maxEvents {
      var page := pages[pageNumber - 1];
      var done := ImportPage(imported, page.items, eventCount, maxEvents, 0);
      ImportPageBounds(imported, page.items, eventCount, maxEvents, 0);
      CategoryRunCap(done.imported, pages, pageNumber + 1, page.pageCount, eventCount + done.count, maxEvents);
    }
  }

  class ImportLedger {
    /** Source ids that have an import record. */
    var imported: set<string>

    constructor (imported: set<string>)
      ensures this.imported == imported
    {
      this.imported := imported;
    }

    /** import_event: false, with nothing written, for a skipped item;
        otherwise true exactly when the import completes. A failure after the
        record was written still leaves the record. */
    method ImportEvent(item: Item) returns (ok: bool)
      modifies this
      ensures (imported, ok) == ImportOne(old(imported), item)
      ensures Skipped(old(imported), item) ==> !ok && imported == old(imported)
      ensures !Skipped(old(imported), item) && item.attempt == FailsAfterRecord ==>
        !ok && imported == old(imported) + {item.sourceId}
    {
      if !item.hasImage || item.sourceId in imported {
        return false;
      }
      if item.attempt == FailsBeforeRecord {
        return false;
      }
      imported := imported + {item.sourceId};
      ok := item.attempt == Completes;
    }

    /** import_event_page: imports the items in order, counting successes, and
        stops once `base + count` reaches the cap. */
    method ImportEventPage(items: seq<Item>, base: int, maxEvents: int) returns (count: nat)
      modifies this
      ensures PageResult(imported, count) == ImportPage(old(imported), items, base, maxEvents, 0)
      ensures base < maxEvents ==> count <= |items| && base + count <= maxEvents
    {
      count := 0;
      var i := 0;
      while i < |items|
        invariant 0 <= i <= |items|
        invariant ImportPage(imported, items[i..], base, maxEvents, count) == ImportPage(old(imported), items, base, maxEvents, 0)
      {
        var ok := ImportEvent(items[i]);
        assert items[i..][1..] == items[i + 1..];
        if ok {
          count := count + 1;
          if base + count >= maxEvents {
            break;
          }
        }
        i := i + 1;
      }
      if base < maxEvents {
        ImportPageBounds(old(imported), items, base, maxEvents, 0);
      }
    }

    /** import_event_category: fetches pages 1, 2, ... while the page number is
        within the last reported page count and fewer than `maxEvents` events
        have been imported. `pages[n - 1]` is the feed's answer for page n;
        the feed never reports more pages than it serves. */
    method ImportEventCategory(pages: seq<Page>, maxEvents: int) returns (eventCount: int)
      requires FeedPages(pages)
      modifies this
      ensures var r := CategoryRun(old(imported), pages, 1, 1, 0, maxEvents);
        imported == r.imported && eventCount == r.eventCount
      ensures old(imported) <= imported
      ensures maxEvents <= 0 ==> eventCount == 0 && imported == old(imported)
      ensures maxEvents > 0 ==> 0 <= eventCount <= maxEvents
      ensures eventCount <= |imported - old(imported)|
    {
      eventCount := 0;
      var pageNumber := 1;
      var pageCount := 1;
      while pageNumber <= pageCount && eventCount < maxEvents
        invariant 1 <= pageNumber <= |pages| + 1
        invariant pageCount <= |pages|
        invariant CategoryRun(imported, pages, pageNumber, pageCount, eventCount, maxEvents)
          == CategoryRun(old(imported), pages, 1, 1, 0, maxEvents)
        decreases |pages| + 1 - pageNumber
      {
        var page := pages[pageNumber - 1];
        var count := ImportEventPage(page.items, eventCount, maxEvents);
        pageCount := page.pageCount;
        eventCount := eventCount + count;
        pageNumber := pageNumber + 1;
      }
      CategoryRunBounds(old(imported), pages, 1, 1, 0, maxEvents);
      if maxEvents > 0 {
        CategoryRunCap(old(imported), pages, 1, 1, 0, maxEvents);
      }
    }
  }
}
