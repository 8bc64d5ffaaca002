/**
 * The daily check (omeka_checker.py): fetch the items with media created today, looking
 * back one day at a time while a day yields too few items, and hand a non-empty result to
 * the Discord notifier.
 *
 * The items API is a parameter `fetch`: `fetch(start, end)` is the result of one query for
 * items created in the window from day `start` to day `end`, or None when the request
 * failed. Days are integers and `today` is fixed for the whole run.
 */
module Checker {
  import opened Wrappers
  import opened Items
  import Notifier

  /** One query of the items API for a window of days; None is a failed request. */
  type Fetch = (int, int) -> Option<seq<Item>>

  const LookbackDays: int := 30
  const DefaultMinItems: int := 9

  /** `items and len(items) >= min_items`: judged on one day's own result. */
  predicate Sufficient(items: seq<Item>, minItems: int) {
    |items| > 0 && |items| >= minItems
  }

  /**
   * `get_items_with_media`: query the window; keep a sufficient result; otherwise, while
   * `start` is later than thirty days ago, add the result for the day before, older items last.
   */
  function GetItemsWithMedia(fetch: Fetch, today: int, start: int, end: int, minItems: int): (r: Option<seq<Item>>)
    ensures r.None? <==> fetch(start, end).None?
    ensures r.Some? ==> fetch(start, end).value <= r.value
    ensures fetch(start, end).Some? && Sufficient(fetch(start, end).value, minItems) ==> r == fetch(start, end)
    decreases start - (today - LookbackDays)
  {
    match fetch(start, end)
    case None => None
    case Some(items) =>
      if Sufficient(items, minItems) then Some(items)
      else if start > today - LookbackDays then
        var previous := GetItemsWithMedia(fetch, today, start - 1, start, minItems);
        if previous.Some? && |previous.value| > 0 then Some(items + previous.value) else Some(items)
      else Some(items)
  }

  /** The j-th window a lookback from (start, end) asks for: the first window, then one day at a time. */
  function Query(fetch: Fetch, start: int, end: int, j: nat): Option<seq<Item>> {
    if j == 0 then fetch(start, end) else fetch(start - j, start - j + 1)
  }

  /** Window j ends the lookback: its request failed, it was sufficient, or its day is thirty days ago or older. */
  predicate Stops(fetch: Fetch, today: int, start: int, end: int, minItems: int, j: nat) {
    || Query(fetch, start, end, j).None?
    || Sufficient(Query(fetch, start, end, j).value, minItems)
    || start - j <= today - LookbackDays
  }

  /** How many requests a call makes. */
  function Queries(fetch: Fetch, today: int, start: int, end: int, minItems: int): (q: nat)
    ensures q >= 1
    decreases start - (today - LookbackDays)
  {
    if fetch(start, end).None? || Sufficient(fetch(start, end).value, minItems) || start <= today - LookbackDays then 1
    else 1 + Queries(fetch, today, start - 1, start, minItems)
  }

  /** The items of the first m windows, newest first; a failed window contributes nothing. */
  function Gathered(fetch: Fetch, start: int, end: int, m: nat): seq<Item> {
    if m == 0 then [] else Gathered(fetch, start, end, m - 1) + Query(fetch, start, end, m - 1).GetOr([])
  }

  lemma {:induction false} GatheredShift(fetch: Fetch, start: int, end: int, m: nat)
    ensures Gathered(fetch, start, end, m + 1) == fetch(start, end).GetOr([]) + Gathered(fetch, start - 1, start, m)
  {
    if m > 0 {
      GatheredShift(fetch, start, end, m - 1);
      assert Query(fetch, start, end, m) == Query(fetch, start - 1, start, m - 1);
    }
  }

  /**
   * The lookback stops at the first window that stops it, and at no earlier one: whether to
   * go on depends only on that day's own result, never on what was gathered before.
   */
  lemma {:induction false} QueriesStopAtFirstStop(fetch: Fetch, today: int, start: int, end: int, minItems: int)
    ensures Stops(fetch, today, start, end, minItems, Queries(fetch, today, start, end, minItems) - 1)
    ensures forall j :: 0 <= j < Queries(fetch, today, start, end, minItems) - 1 ==>
      !Stops(fetch, today, start, end, minItems, j)
    decreases start - (today - LookbackDays)
  {
    var q := Queries(fetch, today, start, end, minItems);
    if q > 1 {
      QueriesStopAtFirstStop(fetch, today, start - 1, start, minItems);
      assert Stops(fetch, today, start - 1, start, minItems, q - 2) == Stops(fetch, today, start, end, minItems, q - 1);
      forall j | 0 <= j < q - 1 ensures !Stops(fetch, today, start, end, minItems, j) {
        if j > 0 {
          assert Stops(fetch, today, start - 1, start, minItems, j - 1) == Stops(fetch, today, start, end, minItems, j);
        }
      }
    }
  }

  /**
   * At most one request per day from `start` back to thirty days before today (31 for a run
   * starting today), and every day asked for lies in that range.
   */
  lemma QueriesBound(fetch: Fetch, today: int, start: int, end: int, minItems: int)
    ensures Queries(fetch, today, start, end, minItems) <= 1 + if start > today - LookbackDays then start - (today - LookbackDays) else 0
    ensures start >= today - LookbackDays ==> start - (Queries(fetch, today, start, end, minItems) - 1) >= today - LookbackDays
  {
    var q := Queries(fetch, today, start, end, minItems);
    QueriesStopAtFirstStop(fetch, today, start, end, minItems);
    if q > 1 {
      assert !Stops(fetch, today, start, end, minItems, q - 2);
    }
  }

  /**
   * The result is None exactly when the first request failed; otherwise it is the
   * concatenation, newest day first, of every window asked for, where a failed older day
   * adds nothing (and, being a stop, nothing older is asked for).
   */
  lemma {:induction false} LookbackResult(fetch: Fetch, today: int, start: int, end: int, minItems: int)
    ensures GetItemsWithMedia(fetch, today, start, end, minItems) ==
      if fetch(start, end).None? then None
      else Some(Gathered(fetch, start, end, Queries(fetch, today, start, end, minItems)))
    decreases start - (today - LookbackDays)
  {
    var q := Queries(fetch, today, start, end, minItems);
    if fetch(start, end).Some? {
      if q == 1 {
        assert Gathered(fetch, start, end, 1) == Gathered(fetch, start, end, 0) + fetch(start, end).value;
        assert Gathered(fetch, start, end, 0) == [];
        assert Gathered(fetch, start, end, 1) == fetch(start, end).value;
      } else {
        LookbackResult(fetch, today, start - 1, start, minItems);
        GatheredShift(fetch, start, end, q - 1);
        var items := fetch(start, end).value;
        var previous := GetItemsWithMedia(fetch, today, start - 1, start, minItems);
        var older := Gathered(fetch, start - 1, start, q - 1);
        if previous.None? {
          assert Gathered(fetch, start - 1, start, 1) == Gathered(fetch, start - 1, start, 0) + [];
          assert older == [];
        }
        assert previous.GetOr([]) == older;
        assert items + [] == items;
      }
    }
  }

  /**
   * However many items earlier days add, a day that is short on its own makes the lookback go
   * on: if every day in range has some items but fewer than `minItems`, all of them are
   * asked for and all their items are returned.
   */
  lemma EveryShortDayIsFollowed(fetch: Fetch, today: int, start: int, end: int, minItems: int)
    requires start >= today - LookbackDays
    requires forall j :: 0 <= j <= start - (today - LookbackDays) ==>
      Query(fetch, start, end, j).Some? && 0 < |Query(fetch, start, end, j).value| < minItems
    ensures Queries(fetch, today, start, end, minItems) == start - (today - LookbackDays) + 1
    ensures GetItemsWithMedia(fetch, today, start, end, minItems) ==
      Some(Gathered(fetch, start, end, start - (today - LookbackDays) + 1))
  {
    var q := Queries(fetch, today, start, end, minItems);
    QueriesStopAtFirstStop(fetch, today, start, end, minItems);
    QueriesBound(fetch, today, start, end, minItems);
    LookbackResult(fetch, today, start, end, minItems);
    assert q - 1 <= start - (today - LookbackDays);
    assert Query(fetch, start, end, q - 1).Some? && |Query(fetch, start, end, q - 1).value| < minItems;
    assert Query(fetch, start, end, 0).Some?;
  }

  /** An empty day is never enough, even when `minItems` is zero or negative: the day before is asked for. */
  lemma EmptyDayLooksBack(fetch: Fetch, today: int, start: int, end: int, minItems: int)
    requires fetch(start, end) == Some([]) && start > today - LookbackDays
    ensures GetItemsWithMedia(fetch, today, start, end, minItems) ==
      Some(GetItemsWithMedia(fetch, today, start - 1, start, minItems).GetOr([]))
  {
    var previous := GetItemsWithMedia(fetch, today, start - 1, start, minItems);
    assert [] + previous.GetOr([]) == previous.GetOr([]);
  }

  /** `get_today_items`: the lookback from today's window; an empty result is reported like a failure. */
  function GetTodayItems(fetch: Fetch, today: int): (r: Option<seq<Item>>)
    ensures r.Some? ==> |r.value| > 0
    ensures r.None? <==>
      fetch(today, today + 1).None? ||
      Gathered(fetch, today, today + 1, Queries(fetch, today, today, today + 1, DefaultMinItems)) == []
    ensures r.Some? ==> r.value == Gathered(fetch, today, today + 1, Queries(fetch, today, today, today + 1, DefaultMinItems))
  {
    LookbackResult(fetch, today, today, today + 1, DefaultMinItems);
    var items := GetItemsWithMedia(fetch, today, today, today + 1, DefaultMinItems);
    if items.None? || |items.value| == 0 then None else items
  }

  /** A run from today asks for at most 31 days, today back to thirty days ago. */
  lemma TodayQueriesBound(fetch: Fetch, today: int)
    ensures 1 <= Queries(fetch, today, today, today + 1, DefaultMinItems) <= LookbackDays + 1
  {
    QueriesBound(fetch, today, today, today + 1, DefaultMinItems);
  }

  /** The module's own copy of the thumbnail lookup: medium, else large, else small. */
  function ItemThumbnail(item: Item): (r: Option<string>)
    ensures r == Notifier.Thumbnail(item)
  {
    var thumbnailUrls := item.thumbnails;
    if thumbnailUrls == map[] then None
    else if Truthy(ThumbnailUrl(item, "medium")) then ThumbnailUrl(item, "medium")
    else if Truthy(ThumbnailUrl(item, "large")) then ThumbnailUrl(item, "large")
    else ThumbnailUrl(item, "small")
  }

  /** How a run ended, as its log lines tell. */
  datatype RunOutcome =
    | NoItems             // "Failed to fetch items": the request failed or nothing was found
    | ConnectFailed       // "Failed to connect to Discord"
    | Notified(delivered: nat)

  /**
   * `main`: a notifier is created, and something sent, only for a non-empty list of items.
   * `log` is what the Discord channel received; `failedSends` counts the sends that raised.
   */
  method DailyCheck(fetch: Fetch, today: int) returns (outcome: RunOutcome, log: seq<Notifier.Event>, ghost failedSends: nat)
    ensures outcome.NoItems? <==> GetTodayItems(fetch, today).None?
    ensures !outcome.Notified? ==> log == [] && failedSends == 0
    ensures outcome.Notified? ==>
      var items := GetTodayItems(fetch, today).value;
      && items != []
      && outcome.delivered <= |Notifier.Plan(items)|
      && log == Notifier.Trace(Notifier.Plan(items), outcome.delivered)
      && (outcome.delivered < |Notifier.Plan(items)| <==> failedSends == 1)
      && (outcome.delivered == |Notifier.Plan(items)| <==> failedSends == 0)
  {
    var items := GetTodayItems(fetch, today);
    if items.None? {
      return NoItems, [], 0;
    }
    var notifier := new Notifier.DiscordNotifier();
    var connected: bool := *;
    if !connected {
      return ConnectFailed, [], 0;
    }
    var delivered := notifier.SendNotification(items.value);
    return Notified(delivered), notifier.log, notifier.failedSends;
  }
}
