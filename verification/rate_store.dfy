/** The exchange-rate table as a date-keyed map: the daily upsert that
    `updateRate` performs, the latest-rate lookup of `getCurrentRate`, and the
    date-window selection the series endpoints read through. */
module RateStore {

  import opened Wrappers
  import opened Calendar
  import opened ChartSeries

  /** The table: `date` is its unique key, so a day holds at most one rate. */
  type Store = map<Day, real>

  /** The daily write: insert the day's rate, or overwrite it when the day
      is already present (the table's date key makes it an upsert). */
  function Upsert(store: Store, date: Day, rate: real): (r: Store)
    ensures date in r && r[date] == rate
    ensures forall d :: d != date ==> (d in r <==> d in store)
    ensures forall d :: d != date && d in store ==> r[d] == store[d]
    ensures date in store ==> |r| == |store|
    ensures date !in store ==> |r| == |store| + 1
  {
    var r := store[date := rate];
    assert r.Keys == store.Keys + {date};
    r
  }

  /** Writing the same day twice keeps one entry, holding the later rate. */
  lemma UpsertLastWriteWins(store: Store, date: Day, first: real, second: real)
    ensures Upsert(Upsert(store, date, first), date, second) == Upsert(store, date, second)
    ensures |Upsert(Upsert(store, date, first), date, second)| == |Upsert(store, date, first)|
  {
  }

  /** `d` is the newest day in the table. */
  predicate IsLatest(store: Store, d: Day) {
    d in store && forall k :: k in store ==> k <= d
  }

  lemma LatestIsUnique(store: Store, d1: Day, d2: Day)
    requires IsLatest(store, d1) && IsLatest(store, d2)
    ensures d1 == d2
  {
  }

  /** Upserting a day no older than any stored day makes it the newest. */
  lemma UpsertNewestBecomesLatest(store: Store, date: Day, rate: real)
    requires forall k :: k in store ==> k <= date
    ensures IsLatest(Upsert(store, date, rate), date)
  {
  }

  /** The body of the current-rate reply: no data, or the newest rate. */
  datatype CurrentRateReply = NoData | Current(rate: real)

  /** The current-rate lookup: the rate of the newest day, or "No Data" for
      an empty table. */
  method CurrentRate(store: Store) returns (reply: CurrentRateReply)
    ensures reply.NoData? <==> |store| == 0
    ensures reply.Current? ==> exists d :: IsLatest(store, d) && reply.rate == store[d]
  {
    if |store| == 0 {
      return NoData;
    }
    var keys := store.Keys;
    assert |keys| == |store|;
    NonEmptyHasDay(keys);
    var best :| best in keys;
    keys := keys - {best};
    while keys != {}
      invariant keys <= store.Keys
      invariant best in store
      invariant forall k :: k in store && k !in keys ==> k <= best
      decreases |keys|
    {
      NonEmptyHasDay(keys);
      var k :| k in keys;
      if k > best {
        best := k;
      }
      keys := keys - {k};
    }
    return Current(store[best]);
  }

  /** What the rate feed answered: a rate, an unsuccessful reply that may
      carry an explanation, or no reply at all (the request threw). */
  datatype FeedReply = FeedRate(usdToIrr: real) | FeedUnsuccessful(info: Option<string>) | FeedUnreachable

  /** The success body of the update endpoint. */
  datatype UpdateReply = UpdateReply(message: string, date: Day, rate: real)

  /** `updateRate`: store the feed's rate under yesterday's date. The
      `writeFails` flag stands for the database rejecting the write. */
  function UpdateRate(store: Store, today: Day, feed: FeedReply, writeFails: bool): (out: (Store, Result<UpdateReply, string>))
    ensures out.1.Success? <==> feed.FeedRate? && !writeFails
    ensures out.1.Failure? ==> out.0 == store
    ensures feed.FeedUnsuccessful? ==>
      out.1 == Failure("Failed to fetch rate from fixer.io: " + (if feed.info.Some? then feed.info.value else "Unknown error"))
    ensures feed.FeedUnreachable? ==> out.1 == Failure("Internal server error")
    ensures feed.FeedRate? && writeFails ==> out.1 == Failure("Failed to update exchange rate")
    ensures out.1.Success? ==>
      && out.1.value.date == today - 1
      && out.1.value.rate == feed.usdToIrr
      && today - 1 in out.0 && out.0[today - 1] == feed.usdToIrr
      && (forall d :: d != today - 1 ==> (d in out.0 <==> d in store))
      && (forall d :: d != today - 1 && d in store ==> out.0[d] == store[d])
  {
    match feed
    case FeedUnreachable => (store, Failure("Internal server error"))
    case FeedUnsuccessful(info) =>
      (store, Failure("Failed to fetch rate from fixer.io: " + (if info.Some? then info.value else "Unknown error")))
    case FeedRate(rate) =>
      if writeFails then (store, Failure("Failed to update exchange rate"))
      else (Upsert(store, today - 1, rate), Success(UpdateReply("Exchange rate updated", today - 1, rate)))
  }

  /** Running the update twice on one day leaves a single entry for
      yesterday: re-ingesting a day overwrites it and never duplicates it. */
  lemma UpdateTwiceKeepsOneEntry(store: Store, today: Day, first: real, second: real)
    ensures var once := UpdateRate(store, today, FeedRate(first), false).0;
            var twice := UpdateRate(once, today, FeedRate(second), false).0;
            |twice| == |once| && twice == Upsert(store, today - 1, second)
  {
  }

  /** Reads the table's rows inside a window, in no particular order. */
  method SelectWindow(store: Store, w: Window) returns (rows: seq<RateRow>)
    ensures DistinctDates(rows)
    ensures forall i :: 0 <= i < |rows| ==>
      rows[i].date in store && w.Contains(rows[i].date) && rows[i].rate == store[rows[i].date]
    ensures forall d :: d in store && w.Contains(d) ==> exists i :: 0 <= i < |rows| && rows[i].date == d
  {
    rows := [];
    var keys := store.Keys;
    while keys != {}
      invariant keys <= store.Keys
      invariant DistinctDates(rows)
      invariant forall i :: 0 <= i < |rows| ==>
        rows[i].date in store && rows[i].date !in keys && w.Contains(rows[i].date) && rows[i].rate == store[rows[i].date]
      invariant forall d :: d in store && d !in keys && w.Contains(d) ==> exists i :: 0 <= i < |rows| && rows[i].date == d
      decreases |keys|
    {
      NonEmptyHasDay(keys);
      var k :| k in keys;
      if w.Contains(k) {
        var before := rows;
        rows := rows + [RateRow(k, store[k])];
        assert rows[|before|].date == k;
        forall d | d in store && d !in keys - {k} && w.Contains(d)
          ensures exists i :: 0 <= i < |rows| && rows[i].date == d
        {
          if d != k {
            var i :| 0 <= i < |before| && before[i].date == d;
            assert rows[i].date == d;
          }
        }
      }
      keys := keys - {k};
    }
  }

  /** The chart of a window's rows plots exactly the window's days, each at
      its stored rate. */
  lemma WindowChartFacts(store: Store, w: Window, rows: seq<RateRow>)
    requires forall i :: 0 <= i < |rows| ==>
      rows[i].date in store && w.Contains(rows[i].date) && rows[i].rate == store[rows[i].date]
    requires forall d :: d in store && w.Contains(d) ==> exists i :: 0 <= i < |rows| && rows[i].date == d
    ensures var c := FormatChartData(rows);
      && (forall i :: 0 <= i < |c.labels| ==>
            c.labels[i] in store && w.Contains(c.labels[i]) && c.datasets[0].data[i] == store[c.labels[i]])
      && (forall d :: d in store && w.Contains(d) ==> d in c.labels)
  {
    var c := FormatChartData(rows);
    ChartPointsAreRows(rows);
    forall i | 0 <= i < |c.labels|
      ensures c.labels[i] in store && w.Contains(c.labels[i]) && c.datasets[0].data[i] == store[c.labels[i]]
    {
      var k :| 0 <= k < |rows| && rows[k] == RateRow(c.labels[i], c.datasets[0].data[i]);
    }
    forall d | d in store && w.Contains(d) ensures d in c.labels {
      var k :| 0 <= k < |rows| && rows[k].date == d;
    }
  }

  /** The week, 30-day and 90-day endpoints: the chart of the rows dated
      from `days` days ago up to yesterday. */
  method WindowSeries(store: Store, today: Day, days: nat) returns (c: ChartData)
    ensures |c.datasets| == 1 && c.datasets[0].name == SeriesLabel
    ensures c.datasets[0].borderColor == BorderColor && !c.datasets[0].fill && c.datasets[0].tension == Tension
    ensures |c.datasets[0].data| == |c.labels|
    ensures LabelsStrictlyAscending(c.labels)
    ensures forall d :: d in c.labels <==> d in store && today - days <= d < today
    ensures forall i :: 0 <= i < |c.labels| ==> c.labels[i] in store && c.datasets[0].data[i] == store[c.labels[i]]
  {
    var w := TrailingWindow(today, days);
    var rows := SelectWindow(store, w);
    c := FormatChartData(rows);
    WindowChartFacts(store, w, rows);
  }
}
