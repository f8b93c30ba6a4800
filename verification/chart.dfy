/** The rate series shaped for the chart endpoints (`formatChartData`): rows
    sorted ascending by date, projected into parallel label and data columns
    under one USD/IRR dataset. */
module ChartSeries {

  import opened Calendar

  /** One row of the exchange-rate table: a day and the IRR-per-USD rate. */
  datatype RateRow = RateRow(date: Day, rate: real)

  /** A chart dataset with its styling metadata; `name` is the dataset's `label` field. */
  datatype Dataset = Dataset(name: string, data: seq<real>, borderColor: string, fill: bool, tension: real)

  /** The chart payload: one label per point and the datasets drawn over them. */
  datatype ChartData = ChartData(labels: seq<Day>, datasets: seq<Dataset>)

  const SeriesLabel: string := "USD/IRR"
  const BorderColor: string := "#4a90e2"
  const Tension: real := 0.1

  predicate SortedByDate(rows: seq<RateRow>) {
    forall i, j :: 0 <= i < j < |rows| ==> rows[i].date <= rows[j].date
  }

  predicate StrictlyAscending(rows: seq<RateRow>) {
    forall i, j :: 0 <= i < j < |rows| ==> rows[i].date < rows[j].date
  }

  /** No two rows share a date, as holds for rows read from the date-keyed table. */
  predicate DistinctDates(rows: seq<RateRow>) {
    forall i, j :: 0 <= i < j < |rows| ==> rows[i].date != rows[j].date
  }

  predicate LabelsAscending(labels: seq<Day>) {
    forall i, j :: 0 <= i < j < |labels| ==> labels[i] <= labels[j]
  }

  predicate LabelsStrictlyAscending(labels: seq<Day>) {
    forall i, j :: 0 <= i < j < |labels| ==> labels[i] < labels[j]
  }

  /** The rows dated `d`, in their original relative order. */
  function OnDate(rows: seq<RateRow>, d: Day): seq<RateRow> {
    if |rows| == 0 then []
    else (if rows[0].date == d then [rows[0]] else []) + OnDate(rows[1..], d)
  }

  /** A row no later than the first row of a sorted sequence may lead it. */
  lemma PrependSorted(h: RateRow, t: seq<RateRow>)
    requires SortedByDate(t)
    requires |t| > 0 ==> h.date <= t[0].date
    ensures SortedByDate([h] + t)
  {
    forall i, j | 0 <= i < j < |[h] + t| ensures ([h] + t)[i].date <= ([h] + t)[j].date {
      if i > 0 {
        assert ([h] + t)[i] == t[i - 1];
      }
      assert ([h] + t)[j] == t[j - 1];
    }
  }

  /** A row earlier than the first row of a strictly ascending sequence may lead it. */
  lemma PrependStrictlyAscending(h: RateRow, t: seq<RateRow>)
    requires StrictlyAscending(t)
    requires |t| > 0 ==> h.date < t[0].date
    ensures StrictlyAscending([h] + t)
  {
    forall i, j | 0 <= i < j < |[h] + t| ensures ([h] + t)[i].date < ([h] + t)[j].date {
      if i > 0 {
        assert ([h] + t)[i] == t[i - 1];
      }
      assert ([h] + t)[j] == t[j - 1];
    }
  }

  /** Inserts `x` into a date-sorted sequence before every row whose date is
      not earlier, so `x` precedes the rows of its own date. */
  function InsertByDate(x: RateRow, s: seq<RateRow>): (r: seq<RateRow>)
    requires SortedByDate(s)
    ensures |r| == |s| + 1
    ensures r[0] == x || (|s| > 0 && r[0] == s[0])
    ensures SortedByDate(r)
    ensures multiset(r) == multiset(s) + multiset{x}
    decreases |s|
  {
    if |s| == 0 || x.date <= s[0].date then
      PrependSorted(x, s);
      [x] + s
    else
      var tail := InsertByDate(x, s[1..]);
      assert s == [s[0]] + s[1..];
      PrependSorted(s[0], tail);
      [s[0]] + tail
  }

  /** Inserting a row of a new date into a strictly ascending sequence
      keeps it strictly ascending. */
  lemma {:induction false} InsertByDateStrict(x: RateRow, s: seq<RateRow>)
    requires StrictlyAscending(s)
    requires forall i :: 0 <= i < |s| ==> s[i].date != x.date
    ensures StrictlyAscending(InsertByDate(x, s))
    decreases |s|
  {
    if |s| == 0 || x.date <= s[0].date {
      PrependStrictlyAscending(x, s);
    } else {
      InsertByDateStrict(x, s[1..]);
      PrependStrictlyAscending(s[0], InsertByDate(x, s[1..]));
    }
  }

  /** The stable ascending sort by date that the chart formatter applies,
      comparing two rows by the difference of their dates. */
  function SortByDate(rows: seq<RateRow>): (r: seq<RateRow>)
    ensures |r| == |rows|
    ensures SortedByDate(r)
    ensures multiset(r) == multiset(rows)
  {
    if |rows| == 0 then []
    else
      assert rows == [rows[0]] + rows[1..];
      InsertByDate(rows[0], SortByDate(rows[1..]))
  }

  /** Rows with pairwise distinct dates sort into a strictly ascending sequence. */
  lemma {:induction false} SortByDateStrict(rows: seq<RateRow>)
    requires DistinctDates(rows)
    ensures StrictlyAscending(SortByDate(rows))
  {
    if |rows| > 0 {
      var rest := SortByDate(rows[1..]);
      SortByDateStrict(rows[1..]);
      forall i | 0 <= i < |rest| ensures rest[i].date != rows[0].date {
        assert rest[i] in multiset(rows[1..]);
        var k :| 0 <= k < |rows[1..]| && rows[1..][k] == rest[i];
        assert rows[k + 1] == rest[i];
      }
      InsertByDateStrict(rows[0], rest);
    }
  }

  function Dates(rows: seq<RateRow>): (ds: seq<Day>)
    ensures |ds| == |rows|
    ensures forall i :: 0 <= i < |rows| ==> ds[i] == rows[i].date
  {
    seq(|rows|, i requires 0 <= i < |rows| => rows[i].date)
  }

  function Rates(rows: seq<RateRow>): (rs: seq<real>)
    ensures |rs| == |rows|
    ensures forall i :: 0 <= i < |rows| ==> rs[i] == rows[i].rate
  {
    seq(|rows|, i requires 0 <= i < |rows| => rows[i].rate)
  }

  /** Pairs up parallel label and data columns again. */
  function Points(labels: seq<Day>, data: seq<real>): (ps: seq<RateRow>)
    requires |labels| == |data|
    ensures |ps| == |labels|
    ensures forall i :: 0 <= i < |ps| ==> ps[i] == RateRow(labels[i], data[i])
  {
    seq(|labels|, i requires 0 <= i < |labels| => RateRow(labels[i], data[i]))
  }

  /** `formatChartData`: the chart shape of the rows. */
  function FormatChartData(rows: seq<RateRow>): (c: ChartData)
    ensures |c.labels| == |rows|
    ensures |c.datasets| == 1
    ensures c.datasets[0].name == SeriesLabel
    ensures c.datasets[0].borderColor == BorderColor && !c.datasets[0].fill && c.datasets[0].tension == Tension
    ensures |c.datasets[0].data| == |c.labels|
    ensures LabelsAscending(c.labels)
    ensures multiset(Points(c.labels, c.datasets[0].data)) == multiset(rows)
    ensures DistinctDates(rows) ==> LabelsStrictlyAscending(c.labels)
  {
    var sorted := SortByDate(rows);
    if DistinctDates(rows) then
      SortByDateStrict(rows);
      ChartOf(sorted)
    else
      ChartOf(sorted)
  }

  /** The chart of rows already in order. */
  function ChartOf(sorted: seq<RateRow>): (c: ChartData)
    ensures |c.labels| == |sorted| && |c.datasets| == 1
    ensures c.datasets[0].name == SeriesLabel
    ensures c.datasets[0].borderColor == BorderColor && !c.datasets[0].fill && c.datasets[0].tension == Tension
    ensures |c.datasets[0].data| == |c.labels|
    ensures Points(c.labels, c.datasets[0].data) == sorted
  {
    var c := ChartData(Dates(sorted), [Dataset(SeriesLabel, Rates(sorted), BorderColor, false, Tension)]);
    assert Points(c.labels, c.datasets[0].data) == sorted;
    c
  }

  lemma OnDateCons(h: RateRow, t: seq<RateRow>, d: Day)
    ensures OnDate([h] + t, d) == (if h.date == d then [h] else []) + OnDate(t, d)
  {
    assert ([h] + t)[1..] == t;
  }

  /** Every chart point is one of the rows, and every row's date is a label. */
  lemma ChartPointsAreRows(rows: seq<RateRow>)
    ensures var c := FormatChartData(rows);
      && (forall i :: 0 <= i < |c.labels| ==> RateRow(c.labels[i], c.datasets[0].data[i]) in rows)
      && (forall k :: 0 <= k < |rows| ==> rows[k].date in c.labels)
  {
    var c := FormatChartData(rows);
    var ps := Points(c.labels, c.datasets[0].data);
    forall i | 0 <= i < |c.labels| ensures RateRow(c.labels[i], c.datasets[0].data[i]) in rows {
      assert ps[i] in multiset(rows);
    }
    forall k | 0 <= k < |rows| ensures rows[k].date in c.labels {
      assert rows[k] in multiset(ps);
      var i :| 0 <= i < |ps| && ps[i] == rows[k];
      assert c.labels[i] == rows[k].date;
    }
  }

  lemma SwapEmpty(head: seq<RateRow>, mine: seq<RateRow>, rest: seq<RateRow>)
    requires head == [] || mine == []
    ensures head + (mine + rest) == mine + (head + rest)
  {
  }

  /** Inserting `x` contributes it to its own date's rows ahead of the rows
      already there, and to no other date. */
  lemma {:induction false} InsertByDateOnDate(x: RateRow, s: seq<RateRow>, d: Day)
    requires SortedByDate(s)
    ensures OnDate(InsertByDate(x, s), d) == (if x.date == d then [x] else []) + OnDate(s, d)
    decreases |s|
  {
    if |s| == 0 || x.date <= s[0].date {
      OnDateCons(x, s, d);
    } else {
      var mine := if x.date == d then [x] else [];
      var head := if s[0].date == d then [s[0]] else [];
      var tail := InsertByDate(x, s[1..]);
      InsertByDateOnDate(x, s[1..], d);
      OnDateCons(s[0], tail, d);
      OnDateCons(s[0], s[1..], d);
      assert s == [s[0]] + s[1..];
      SwapEmpty(head, mine, OnDate(s[1..], d));
    }
  }

  /** The sort is stable: rows of equal date keep their input order. */
  lemma {:induction false} SortIsStable(rows: seq<RateRow>, d: Day)
    ensures OnDate(SortByDate(rows), d) == OnDate(rows, d)
  {
    if |rows| > 0 {
      SortIsStable(rows[1..], d);
      InsertByDateOnDate(rows[0], SortByDate(rows[1..]), d);
    }
  }

  /** Two strictly date-ascending sequences holding the same rows start
      with the same row. */
  lemma SameFirstRow(a: seq<RateRow>, b: seq<RateRow>)
    requires |a| > 0 && |b| > 0
    requires StrictlyAscending(a) && SortedByDate(b)
    requires a[0] in b && b[0] in a
    ensures a[0] == b[0]
  {
    var j :| 0 <= j < |b| && b[j] == a[0];
    var i :| 0 <= i < |a| && a[i] == b[0];
    assert b[0].date <= b[j].date;
  }

  lemma SameTails(a: seq<RateRow>, b: seq<RateRow>)
    requires |a| > 0 && |b| > 0 && a[0] == b[0]
    requires multiset(a) == multiset(b)
    ensures multiset(a[1..]) == multiset(b[1..])
  {
    assert a == [a[0]] + a[1..] && b == [b[0]] + b[1..];
    assert multiset(a[1..]) == multiset(a) - multiset{a[0]};
    assert multiset(b[1..]) == multiset(b) - multiset{b[0]};
  }

  /** Two strictly date-ascending sequences with the same rows are equal. */
  lemma {:induction false} AscendingUnique(a: seq<RateRow>, b: seq<RateRow>)
    requires StrictlyAscending(a) && StrictlyAscending(b)
    requires multiset(a) == multiset(b)
    ensures a == b
    decreases |a|
  {
    if |a| == 0 {
      assert |b| == |multiset(b)| == 0;
    } else {
      assert |b| == |multiset(b)| == |a|;
      assert a[0] in multiset(b) && b[0] in multiset(a);
      SameFirstRow(a, b);
      SameTails(a, b);
      AscendingUnique(a[1..], b[1..]);
    }
  }

  /** The series does not depend on the order the table returned its rows
      in: any two listings of the same date-keyed rows give the same chart. */
  lemma ChartIgnoresQueryOrder(a: seq<RateRow>, b: seq<RateRow>)
    requires DistinctDates(a) && DistinctDates(b)
    requires multiset(a) == multiset(b)
    ensures FormatChartData(a) == FormatChartData(b)
  {
    SortByDateStrict(a);
    SortByDateStrict(b);
    AscendingUnique(SortByDate(a), SortByDate(b));
  }
}
