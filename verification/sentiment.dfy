/** Sentiment labels and their aggregation over the stored articles of a
    window: the tally loop of `getPrediction`, which scores positive as +1,
    negative as -1 and neutral as 0, and skips every other label. */
module Sentiment {

  import opened Wrappers

  /** The labels an ingested article can carry; `Error` marks an article
      whose classification failed. */
  datatype Label = Positive | Negative | Neutral | Error

  /** The text stored in the article table's sentiment column. */
  function Name(l: Label): (s: string)
    ensures Score(s).Some? <==> l != Error
    ensures l == Positive ==> Score(s) == Some(1)
    ensures l == Negative ==> Score(s) == Some(-1)
    ensures l == Neutral ==> Score(s) == Some(0)
  {
    match l
    case Positive => "positive"
    case Negative => "negative"
    case Neutral => "neutral"
    case Error => "error"
  }

  /** What a stored sentiment contributes to the tally; None for a row the
      tally skips. */
  function Score(sentiment: string): Option<int> {
    if sentiment == "positive" then Some(1)
    else if sentiment == "negative" then Some(-1)
    else if sentiment == "neutral" then Some(0)
    else None
  }

  /** `sentimentSum` after the tally has visited `rows` in order. */
  function SentimentSum(rows: seq<string>): int {
    if |rows| == 0 then 0
    else
      var last := Score(rows[|rows| - 1]);
      SentimentSum(rows[..|rows| - 1]) + (if last.Some? then last.value else 0)
  }

  /** `count` after the tally has visited `rows` in order. */
  function CountedRows(rows: seq<string>): nat {
    if |rows| == 0 then 0
    else CountedRows(rows[..|rows| - 1]) + (if Score(rows[|rows| - 1]).Some? then 1 else 0)
  }

  /** The tally loop as written: one pass over the rows, adding each
      recognised label's score and counting it. */
  method Tally(rows: seq<string>) returns (sum: int, count: nat)
    ensures sum == SentimentSum(rows)
    ensures count == CountedRows(rows)
  {
    sum, count := 0, 0;
    var i := 0;
    while i < |rows|
      invariant 0 <= i <= |rows|
      invariant sum == SentimentSum(rows[..i])
      invariant count == CountedRows(rows[..i])
    {
      var row := rows[i];
      if row == "positive" {
        sum := sum + 1;
        count := count + 1;
      } else if row == "negative" {
        sum := sum + -1;
        count := count + 1;
      } else if row == "neutral" {
        sum := sum + 0;
        count := count + 1;
      }
      assert rows[..i + 1][..i] == rows[..i];
      i := i + 1;
    }
    assert rows[..|rows|] == rows;
  }

  /** The tally in closed form: it depends only on how many rows carry each
      of the three recognised labels, so it ignores row order and every other
      label; and it never counts more rows than there are. */
  lemma {:induction false} TallyByLabelCounts(rows: seq<string>)
    ensures var m := multiset(rows);
      && CountedRows(rows) == m["positive"] + m["negative"] + m["neutral"]
      && SentimentSum(rows) == m["positive"] as int - m["negative"] as int
      && CountedRows(rows) <= |rows|
  {
    if |rows| > 0 {
      var init := rows[..|rows| - 1];
      var last := rows[|rows| - 1];
      TallyByLabelCounts(init);
      assert rows == init + [last];
      assert multiset(rows) == multiset(init) + multiset{last};
    }
  }

  /** The net score lies between minus and plus the number of counted rows. */
  lemma TallyBounds(rows: seq<string>)
    ensures -(CountedRows(rows) as int) <= SentimentSum(rows) <= CountedRows(rows) <= |rows|
  {
    TallyByLabelCounts(rows);
  }

  /** An `error` row, or any row whose label the tally does not recognise,
      changes neither the sum nor the count wherever it sits. */
  lemma SkippedRowChangesNothing(before: seq<string>, row: string, after: seq<string>)
    requires Score(row).None?
    ensures SentimentSum(before + [row] + after) == SentimentSum(before + after)
    ensures CountedRows(before + [row] + after) == CountedRows(before + after)
  {
    TallyByLabelCounts(before + [row] + after);
    TallyByLabelCounts(before + after);
    assert multiset(before + [row] + after) == multiset(before + after) + multiset{row};
  }

  /** Reordering the rows leaves the tally unchanged. */
  lemma TallyIgnoresOrder(a: seq<string>, b: seq<string>)
    requires multiset(a) == multiset(b)
    ensures SentimentSum(a) == SentimentSum(b) && CountedRows(a) == CountedRows(b)
  {
    TallyByLabelCounts(a);
    TallyByLabelCounts(b);
  }

  /** When every row carries a recognised label, every row is counted. */
  lemma {:induction false} AllRecognisedAllCounted(rows: seq<string>)
    requires forall i :: 0 <= i < |rows| ==> Score(rows[i]).Some?
    ensures CountedRows(rows) == |rows|
  {
    if |rows| > 0 {
      AllRecognisedAllCounted(rows[..|rows| - 1]);
    }
  }

  /** When no row carries a recognised label, nothing is counted. */
  lemma {:induction false} NothingRecognisedNothingCounted(rows: seq<string>)
    requires forall i :: 0 <= i < |rows| ==> Score(rows[i]).None?
    ensures CountedRows(rows) == 0 && SentimentSum(rows) == 0
  {
    if |rows| > 0 {
      NothingRecognisedNothingCounted(rows[..|rows| - 1]);
    }
  }

  lemma RatioWithinUnit(sum: int, count: int)
    requires count > 0 && -count <= sum <= count
    ensures ((sum as real) / (count as real)) * (count as real) == sum as real
    ensures -1.0 <= (sum as real) / (count as real) <= 1.0
  {
    var q := (sum as real) / (count as real);
    assert q * (count as real) == sum as real;
  }

  /** `avgSentiment`: the mean score of the counted rows, or 0 when no row
      was counted. */
  function AvgSentiment(rows: seq<string>): (a: real)
    ensures -1.0 <= a <= 1.0
    ensures CountedRows(rows) == 0 ==> a == 0.0
    ensures CountedRows(rows) > 0 ==> a * (CountedRows(rows) as real) == SentimentSum(rows) as real
  {
    var count := CountedRows(rows);
    var sum := SentimentSum(rows);
    TallyBounds(rows);
    if count == 0 then 0.0
    else
      RatioWithinUnit(sum, count);
      (sum as real) / (count as real)
  }
}
