/** The per-article body of `getNews`: choose the text, classify it, label
    it, build the response entry and the row to insert; and the batch that
    does this for every fetched article with per-article failure isolation. */
module NewsIngestion {

  import opened Wrappers
  import opened Calendar
  import opened Sentiment

  /** An article as the news feed delivers it. A missing field is the empty
      string: the code falls back on a default for any falsy field,
      so undefined, null and "" behave alike. `sourceName` is `source.name`. */
  datatype Article = Article(
    title: string,
    sourceName: string,
    publishedAt: Option<Day>,
    content: string,
    description: string,
    url: string)

  /** The classifier's answer for one article's text: a polarity score, or a
      failure (a rejected call, or a reply without a `documentSentiment`; a
      `documentSentiment` without a score reads as neutral, so it is
      `Scored(0.0)` here). */
  datatype ClassifierReply = Scored(score: real) | Failed

  /** One entry of the news response. */
  datatype ProcessedArticle = ProcessedArticle(
    title: string,
    publishedAt: Day,
    sentiment: Label,
    description: string,
    url: string)

  /** One row inserted into the article table; its `content` column receives
      the article's description. */
  datatype ArticleRecord = ArticleRecord(
    title: string,
    source: string,
    publishedAt: Day,
    content: string,
    sentiment: Label,
    url: string)

  const PositiveThreshold: real := 0.2
  const NegativeThreshold: real := -0.2

  /** The text sent to the classifier: the content when there is any,
      otherwise the description, otherwise nothing. */
  function TextToAnalyze(a: Article): string {
    if a.content != "" then a.content else a.description
  }

  /** The label a classifier score earns. */
  function LabelOfScore(score: real): (l: Label)
    ensures l == Positive <==> score > PositiveThreshold
    ensures l == Negative <==> score < NegativeThreshold
    ensures l == Neutral <==> NegativeThreshold <= score <= PositiveThreshold
  {
    if score > PositiveThreshold then Positive
    else if score < NegativeThreshold then Negative
    else Neutral
  }

  /** A higher classifier score never earns a label the tally scores lower. */
  lemma LabelOfScoreMonotone(s1: real, s2: real)
    requires s1 <= s2
    ensures Score(Name(LabelOfScore(s1))).value <= Score(Name(LabelOfScore(s2))).value
  {
  }

  /** The label of one article: neutral without consulting the classifier
      when there is no text; otherwise the label of the classifier's score,
      or `Error` when classification failed. */
  function Classify(a: Article, reply: ClassifierReply): (l: Label)
    ensures TextToAnalyze(a) == "" ==> l == Neutral
    ensures l == Error <==> TextToAnalyze(a) != "" && reply.Failed?
    ensures TextToAnalyze(a) != "" && reply.Scored? ==> l == LabelOfScore(reply.score)
  {
    var text := TextToAnalyze(a);
    if text == "" then Neutral
    else match reply
      case Failed => Error
      case Scored(score) => LabelOfScore(score)
  }

  /** The response entry for one article and the row inserted for it, if
      any. An article whose classification failed still gets an entry,
      labelled `Error`, but no row: the insert is only reached after a
      successful classification. `now` is the clock reading used when the
      article has no publication date. */
  function ProcessArticle(a: Article, reply: ClassifierReply, now: Day): (out: (ProcessedArticle, Option<ArticleRecord>))
    ensures out.0.title == a.title
    ensures out.0.sentiment == Classify(a, reply)
    ensures out.0.publishedAt == (if a.publishedAt.Some? then a.publishedAt.value else now)
    ensures out.0.description == a.description
    ensures out.0.url == (if a.url == "" then "#" else a.url)
    ensures out.1.Some? <==> out.0.sentiment != Error
    ensures out.1.Some? ==>
      && out.1.value.title == a.title
      && out.1.value.source == (if a.sourceName == "" then "Unknown" else a.sourceName)
      && out.1.value.publishedAt == out.0.publishedAt
      && out.1.value.content == a.description
      && out.1.value.sentiment == out.0.sentiment
      && out.1.value.url == a.url
  {
    var sentiment := Classify(a, reply);
    var published := if a.publishedAt.Some? then a.publishedAt.value else now;
    var entry := ProcessedArticle(a.title, published, sentiment, a.description, if a.url == "" then "#" else a.url);
    if sentiment == Error then (entry, None)
    else
      var source := if a.sourceName == "" then "Unknown" else a.sourceName;
      (entry, Some(ArticleRecord(a.title, source, published, a.description, sentiment, a.url)))
  }

  /** Without text the classifier is never consulted: its reply, failed or
      not, cannot change the outcome. */
  lemma EmptyTextSkipsClassifier(a: Article, r1: ClassifierReply, r2: ClassifierReply, now: Day)
    requires TextToAnalyze(a) == ""
    ensures ProcessArticle(a, r1, now) == ProcessArticle(a, r2, now)
    ensures ProcessArticle(a, r1, now).0.sentiment == Neutral
  {
  }

  /** The news response: one entry per fetched article, in the feed's order.
      `replies[i]` is the classifier's answer for article `i`. */
  function ProcessBatch(articles: seq<Article>, replies: seq<ClassifierReply>, now: Day): (out: seq<ProcessedArticle>)
    requires |replies| == |articles|
    ensures |out| == |articles|
    ensures forall i :: 0 <= i < |out| ==> out[i] == ProcessArticle(articles[i], replies[i], now).0
  {
    seq(|articles|, i requires 0 <= i < |articles| => ProcessArticle(articles[i], replies[i], now).0)
  }

  /** What the news search answered: its articles (an absent list reads as
      none), or a failure of the request itself. */
  datatype NewsFeedReply = NewsArticles(articles: seq<Article>) | NewsFeedFailed

  const NewsError: string := "Failed to fetch or process news articles"

  /** `getNews`: a failed search fails the request; otherwise every article
      gets exactly one entry, whatever happened to the others. */
  function GetNews(feed: NewsFeedReply, replies: seq<ClassifierReply>, now: Day): (r: Result<seq<ProcessedArticle>, string>)
    requires feed.NewsArticles? ==> |replies| == |feed.articles|
    ensures r.Failure? <==> feed.NewsFeedFailed?
    ensures r.Failure? ==> r.error == NewsError
    ensures r.Success? ==> |r.value| == |feed.articles|
    ensures r.Success? ==> forall i :: 0 <= i < |r.value| ==>
      r.value[i].title == feed.articles[i].title && r.value[i].sentiment == Classify(feed.articles[i], replies[i])
    ensures r.Success? ==> forall i :: 0 <= i < |r.value| ==>
      r.value[i] == ProcessArticle(feed.articles[i], replies[i], now).0
  {
    match feed
    case NewsFeedFailed => Failure(NewsError)
    case NewsArticles(articles) => Success(ProcessBatch(articles, replies, now))
  }

  /** A failure on one article never disturbs another: changing the
      classifier's answer for article `k` leaves every other entry as it was. */
  lemma FailureIsIsolated(articles: seq<Article>, replies: seq<ClassifierReply>, k: nat, other: ClassifierReply, now: Day)
    requires |replies| == |articles| && k < |articles|
    ensures var before := ProcessBatch(articles, replies, now);
            var after := ProcessBatch(articles, replies[k := other], now);
            |after| == |before| && forall i :: 0 <= i < |before| && i != k ==> after[i] == before[i]
  {
  }

  /** The positions, in the feed's order, of the articles that get a row:
      every article whose classification did not fail, each once. */
  function PersistedIndices(articles: seq<Article>, replies: seq<ClassifierReply>, now: Day): (idx: seq<nat>)
    requires |replies| == |articles|
    ensures forall k :: 0 <= k < |idx| ==> idx[k] < |articles| && Classify(articles[idx[k]], replies[idx[k]]) != Error
    ensures forall k, l :: 0 <= k < l < |idx| ==> idx[k] < idx[l]
    ensures forall i :: 0 <= i < |articles| && Classify(articles[i], replies[i]) != Error ==> i in idx
  {
    if |articles| == 0 then []
    else
      var n := |articles| - 1;
      var rest := PersistedIndices(articles[..n], replies[..n], now);
      assert forall i :: 0 <= i < n ==> articles[..n][i] == articles[i] && replies[..n][i] == replies[i];
      if Classify(articles[n], replies[n]) != Error then rest + [n] else rest
  }

  /** The rows inserted for a batch: one per article whose classification did
      not fail, in the feed's order, so two identical articles give two rows. */
  function PersistedRecords(articles: seq<Article>, replies: seq<ClassifierReply>, now: Day): (recs: seq<ArticleRecord>)
    requires |replies| == |articles|
    ensures |recs| <= |articles|
    ensures var idx := PersistedIndices(articles, replies, now);
      && |recs| == |idx|
      && forall k :: 0 <= k < |recs| ==> Some(recs[k]) == ProcessArticle(articles[idx[k]], replies[idx[k]], now).1
  {
    if |articles| == 0 then []
    else
      var n := |articles| - 1;
      var rest := PersistedRecords(articles[..n], replies[..n], now);
      var last := ProcessArticle(articles[n], replies[n], now).1;
      assert forall i :: 0 <= i < n ==> articles[..n][i] == articles[i] && replies[..n][i] == replies[i];
      if last.Some? then rest + [last.value] else rest
  }

  /** What the inserted rows hold: exactly the rows of the articles whose
      classification did not fail, and so never an `Error` label. */
  lemma PersistedRecordsContents(articles: seq<Article>, replies: seq<ClassifierReply>, now: Day)
    requires |replies| == |articles|
    ensures var recs := PersistedRecords(articles, replies, now);
      && (forall i :: 0 <= i < |recs| ==> recs[i].sentiment != Error)
      && (forall r :: r in recs <==>
            exists i :: 0 <= i < |articles| && ProcessArticle(articles[i], replies[i], now).1 == Some(r))
  {
    var recs := PersistedRecords(articles, replies, now);
    var idx := PersistedIndices(articles, replies, now);
    forall r | r in recs
      ensures exists i :: 0 <= i < |articles| && ProcessArticle(articles[i], replies[i], now).1 == Some(r)
    {
      var k :| 0 <= k < |recs| && recs[k] == r;
      assert ProcessArticle(articles[idx[k]], replies[idx[k]], now).1 == Some(r);
    }
    forall r, i | 0 <= i < |articles| && ProcessArticle(articles[i], replies[i], now).1 == Some(r)
      ensures r in recs
    {
      var k :| 0 <= k < |idx| && idx[k] == i;
      assert recs[k] == r;
    }
  }

  /** The sentiment column of stored rows. */
  function SentimentColumn(recs: seq<ArticleRecord>): (col: seq<string>)
    ensures |col| == |recs|
    ensures forall i :: 0 <= i < |recs| ==> col[i] == Name(recs[i].sentiment)
  {
    seq(|recs|, i requires 0 <= i < |recs| => Name(recs[i].sentiment))
  }

  /** Every row a batch inserts is counted by the sentiment tally. */
  lemma PersistedRowsAreCounted(articles: seq<Article>, replies: seq<ClassifierReply>, now: Day)
    requires |replies| == |articles|
    ensures var col := SentimentColumn(PersistedRecords(articles, replies, now));
            CountedRows(col) == |col|
  {
    PersistedRecordsContents(articles, replies, now);
    AllRecognisedAllCounted(SentimentColumn(PersistedRecords(articles, replies, now)));
  }
}
