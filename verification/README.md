# USD/IRR rate, news sentiment and prediction — a Dafny model

This project models the computational core of the Forex News Predictor
server's controller (`controller/controller.js`): the logic that sits inside
its Express and MySQL callbacks, pulled out as pure functions over sequences
and maps with exact `real` arithmetic.

- **Chart series** (`ChartSeries`, chart.dfy): `formatChartData` sorts the
  rate rows ascending by date — a stable sort, as JavaScript's `Array.sort`
  is — and projects them into parallel `labels` and `data` columns under a
  single `USD/IRR` dataset.
- **Rate table** (`RateStore`, rate_store.dfy): the `exchange_rates` table as
  a map from day to rate; the `ON DUPLICATE KEY UPDATE` upsert of
  `updateRate`, the "newest row or No Data" lookup of `getCurrentRate`, and
  the date-window reads behind the week, 30-day and 90-day series.
- **Sentiment labels and tally** (`Sentiment`, sentiment.dfy): the labels an
  article can carry, and the `getPrediction` loop that scores `positive` +1,
  `negative` -1, `neutral` 0 and skips everything else, with the
  `avgSentiment` average that is 0 when nothing was counted.
- **News ingestion** (`NewsIngestion`, ingestion.dfy): the per-article body
  of `getNews` — text selection (`content || description || ''`), the
  threshold labelling of a classifier score, the `error` label on failure,
  the response entry and the inserted row — and the batch over all articles
  with per-article failure isolation.
- **Prediction** (`Prediction`, prediction.dfy): the mean rate of the
  window (an empty window is the error "No exchange rate data available"),
  `predictedRate = avgRate * (1 + avgSentiment * 0.001)`,
  `sentimentFactor = min(count / 30, 1)` and
  `confidence = 50 + |avgSentiment| * 50 * sentimentFactor`, plus the whole
  endpoint over the two tables.
- `Calendar` (calendar.dfy) holds days and query windows; `Wrappers`
  (wrappers.dfy) holds `Option` and `Result`.

Inputs the code takes from the outside world are parameters: the database
rows, the clock (`today`, `now`), the classifier's reply per article, the
rate feed's reply, and whether a database write fails.

Two behaviours of the code worth noting:
- An article whose classification fails is returned with the label `error`
  but is **not** inserted into the article table, because the insert is only
  reached after a successful classification (controller/controller.js:141-154
  sit inside the `try` after the classifier call). `PersistedRecords` models
  exactly the inserted rows.
- The prediction's rate window is `date >= today - 30`, with no upper
  bound, while the chart windows end yesterday (`BETWEEN today - N AND
  today - 1`). `Calendar.SinceWindow` and `Calendar.TrailingWindow` keep the
  two apart.

## Model

| member | source | states |
|---|---|---|
| ChartSeries.InsertByDate | controller/controller.js:16 | inserting a row into a date-sorted sequence keeps it sorted and adds exactly that row |
| ChartSeries.InsertByDateOnDate | controller/controller.js:16 | the inserted row goes ahead of the rows of its own date and leaves every other date's rows as they were |
| ChartSeries.SortByDate | controller/controller.js:16 | the sort returns a date-ascending permutation of the rows |
| ChartSeries.SortByDateStrict | controller/controller.js:16 | rows with distinct dates (as read from the date-keyed table) come out strictly ascending |
| ChartSeries.SortIsStable | controller/controller.js:16 | rows sharing a date keep their input order, as a stable comparator sort does |
| ChartSeries.FormatChartData | controller/controller.js:15-33 | labels and data are as long as the input, exactly one dataset named USD/IRR with the fixed styling, labels ascending, the (label, data) pairs are a permutation of the input rows, strictly ascending when dates are distinct |
| ChartSeries.ChartPointsAreRows | controller/controller.js:17-20 | every plotted (label, value) pair is an input row and every input row's date is a label |
| ChartSeries.ChartIgnoresQueryOrder | controller/controller.js:15-20 | the chart is the same whatever order the table returned the same rows in |
| RateStore.Upsert | controller/controller.js:247-251 | after the upsert the day holds the new rate, every other day is unchanged, and the table grows by one only when the day was new |
| RateStore.UpsertLastWriteWins | controller/controller.js:247-251 | writing a day twice keeps one entry, holding the later rate |
| RateStore.UpsertNewestBecomesLatest | controller/controller.js:247-251 | upserting a day no older than any stored day makes it the newest day |
| RateStore.LatestIsUnique | controller/controller.js:37 | the newest day, and so the current rate, is uniquely determined |
| RateStore.CurrentRate | controller/controller.js:37-47 | "No Data" exactly when the table is empty, otherwise the rate stored at the newest day |
| RateStore.UpdateRate | controller/controller.js:227-262 | feed failure, unreachable feed and failed write each give their own error and leave the table as it was; success stores the feed's rate under yesterday and touches no other day |
| RateStore.UpdateTwiceKeepsOneEntry | controller/controller.js:247-251 | running the update twice on the same day overwrites yesterday's entry instead of duplicating it |
| RateStore.SelectWindow | controller/controller.js:53-57 | the rows read for a window have distinct dates, are stored entries inside the window, and cover every stored day in it |
| RateStore.WindowChartFacts | controller/controller.js:69-82 | the chart of a window's rows plots exactly the window's stored days, each at its stored rate |
| RateStore.WindowSeries | controller/controller.js:52-100 | the week/30-day/90-day series is one USD/IRR dataset with the fixed styling, strictly ascending labels, exactly the stored days from N days ago to yesterday, each with its stored rate |
| Sentiment.Name | controller/controller.js:200-213 | the stored text of positive, negative and neutral scores +1, -1 and 0; the text of error is skipped |
| Sentiment.Tally | controller/controller.js:200-213 | the loop computes the recursive sum and count of the recognised labels |
| Sentiment.TallyByLabelCounts | controller/controller.js:200-213 | count is the number of positive, negative and neutral rows; sum is positives minus negatives; count never exceeds the row count |
| Sentiment.TallyBounds | controller/controller.js:200-213 | -count <= sum <= count <= number of rows |
| Sentiment.SkippedRowChangesNothing | controller/controller.js:202-213 | an error row or any unrecognised label, wherever it sits, changes neither sum nor count |
| Sentiment.TallyIgnoresOrder | controller/controller.js:202-213 | the tally depends only on the multiset of labels |
| Sentiment.AllRecognisedAllCounted | controller/controller.js:202-213 | when every row has a recognised label every row is counted |
| Sentiment.NothingRecognisedNothingCounted | controller/controller.js:202-213 | when no row has a recognised label, count and sum stay 0 |
| Sentiment.AvgSentiment | controller/controller.js:214 | avgSentiment is 0 when nothing was counted, otherwise sum/count, and always within [-1, 1] |
| NewsIngestion.LabelOfScore | controller/controller.js:131-136 | positive exactly when the score exceeds 0.2, negative exactly when below -0.2, neutral exactly in between |
| NewsIngestion.LabelOfScoreMonotone | controller/controller.js:131-136 | a higher classifier score never earns a label the tally scores lower |
| NewsIngestion.Classify | controller/controller.js:126-139 | no text gives neutral; error exactly when there is text and classification failed; otherwise the label of the score |
| NewsIngestion.ProcessArticle | controller/controller.js:124-171 | the response entry (title, publication date or now, label, description, url or "#") and an inserted row (source or "Unknown", url or "") exactly when the label is not error |
| NewsIngestion.EmptyTextSkipsClassifier | controller/controller.js:126-139 | without text the classifier's reply cannot change the outcome, which is neutral |
| NewsIngestion.ProcessBatch | controller/controller.js:123-173 | one entry per article, in the feed's order, each processed on its own |
| NewsIngestion.GetNews | controller/controller.js:103-179 | a failed news search fails the request; otherwise one entry per article, in the feed's order, each the full entry of that article (title, label, publication date or now, description, url or "#") |
| NewsIngestion.FailureIsIsolated | controller/controller.js:123-173 | changing one article's classifier reply leaves every other entry unchanged |
| NewsIngestion.PersistedIndices | controller/controller.js:123-154 | the articles that get a row are, in increasing feed position and each once, exactly those whose classification did not fail |
| NewsIngestion.PersistedRecords | controller/controller.js:140-154 | one inserted row per article whose classification did not fail, in the feed's order, so identical articles give identical rows twice |
| NewsIngestion.PersistedRecordsContents | controller/controller.js:140-154 | the inserted rows are exactly the rows of the articles whose classification did not fail; none carries error |
| NewsIngestion.PersistedRowsAreCounted | controller/controller.js:141-154 | every inserted row is counted by the sentiment tally |
| Prediction.AverageRate | controller/controller.js:189-193 | an empty window is the no-data error, never a default; otherwise the mean (times the size it gives the total) lying between the least and greatest rate |
| Prediction.MeanBetween | controller/controller.js:192-193 | the mean of a non-empty window is at least one rate and at most another |
| Prediction.ConstantWindowAverage | controller/controller.js:192-193 | a window of equal rates averages to that rate |
| Prediction.SentimentFactor | controller/controller.js:216 | the factor lies in [0, 1], is 1 from 30 counted articles on and count/30 below |
| Prediction.SentimentFactorMonotone | controller/controller.js:216 | the factor never drops as the count grows |
| Prediction.Confidence | controller/controller.js:217 | confidence is at least 50, at most 100 for avgSentiment in [-1, 1], exactly 50 with no sentiment or no articles, and 100 exactly when sentiment is fully polarised and the quota is met |
| Prediction.ConfidenceMonotoneInSentiment | controller/controller.js:217 | confidence is non-decreasing in abs(avgSentiment) for a fixed count |
| Prediction.ConfidenceMonotoneInCount | controller/controller.js:216-217 | confidence is non-decreasing in the count for a fixed avgSentiment |
| Prediction.PredictedRate | controller/controller.js:215 | the forecast equals the mean rate with zero sentiment, moves in the sentiment's direction, and stays within avgRate*(1 +/- 0.001) |
| Prediction.Predict | controller/controller.js:182-223 | the three error paths in order (rate query, empty window, sentiment query); on success confidence in [50, 100], the forecast within 0.1% of the mean rate, and with no counted articles the forecast is the mean at confidence 50 |
| Prediction.ArticlesSince | controller/controller.js:194 | the sentiment query keeps exactly the stored articles published on or after the window start, each with as many copies as the table holds |
| Prediction.NoCountedArticles | controller/controller.js:194-213 | when every stored article of the window is labelled error, the tally over the sentiment query counts nothing |
| Prediction.ForecastNearStoredRates | controller/controller.js:186-217 | a forecast over rows read from the rate table lies, for non-negative rates, between 0.1% below one stored rate of the window and 0.1% above another, and between two stored rates at confidence 50 when no sentiment row is counted |
| Prediction.PredictFromStores | controller/controller.js:182-223 | the endpoint over both tables fails, with the no-data error, exactly when no stored day is within the last 30 days; otherwise confidence is in [50, 100], for non-negative rates the forecast lies between 0.1% below some stored rate of the window and 0.1% above another, and when no article of the window has a counted label the forecast lies between two stored rates of the window at confidence 50 |
| Prediction.BalancedNewsScenario | controller/controller.js:200-217 | thirty days at 50000 with ten articles of each label forecast 50000 at confidence 50 |
| Prediction.HalfQuotaPositiveScenario | controller/controller.js:214-217 | fifteen positive articles and nothing else give confidence 75 |

## Left out

- HTTP routing, CORS, environment configuration, the server listener and
  the JSON response wrapping: plumbing around the logic above.
- The database connection and query execution. Query results are inputs;
  the date filters `BETWEEN DATE_SUB(CURDATE(), ...)` and `>= DATE_SUB(...)`
  are modelled as inclusive whole-day windows. Publication times are whole
  days, so the time of day of `publishedAt` is not modelled.
- Read failures of the current-rate and series endpoints: each only returns
  a fixed error message, and the model reads the table as a map.
- The news search and the rate feed's HTTP calls, the classifier client, and
  the `rates.IRR / rates.USD` division of the feed's reply: the feed's rate
  and each article's classifier reply are inputs.
- `formatDate` / `toISOString` and `parseFloat`: chart labels are days and
  rates are numbers already.
- `toFixed(2)` and the `" IRR"` / `" IRR per USD"` string formatting of the
  replies, and IEEE-754 rounding: arithmetic is exact over `real`.
- `Promise.all` concurrency and the fire-and-forget inserts: the batch is a
  sequential map with per-article isolation, and the inserted rows are listed
  in the feed's order (the tally ignores order, so this does not matter for
  the prediction). Insert failures are only logged and are not modelled.
- Logging (`console.error`, `console.warn`).
- NewsIngestion.ProcessBatch: requires one classifier reply per article;
  this pairs each article with the answer its own classifier call would get,
  and is not a demand the code makes of its callers.
- RateStore.CurrentRate: returns the newest rate as a number, not the
  formatted `"<rate> IRR per USD"` string.
- The ARIMA training and serving scripts and the CSV export utility: they
  are not part of the controller.
