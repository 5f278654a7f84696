/** The whole analysis (main.py:48-111): clean the sheet, aggregate per customer, score
    recency and frequency into quintiles, join the two digits into a code and name the
    segment. The run fails where pandas raises: when a quintile cut meets repeated
    edges. */
module Rfm {
  import opened Wrappers
  import opened Cleaner
  import opened Aggregator
  import opened Quantile
  import opened Scorer
  import opened Segmenter

  /** One row of the final table. */
  datatype CustomerRow = CustomerRow(
    customer: int,
    recency: int,
    frequency: int,
    monetary: int,
    recencyScore: int,
    frequencyScore: int,
    score: string,
    segment: string)

  /** The recency column of the metrics table. */
  function Recencies(table: seq<Metrics>): (r: seq<int>)
    ensures |r| == |table| && forall i :: 0 <= i < |table| ==> r[i] == table[i].recency
  {
    seq(|table|, i requires 0 <= i < |table| => table[i].recency)
  }

  /** The frequency column of the metrics table. */
  function Frequencies(table: seq<Metrics>): (r: seq<int>)
    ensures |r| == |table| && forall i :: 0 <= i < |table| ==> r[i] == table[i].frequency
  {
    seq(|table|, i requires 0 <= i < |table| => table[i].frequency)
  }

  /** A customer's final row: the metrics, the two scores, their code and its segment. */
  function ScoredRow(m: Metrics, recencyScore: int, frequencyScore: int): (row: CustomerRow)
    requires 1 <= recencyScore <= 5 && 1 <= frequencyScore <= 5
    ensures row.customer == m.customer && row.recency == m.recency
    ensures row.frequency == m.frequency && row.monetary == m.monetary
    ensures row.recencyScore == recencyScore && row.frequencyScore == frequencyScore
    ensures row.segment == SegmentOf(recencyScore, frequencyScore)
    ensures row.score == ScoreCode(recencyScore, frequencyScore)
  {
    var code := ScoreCode(recencyScore, frequencyScore);
    SegmentIsTable(recencyScore, frequencyScore);
    CustomerRow(m.customer, m.recency, m.frequency, m.monetary,
                recencyScore, frequencyScore, code, Segment(code))
  }

  /** The final rows, given the two score columns. */
  function ScoredRows(table: seq<Metrics>, rs: seq<int>, fs: seq<int>): (rows: seq<CustomerRow>)
    requires |rs| == |table| && |fs| == |table|
    requires forall i :: 0 <= i < |table| ==> 1 <= rs[i] <= 5 && 1 <= fs[i] <= 5
    ensures |rows| == |table|
    ensures forall i :: 0 <= i < |table| ==>
      && rows[i].customer == table[i].customer
      && rows[i].recency == table[i].recency
      && rows[i].frequency == table[i].frequency
      && rows[i].monetary == table[i].monetary
      && rows[i].recencyScore == rs[i]
      && rows[i].frequencyScore == fs[i]
      && rows[i].score == ScoreCode(rs[i], fs[i])
      && rows[i].segment == SegmentOf(rs[i], fs[i])
  {
    seq(|table|, i requires 0 <= i < |table| => ScoredRow(table[i], rs[i], fs[i]))
  }

  /** A score column that, when present, has one score in 1..5 per customer. */
  predicate ScoreColumn(table: seq<Metrics>, scores: Result<seq<int>, CutError>)
  {
    scores.Ok? ==> |scores.value| == |table| && forall i :: 0 <= i < |table| ==> 1 <= scores.value[i] <= 5
  }

  /** Joins the two score columns into the final rows; the recency error comes first. */
  function Join(table: seq<Metrics>, recency: Result<seq<int>, CutError>,
                frequency: Result<seq<int>, CutError>): (r: Result<seq<CustomerRow>, CutError>)
    requires ScoreColumn(table, recency) && ScoreColumn(table, frequency)
    ensures r.Err? <==> recency.Err? || frequency.Err?
    ensures recency.Err? ==> r == Err(recency.error)
    ensures r.Ok? ==> r.value == ScoredRows(table, recency.value, frequency.value)
  {
    if recency.Err? then Err(recency.error)
    else if frequency.Err? then Err(frequency.error)
    else Ok(ScoredRows(table, recency.value, frequency.value))
  }

  /** Scoring and segmentation of the metrics table (main.py:86-111); the recency cut
      runs first, so its error is the one reported when both cuts would fail. Scoring
      fails exactly when the recency cut fails: the frequency cut fails only for fewer
      than two customers, and then the recency cut has already failed. A successful
      scoring keeps each customer's metrics, in the table's order. */
  function Score(table: seq<Metrics>): (r: Result<seq<CustomerRow>, CutError>)
    ensures r.Err? <==> QCut(Recencies(table)).Err?
    ensures r.Ok? ==> |r.value| == |table|
    ensures r.Ok? ==> forall i :: 0 <= i < |table| ==>
      r.value[i].customer == table[i].customer && r.value[i].recency == table[i].recency &&
      r.value[i].frequency == table[i].frequency && r.value[i].monetary == table[i].monetary
  {
    RecencyColumn(table);
    FrequencyColumn(table);
    FrequencyFailsIff(Frequencies(table));
    if |table| <= 1 then
      QCutFailsOnConstant(Recencies(table));
      Join(table, RecencyScores(Recencies(table)), FrequencyScores(Frequencies(table)))
    else
      Join(table, RecencyScores(Recencies(table)), FrequencyScores(Frequencies(table)))
  }

  lemma RecencyColumn(table: seq<Metrics>)
    ensures ScoreColumn(table, RecencyScores(Recencies(table)))
  {
  }

  lemma FrequencyColumn(table: seq<Metrics>)
    ensures ScoreColumn(table, FrequencyScores(Frequencies(table)))
  {
  }

  /** The scores of a successful scoring: the recency score is the label 6 - k of the
      customer's recency bin k, the frequency score is the bucket of the customer's
      first-rank by frequency, and the code joins the two digits. */
  lemma ScoreValues(table: seq<Metrics>, i: int)
    requires Score(table).Ok? && 0 <= i < |table|
    ensures QCut(Recencies(table)).Ok? && 1 <= Rank(Frequencies(table), i) <= |table|
    ensures var row := Score(table).value[i];
            && row.recencyScore == 6 - QCut(Recencies(table)).value[i]
            && row.frequencyScore == RankBucket(|table|, Rank(Frequencies(table), i))
            && row.score == ScoreCode(row.recencyScore, row.frequencyScore)
  {
    RecencyColumn(table);
    FrequencyColumn(table);
    FrequencyScoreIsRankBucket(Frequencies(table), i);
  }

  /** The rows built from an ascending table of buying customers keep the order, and
      each carries the grid's segment for its scores. */
  lemma ScoredRowsFacts(table: seq<Metrics>, rs: seq<int>, fs: seq<int>)
    requires |rs| == |table| && |fs| == |table|
    requires forall i :: 0 <= i < |table| ==> 1 <= rs[i] <= 5 && 1 <= fs[i] <= 5
    requires ByCustomer(table)
    requires forall m :: m in table ==> m.monetary > 0 && m.frequency >= 1
    ensures var rows := ScoredRows(table, rs, fs);
            forall i, j :: 0 <= i < j < |rows| ==> rows[i].customer < rows[j].customer
    ensures forall row :: row in ScoredRows(table, rs, fs) ==>
      && row.monetary > 0
      && row.frequency >= 1
      && 1 <= row.recencyScore <= 5
      && 1 <= row.frequencyScore <= 5
      && row.segment == SegmentOf(row.recencyScore, row.frequencyScore)
  {
    var rows := ScoredRows(table, rs, fs);
    forall row | row in rows
      ensures && row.monetary > 0
              && row.frequency >= 1
              && 1 <= row.recencyScore <= 5
              && 1 <= row.frequencyScore <= 5
              && row.segment == SegmentOf(row.recencyScore, row.frequencyScore)
    {
      var i :| 0 <= i < |rows| && rows[i] == row;
      assert table[i] in table;
    }
  }

  /** A successful scoring of an ascending table of buying customers lists them in the
      same order, with scores in 1..5 and the grid's segment. */
  lemma ScoredTable(table: seq<Metrics>)
    requires ByCustomer(table)
    requires forall m :: m in table ==> m.monetary > 0 && m.frequency >= 1
    ensures Score(table).Ok? ==>
      forall i, j :: 0 <= i < j < |Score(table).value| ==>
        Score(table).value[i].customer < Score(table).value[j].customer
    ensures Score(table).Ok? ==> forall row :: row in Score(table).value ==>
      && row.monetary > 0
      && row.frequency >= 1
      && 1 <= row.recencyScore <= 5
      && 1 <= row.frequencyScore <= 5
      && row.segment == SegmentOf(row.recencyScore, row.frequencyScore)
  {
    RecencyColumn(table);
    FrequencyColumn(table);
    var recency := RecencyScores(Recencies(table));
    var frequency := FrequencyScores(Frequencies(table));
    if recency.Ok? && frequency.Ok? {
      ScoredRowsFacts(table, recency.value, frequency.value);
    }
  }

  /** The analysis end to end, for a sheet and the reference date. */
  function Analyse(raw: seq<RawRow>, today: int): (r: Result<seq<CustomerRow>, CutError>)
    ensures r.Err? <==> QCut(Recencies(Aggregate(Clean(raw), today))).Err?
  {
    Score(Aggregate(Clean(raw), today))
  }

  /** A successful run lists customers in strictly ascending id order, each with positive
      revenue, at least one invoice, scores in 1..5 and the grid's segment. */
  lemma AnalyseOrderedAndSegmented(raw: seq<RawRow>, today: int)
    ensures var r := Analyse(raw, today);
            r.Ok? ==> forall i, j :: 0 <= i < j < |r.value| ==> r.value[i].customer < r.value[j].customer
    ensures var r := Analyse(raw, today);
            r.Ok? ==> forall row :: row in r.value ==>
              && row.monetary > 0
              && row.frequency >= 1
              && 1 <= row.recencyScore <= 5
              && 1 <= row.frequencyScore <= 5
              && row.segment == SegmentOf(row.recencyScore, row.frequencyScore)
  {
    ScoredTable(Aggregate(Clean(raw), today));
  }

  /** Rows that copy, index by index, the customers and metrics of a table that holds
      exactly the buying customers hold exactly those customers with their metrics. */
  lemma CopiedCustomers(table: seq<Metrics>, rows: seq<CustomerRow>, txns: seq<Txn>, today: int)
    requires |rows| == |table|
    requires forall i :: 0 <= i < |table| ==>
      rows[i].customer == table[i].customer && rows[i].recency == table[i].recency &&
      rows[i].frequency == table[i].frequency && rows[i].monetary == table[i].monetary
    requires forall m :: m in table ==> m.customer in CustomerSet(txns) && m == MetricsOf(txns, m.customer, today)
    requires forall m :: m in table ==> m.monetary > 0
    requires forall c :: c in CustomerSet(txns) && MetricsOf(txns, c, today).monetary > 0 ==>
      MetricsOf(txns, c, today) in table
    ensures forall c :: (exists i :: 0 <= i < |rows| && rows[i].customer == c) <==>
      c in CustomerSet(txns) && MetricsOf(txns, c, today).monetary > 0
    ensures forall i :: 0 <= i < |rows| ==>
      var m := MetricsOf(txns, rows[i].customer, today);
      rows[i].recency == m.recency && rows[i].frequency == m.frequency &&
      rows[i].monetary == m.monetary
  {
    forall c ensures (exists i :: 0 <= i < |rows| && rows[i].customer == c) <==>
      c in CustomerSet(txns) && MetricsOf(txns, c, today).monetary > 0
    {
      if exists i :: 0 <= i < |rows| && rows[i].customer == c {
        var i :| 0 <= i < |rows| && rows[i].customer == c;
        assert table[i] in table;
      }
      if c in CustomerSet(txns) && MetricsOf(txns, c, today).monetary > 0 {
        var i :| 0 <= i < |table| && table[i] == MetricsOf(txns, c, today);
        assert rows[i].customer == c;
      }
    }
    forall i | 0 <= i < |rows|
      ensures var m := MetricsOf(txns, rows[i].customer, today);
              rows[i].recency == m.recency && rows[i].frequency == m.frequency &&
              rows[i].monetary == m.monetary
    {
      assert table[i] in table;
    }
  }

  /** A successful scoring of the aggregated lines holds exactly the customers with
      positive revenue, each with its own metrics. */
  lemma ScoredCustomers(txns: seq<Txn>, today: int)
    requires Score(Aggregate(txns, today)).Ok?
    ensures var rows := Score(Aggregate(txns, today)).value;
            forall c :: (exists i :: 0 <= i < |rows| && rows[i].customer == c) <==>
              c in CustomerSet(txns) && MetricsOf(txns, c, today).monetary > 0
    ensures var rows := Score(Aggregate(txns, today)).value;
            forall i :: 0 <= i < |rows| ==>
              var m := MetricsOf(txns, rows[i].customer, today);
              rows[i].recency == m.recency && rows[i].frequency == m.frequency &&
              rows[i].monetary == m.monetary
  {
    var table := Aggregate(txns, today);
    CopiedCustomers(table, Score(table).value, txns, today);
  }

  /** The customers of a successful run are exactly those of the cleaned sheet whose
      total revenue is positive, each with its own metrics. */
  lemma AnalyseCustomers(raw: seq<RawRow>, today: int)
    requires Analyse(raw, today).Ok?
    ensures var rows, txns := Analyse(raw, today).value, Clean(raw);
            forall c :: (exists i :: 0 <= i < |rows| && rows[i].customer == c) <==>
              c in CustomerSet(txns) && MetricsOf(txns, c, today).monetary > 0
    ensures var rows, txns := Analyse(raw, today).value, Clean(raw);
            forall i :: 0 <= i < |rows| ==>
              var m := MetricsOf(txns, rows[i].customer, today);
              rows[i].recency == m.recency && rows[i].frequency == m.frequency &&
              rows[i].monetary == m.monetary
  {
    ScoredCustomers(Clean(raw), today);
  }

  /** Scores respect the metrics: a customer who bought no more recently than another
      never has the higher recency score, and one who bought less often, or as often with
      a smaller customer id, never has the higher frequency score. */
  lemma AnalyseScoresOrdered(raw: seq<RawRow>, today: int, i: int, j: int)
    requires Analyse(raw, today).Ok?
    requires 0 <= i < |Analyse(raw, today).value| && 0 <= j < |Analyse(raw, today).value|
    ensures var rows := Analyse(raw, today).value;
            rows[i].recency <= rows[j].recency ==> rows[i].recencyScore >= rows[j].recencyScore
    ensures var rows := Analyse(raw, today).value;
            rows[i].frequency < rows[j].frequency ||
            (rows[i].frequency == rows[j].frequency && rows[i].customer <= rows[j].customer)
            ==> rows[i].frequencyScore <= rows[j].frequencyScore
  {
    var table := Aggregate(Clean(raw), today);
    var rows := Analyse(raw, today).value;
    if rows[i].recency <= rows[j].recency {
      RecencyScoreAntitone(Recencies(table), i, j);
    }
    var freq := Frequencies(table);
    if rows[i].frequency < rows[j].frequency {
      FrequencyScoreMonotone(freq, i, j);
    } else if rows[i].frequency == rows[j].frequency && rows[i].customer <= rows[j].customer {
      FrequencyScoreMonotone(freq, i, j);
    }
  }
}
