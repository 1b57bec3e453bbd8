/**
 * The symptom-to-disease matcher of the disease-detection service
 * (`predict.py`): the disease tables built once at load time, the risk label
 * of a confidence, and `predict_diseases_api`, which scores every disease by
 * the share of its known symptoms that the user's symptoms reach, keeps the
 * five best scores above zero and, when that list is empty or weak, asks a
 * classifier for one more disease.
 *
 * The fuzzy scorer `fuzz.token_sort_ratio`, the BERT classifier and
 * `round(x, 1)` are parameters: `sim`, `classify` and `round`.
 */
module SymptomMatcher {
  import opened Wrappers
  import opened Text
  import opened Seqs
  import opened Ranking
  import opened Dicts

  // ------------------------------------------------------------------
  // Load time: the disease tables
  // ------------------------------------------------------------------

  /** A pandas cell: a string, or anything else (NaN for a missing value). */
  datatype Cell = Str(text: string) | NotStr

  /** One row of the disease dataset. */
  datatype DatasetRow = DatasetRow(disease: string, symptoms: Cell, treatments: Cell)

  /** `s.strip().lower()`: the form in which symptoms are compared. */
  function NormalizeSymptom(s: string): (r: string)
    ensures IsTrimmed(r) && IsLowerCase(r)
    ensures r == Trim(Lower(s))
    ensures r != "" <==> NotBlank(s)
  {
    LowerOfTrim(s);
    TrimIsTrimmed(Lower(s));
    Lower(Trim(s))
  }

  /** A symptom cell split at commas, every piece normalised; empty pieces stay. */
  function ParseSymptoms(c: Cell): (r: seq<string>)
    ensures forall s :: s in r ==> IsTrimmed(s) && IsLowerCase(s)
    ensures c.NotStr? ==> r == []
    ensures c.Str? ==> r == Map(Split(c.text, ','), NormalizeSymptom)
  {
    match c
    case NotStr => []
    case Str(text) =>
      var pieces := Split(text, ',');
      seq(|pieces|, i requires 0 <= i < |pieces| => NormalizeSymptom(pieces[i]))
  }

  /** The stripped pieces that are not blank, in order. */
  function NonBlankPieces(pieces: seq<string>): (r: seq<string>)
    ensures |r| <= |pieces|
    ensures forall t :: t in r ==> t != "" && IsTrimmed(t)
  {
    if pieces == [] then []
    else
      var last := pieces[|pieces| - 1];
      TrimIsTrimmed(last);
      NonBlankPieces(pieces[..|pieces| - 1]) + (if Trim(last) != "" then [Trim(last)] else [])
  }

  /** Every non-blank piece is kept, stripped, in order, and nothing else. */
  lemma {:induction false} NonBlankPiecesMeaning(pieces: seq<string>)
    ensures NonBlankPieces(pieces) == Map(Filter(pieces, NotBlank), Trim)
  {
    if pieces != [] {
      var init, last := pieces[..|pieces| - 1], pieces[|pieces| - 1];
      NonBlankPiecesMeaning(init);
      MapSnoc(Filter(init, NotBlank), last, Trim);
    }
  }

  /** A treatment cell split at commas, stripped, blank pieces dropped. */
  function ParseTreatments(c: Cell): (r: seq<string>)
    ensures forall t :: t in r ==> t != "" && IsTrimmed(t)
    ensures c.NotStr? ==> r == []
    ensures c.Str? ==> r == Map(Filter(Split(c.text, ','), NotBlank), Trim)
  {
    match c
    case NotStr => []
    case Str(text) =>
      NonBlankPiecesMeaning(Split(text, ','));
      NonBlankPieces(Split(text, ','))
  }

  /** `dict(zip(df["Disease"], df["Symptoms"]))`. */
  function RawSymptomMap(rows: seq<DatasetRow>): Dict<string, Cell> {
    FromPairs(seq(|rows|, i requires 0 <= i < |rows| => (rows[i].disease, rows[i].symptoms)))
  }

  /** `dict(zip(df["Disease"], df["Treatments"]))`. */
  function RawTreatmentMap(rows: seq<DatasetRow>): Dict<string, Cell> {
    FromPairs(seq(|rows|, i requires 0 <= i < |rows| => (rows[i].disease, rows[i].treatments)))
  }

  /** Every value of a dict replaced by its parse, keys and order unchanged. */
  function ParseValues(d: Dict<string, Cell>, parse: Cell -> seq<string>): (r: Dict<string, seq<string>>)
    ensures Keys(r) == Keys(d)
  {
    seq(|d|, i requires 0 <= i < |d| => (d[i].0, parse(d[i].1)))
  }

  /** The symptom table after the load-time cleaning loop. */
  function SymptomTable(rows: seq<DatasetRow>): Dict<string, seq<string>> {
    ParseValues(RawSymptomMap(rows), ParseSymptoms)
  }

  /** The treatment table after the load-time cleaning loop. */
  function TreatmentTable(rows: seq<DatasetRow>): Dict<string, seq<string>> {
    ParseValues(RawTreatmentMap(rows), ParseTreatments)
  }

  /**
   * Both tables list each disease of the dataset once, in order of first
   * appearance; a disease carries the cleaned cell of its LAST row.
   */
  lemma LoadedTables(rows: seq<DatasetRow>, disease: string)
    ensures WellFormed(SymptomTable(rows)) && WellFormed(TreatmentTable(rows))
    ensures Keys(SymptomTable(rows)) == Keys(TreatmentTable(rows))
    ensures Keys(SymptomTable(rows)) == Dedup(seq(|rows|, i requires 0 <= i < |rows| => rows[i].disease))
    ensures Get(SymptomTable(rows), disease)
         == (match LastValue(seq(|rows|, i requires 0 <= i < |rows| => (rows[i].disease, rows[i].symptoms)), disease)
             case None => None
             case Some(c) => Some(ParseSymptoms(c)))
  {
    var symPairs := seq(|rows|, i requires 0 <= i < |rows| => (rows[i].disease, rows[i].symptoms));
    var treatPairs := seq(|rows|, i requires 0 <= i < |rows| => (rows[i].disease, rows[i].treatments));
    var diseases := seq(|rows|, i requires 0 <= i < |rows| => rows[i].disease);
    FromPairsKeys(symPairs);
    FromPairsKeys(treatPairs);
    assert Keys(symPairs) == diseases;
    assert Keys(treatPairs) == diseases;
    FromPairsWellFormed(symPairs);
    FromPairsWellFormed(treatPairs);
    FromPairsGet(symPairs, disease);
    ParseValuesGet(RawSymptomMap(rows), ParseSymptoms, disease);
  }

  lemma {:induction false} ParseValuesGet(d: Dict<string, Cell>, parse: Cell -> seq<string>, k: string)
    ensures Get(ParseValues(d, parse), k) == (match Get(d, k) case None => None case Some(c) => Some(parse(c)))
  {
    if d != [] && d[0].0 != k {
      ParseValuesGet(d[1..], parse, k);
      assert ParseValues(d, parse)[1..] == ParseValues(d[1..], parse);
    }
  }

  // ------------------------------------------------------------------
  // Risk status
  // ------------------------------------------------------------------

  const HighRisk: string := "High Risk - Strong match, consult doctor"
  const ModerateRisk: string := "Moderate Risk - Possible match, needs evaluation"
  const LowRisk: string := "Low Risk - Uncertain, monitor symptoms"

  /** `get_status_info`: the risk label and its colour; each boundary belongs to the higher band. */
  function StatusInfo(confidence: real): (r: (string, string))
    ensures confidence >= 80.0 ==> r == (HighRisk, "#F44336")
    ensures 60.0 <= confidence < 80.0 ==> r == (ModerateRisk, "#FFEB3B")
    ensures 50.0 <= confidence < 60.0 ==> r == (LowRisk, "#03A9F4")
    ensures confidence < 50.0 ==> r == (LowRisk, "#4CAF50")
    ensures r.0 == LowRisk <==> confidence < 60.0
  {
    if confidence >= 80.0 then (HighRisk, "#F44336")
    else if confidence >= 60.0 then (ModerateRisk, "#FFEB3B")
    else if confidence >= 50.0 then (LowRisk, "#03A9F4")
    else (LowRisk, "#4CAF50")
  }

  // ------------------------------------------------------------------
  // Matching and scoring
  // ------------------------------------------------------------------

  /** A `fuzz.token_sort_ratio` score. */
  type Similarity = x: int | 0 <= x <= 100

  /** A user symptom matches a disease symptom at this similarity or above. */
  const MatchThreshold: int := 70

  /** `[s.strip().lower() for s in symptoms if s.strip()]`. */
  function NormalizeQuery(raw: seq<string>): (q: seq<string>)
    ensures |q| <= |raw|
    ensures forall s :: s in q ==> s != "" && IsTrimmed(s) && IsLowerCase(s)
  {
    if raw == [] then []
    else
      var last := raw[|raw| - 1];
      NormalizeQuery(raw[..|raw| - 1]) + (if NotBlank(last) then [NormalizeSymptom(last)] else [])
  }

  /** Every non-blank user symptom is kept, normalised, in order, and nothing else. */
  lemma {:induction false} NormalizeQueryMeaning(raw: seq<string>)
    ensures NormalizeQuery(raw) == Map(Filter(raw, NotBlank), NormalizeSymptom)
  {
    if raw != [] {
      var init, last := raw[..|raw| - 1], raw[|raw| - 1];
      NormalizeQueryMeaning(init);
      MapSnoc(Filter(init, NotBlank), last, NormalizeSymptom);
    }
  }

  /** The disease symptoms one user symptom reaches. */
  function MatchedByOne(u: string, dsyms: seq<string>, sim: (string, string) -> Similarity): set<string> {
    set d | d in dsyms && sim(u, d) >= MatchThreshold
  }

  /** `matched_disease_symptoms` after the nested loop over user and disease symptoms. */
  function MatchedBy(user: seq<string>, dsyms: seq<string>, sim: (string, string) -> Similarity): set<string> {
    if user == [] then {}
    else MatchedBy(user[..|user| - 1], dsyms, sim) + MatchedByOne(user[|user| - 1], dsyms, sim)
  }

  /** A disease symptom is matched iff some user symptom reaches the threshold on it. */
  lemma {:induction false} MatchedByMeaning(user: seq<string>, dsyms: seq<string>, sim: (string, string) -> Similarity, d: string)
    ensures d in MatchedBy(user, dsyms, sim)
        <==> d in dsyms && exists u :: u in user && sim(u, d) >= MatchThreshold
  {
    if user != [] {
      var init := user[..|user| - 1];
      MatchedByMeaning(init, dsyms, sim, d);
      assert user == init + [user[|user| - 1]];
    }
  }

  /** Adding user symptoms never shrinks a matched set. */
  lemma MatchedMonotone(user: seq<string>, more: seq<string>, dsyms: seq<string>, sim: (string, string) -> Similarity)
    requires forall u :: u in user ==> u in more
    ensures MatchedBy(user, dsyms, sim) <= MatchedBy(more, dsyms, sim)
  {
    forall d | d in MatchedBy(user, dsyms, sim) ensures d in MatchedBy(more, dsyms, sim) {
      MatchedByMeaning(user, dsyms, sim, d);
      MatchedByMeaning(more, dsyms, sim, d);
    }
  }

  /** A symptom the user repeats adds nothing: the matched set is a set. */
  lemma RepeatedSymptomCountsOnce(user: seq<string>, u: string, dsyms: seq<string>, sim: (string, string) -> Similarity)
    requires u in user
    ensures MatchedBy(user + [u], dsyms, sim) == MatchedBy(user, dsyms, sim)
  {
    MatchedMonotone(user, user + [u], dsyms, sim);
    MatchedMonotone(user + [u], user, dsyms, sim);
  }

  /** One scored disease: name, rounded confidence and the matched symptoms. */
  datatype Score = Score(disease: string, confidence: real, matched: set<string>)

  /** `(part / whole) * 100`. */
  function Percentage(part: nat, whole: nat): real
    requires whole > 0
  {
    (part as real / whole as real) * 100.0
  }

  /** The score of one disease with a non-empty symptom list. */
  function ScoreOf(disease: string, dsyms: seq<string>, user: seq<string>,
                   sim: (string, string) -> Similarity, round: real -> real): Score
    requires dsyms != []
  {
    var m := MatchedBy(user, dsyms, sim);
    Score(disease, round(Percentage(|m|, |dsyms|)), m)
  }

  /** `scores` after the loop: one entry per disease with symptoms, in table order. */
  function ScoreAll(table: Dict<string, seq<string>>, user: seq<string>,
                    sim: (string, string) -> Similarity, round: real -> real): (r: seq<Score>)
    ensures |r| <= |table|
    ensures forall s :: s in r ==>
      exists e :: e in table && e.1 != [] && s == ScoreOf(e.0, e.1, user, sim, round)
  {
    if table == [] then []
    else
      var e := table[|table| - 1];
      ScoreAll(table[..|table| - 1], user, sim, round)
        + (if e.1 == [] then [] else [ScoreOf(e.0, e.1, user, sim, round)])
  }

  /** Every disease with a non-empty symptom list is scored. */
  lemma {:induction false} ScoreAllComplete(table: Dict<string, seq<string>>, user: seq<string>,
                                             sim: (string, string) -> Similarity, round: real -> real,
                                             e: (string, seq<string>))
    requires e in table && e.1 != []
    ensures ScoreOf(e.0, e.1, user, sim, round) in ScoreAll(table, user, sim, round)
  {
    if table[|table| - 1] != e {
      var init := table[..|table| - 1];
      assert e in init;
      ScoreAllComplete(init, user, sim, round, e);
    }
  }

  function ScoreDisease(s: Score): string { s.disease }

  /** Over a table without repeated diseases, no disease is scored twice. */
  lemma {:induction false} ScoreNamesDistinct(table: Dict<string, seq<string>>, user: seq<string>,
                                               sim: (string, string) -> Similarity, round: real -> real)
    requires WellFormed(table)
    ensures DistinctBy(ScoreAll(table, user, sim, round), ScoreDisease)
  {
    if table != [] {
      var init := table[..|table| - 1];
      var last := table[|table| - 1];
      assert Keys(init) == Keys(table)[..|table| - 1];
      ScoreNamesDistinct(init, user, sim, round);
      forall s | s in ScoreAll(init, user, sim, round) ensures s.disease != last.0 {
        var e :| e in init && e.1 != [] && s == ScoreOf(e.0, e.1, user, sim, round);
        var i :| 0 <= i < |init| && init[i] == e;
        assert Keys(table)[i] == e.0;
      }
    }
  }

  /** A disease whose symptom list is empty is never scored. */
  lemma EmptySymptomsNeverScored(table: Dict<string, seq<string>>, user: seq<string>,
                                 sim: (string, string) -> Similarity, round: real -> real, disease: string)
    requires WellFormed(table) && (disease, []) in table
    ensures forall s :: s in ScoreAll(table, user, sim, round) ==> s.disease != disease
  {
    forall s | s in ScoreAll(table, user, sim, round) ensures s.disease != disease {
      var e :| e in table && e.1 != [] && s == ScoreOf(e.0, e.1, user, sim, round);
      var i :| 0 <= i < |table| && table[i] == e;
      var j :| 0 <= j < |table| && table[j] == (disease, []);
      assert Keys(table)[i] == e.0 && Keys(table)[j] == disease;
    }
  }

  /** `round(x, 1)` as far as the matcher relies on it: monotone on [0, 100], fixing 0 and 100. */
  ghost predicate IsRounding(round: real -> real) {
    round(0.0) == 0.0 && round(100.0) == 100.0
    && forall x, y :: 0.0 <= x <= y <= 100.0 ==> round(x) <= round(y)
  }

  lemma PercentageBounds(part: nat, part': nat, whole: nat)
    requires 0 < whole && part <= part' <= whole
    ensures 0.0 <= Percentage(part, whole) <= Percentage(part', whole) <= 100.0
  {
    var w := whole as real;
    DivideMonotone(0.0, part as real, w);
    DivideMonotone(part as real, part' as real, w);
    DivideMonotone(part' as real, w, w);
    DivideSelf(w);
  }

  lemma DivideSelf(w: real)
    requires 0.0 < w
    ensures w / w == 1.0
  {
  }

  lemma DivideMonotone(x: real, y: real, w: real)
    requires 0.0 <= x <= y && 0.0 < w
    ensures 0.0 <= x / w <= y / w
  {
    assert (y - x) / w == y / w - x / w;
  }

  /** A score's matched symptoms are symptoms of its disease, and its confidence is a percentage. */
  lemma ScoreBounds(disease: string, dsyms: seq<string>, user: seq<string>,
                    sim: (string, string) -> Similarity, round: real -> real)
    requires dsyms != [] && IsRounding(round)
    ensures ScoreOf(disease, dsyms, user, sim, round).disease == disease
    ensures ScoreOf(disease, dsyms, user, sim, round).matched <= set d | d in dsyms
    ensures 0.0 <= ScoreOf(disease, dsyms, user, sim, round).confidence <= 100.0
  {
    var m := MatchedBy(user, dsyms, sim);
    forall d | d in m ensures d in dsyms {
      MatchedByMeaning(user, dsyms, sim, d);
    }
    SubsetCard(m, set d | d in dsyms);
    ElemsCard(dsyms);
    PercentageBounds(|m|, |m|, |dsyms|);
    PercentageBounds(0, |m|, |dsyms|);
    PercentageBounds(|m|, |dsyms|, |dsyms|);
  }

  /** More user symptoms never lower a disease's confidence. */
  lemma ConfidenceMonotone(disease: string, dsyms: seq<string>, user: seq<string>, more: seq<string>,
                           sim: (string, string) -> Similarity, round: real -> real)
    requires dsyms != [] && IsRounding(round)
    requires forall u :: u in user ==> u in more
    ensures ScoreOf(disease, dsyms, user, sim, round).confidence
         <= ScoreOf(disease, dsyms, more, sim, round).confidence
  {
    var m, m' := MatchedBy(user, dsyms, sim), MatchedBy(more, dsyms, sim);
    MatchedMonotone(user, more, dsyms, sim);
    SubsetCard(m, m');
    forall d | d in m' ensures d in dsyms {
      MatchedByMeaning(more, dsyms, sim, d);
    }
    SubsetCard(m', set d | d in dsyms);
    ElemsCard(dsyms);
    PercentageBounds(|m|, |m'|, |dsyms|);
  }

  // ------------------------------------------------------------------
  // Ranking and the heuristic list
  // ------------------------------------------------------------------

  function ConfidenceOf(s: Score): real { s.confidence }

  /** `sorted(scores, key=lambda x: x[1], reverse=True)`. */
  function Ranked(scores: seq<Score>): seq<Score> {
    SortDesc(scores, ConfidenceOf)
  }

  /** The ranking is a descending, stable permutation of the scores. */
  lemma RankedOrder(scores: seq<Score>)
    ensures SortedDesc(Ranked(scores), ConfidenceOf)
    ensures multiset(Ranked(scores)) == multiset(scores)
    ensures forall c :: Filter(Ranked(scores), KeyIs(ConfidenceOf, c)) == Filter(scores, KeyIs(ConfidenceOf, c))
  {
    SortDescSorted(scores, ConfidenceOf);
    forall c ensures Filter(Ranked(scores), KeyIs(ConfidenceOf, c)) == Filter(scores, KeyIs(ConfidenceOf, c)) {
      SortDescStable(scores, ConfidenceOf, c);
    }
  }

  /** How many of the best scores are considered. */
  const TopCount: nat := 5

  /** One entry of the response. */
  datatype Prediction = Prediction(disease: string, confidence: real, matchedSymptoms: set<string>,
                                   treatments: seq<string>, status: string, statusColor: string)

  function PredictionDisease(p: Prediction): string { p.disease }

  function IsPositive(s: Score): bool { s.confidence > 0.0 }

  /** A score as a response entry, with its treatments and status. */
  function ToPrediction(s: Score, treatments: Dict<string, seq<string>>): Prediction {
    var (status, color) := StatusInfo(s.confidence);
    Prediction(s.disease, s.confidence, s.matched, Get(treatments, s.disease).GetOr([]), status, color)
  }

  /** The entries the loop over `scores[:5]` appends: those with confidence above zero. */
  function Heuristic(top: seq<Score>, treatments: Dict<string, seq<string>>): seq<Prediction> {
    var kept := Filter(top, IsPositive);
    seq(|kept|, i requires 0 <= i < |kept| => ToPrediction(kept[i], treatments))
  }

  /** The heuristic list `predict_diseases_api` has built before the fallback. */
  function HeuristicOf(user: seq<string>, symptoms: Dict<string, seq<string>>, treatments: Dict<string, seq<string>>,
                       sim: (string, string) -> Similarity, round: real -> real): seq<Prediction> {
    Heuristic(Take(Ranked(ScoreAll(symptoms, user, sim, round)), TopCount), treatments)
  }

  /**
   * At most five entries, each from the first five ranked scores, each with
   * confidence above zero, in descending order of confidence.
   */
  lemma HeuristicShape(user: seq<string>, symptoms: Dict<string, seq<string>>, treatments: Dict<string, seq<string>>,
                       sim: (string, string) -> Similarity, round: real -> real)
    ensures |HeuristicOf(user, symptoms, treatments, sim, round)| <= TopCount
    ensures forall p :: p in HeuristicOf(user, symptoms, treatments, sim, round) ==>
      p.confidence > 0.0
      && exists s :: s in Take(Ranked(ScoreAll(symptoms, user, sim, round)), TopCount) && p == ToPrediction(s, treatments)
    ensures forall i, j :: 0 <= i < j < |HeuristicOf(user, symptoms, treatments, sim, round)| ==>
      HeuristicOf(user, symptoms, treatments, sim, round)[i].confidence
      >= HeuristicOf(user, symptoms, treatments, sim, round)[j].confidence
  {
    var top := Take(Ranked(ScoreAll(symptoms, user, sim, round)), TopCount);
    var kept := Filter(top, IsPositive);
    var h := HeuristicOf(user, symptoms, treatments, sim, round);
    SortDescSorted(ScoreAll(symptoms, user, sim, round), ConfidenceOf);
    FilterSortedDesc(top, IsPositive, ConfidenceOf);
    forall p | p in h ensures p.confidence > 0.0 && exists s :: s in top && p == ToPrediction(s, treatments) {
      var i :| 0 <= i < |h| && h[i] == p;
      assert kept[i] in kept;
    }
    forall i, j | 0 <= i < j < |h| ensures h[i].confidence >= h[j].confidence {
      assert h[i].confidence == ConfidenceOf(kept[i]);
    }
  }

  /** Over a table without repeated diseases, the heuristic list names no disease twice. */
  lemma HeuristicDistinct(user: seq<string>, symptoms: Dict<string, seq<string>>, treatments: Dict<string, seq<string>>,
                          sim: (string, string) -> Similarity, round: real -> real)
    requires WellFormed(symptoms)
    ensures DistinctBy(HeuristicOf(user, symptoms, treatments, sim, round), PredictionDisease)
  {
    var scores := ScoreAll(symptoms, user, sim, round);
    var top := Take(Ranked(scores), TopCount);
    var kept := Filter(top, IsPositive);
    ScoreNamesDistinct(symptoms, user, sim, round);
    SortDescDistinctBy(scores, ConfidenceOf, ScoreDisease);
    assert DistinctBy(top, ScoreDisease);
    FilterDistinctBy(top, IsPositive, ScoreDisease);
    var h := HeuristicOf(user, symptoms, treatments, sim, round);
    forall i, j | 0 <= i < j < |h| ensures h[i].disease != h[j].disease {
      assert h[i].disease == ScoreDisease(kept[i]);
    }
  }

  // ------------------------------------------------------------------
  // The classifier fallback and the whole request
  // ------------------------------------------------------------------

  /** The list is weak when it is empty or its best entry is below this. */
  const WeakBelow: real := 30.0

  /** The fixed confidence of the classifier's entry. */
  const FallbackConfidence: real := 30.0

  predicate NeedsFallback(h: seq<Prediction>) {
    h == [] || h[0].confidence < WeakBelow
  }

  predicate Lists(h: seq<Prediction>, disease: string) {
    exists p :: p in h && p.disease == disease
  }

  /** The classifier's entry: its matched symptoms, treatments and the status of confidence 30. */
  function FallbackPrediction(name: string, user: seq<string>, symptoms: Dict<string, seq<string>>,
                              treatments: Dict<string, seq<string>>, sim: (string, string) -> Similarity): Prediction {
    var (status, color) := StatusInfo(FallbackConfidence);
    Prediction(name, FallbackConfidence, MatchedBy(user, Get(symptoms, name).GetOr([]), sim),
               Get(treatments, name).GetOr([]), status, color)
  }

  /**
   * The fallback step. The classifier sees the normalised symptoms joined by
   * spaces; `None` stands for the exception the handler swallows.
   */
  function WithFallback(h: seq<Prediction>, user: seq<string>, symptoms: Dict<string, seq<string>>,
                        treatments: Dict<string, seq<string>>, sim: (string, string) -> Similarity,
                        classify: string -> Option<string>): seq<Prediction> {
    if !NeedsFallback(h) then h
    else
      match classify(Join(user, " "))
      case None => h
      case Some(name) =>
        if Lists(h, name) then h else [FallbackPrediction(name, user, symptoms, treatments, sim)] + h
  }

  datatype PredictError = NoSymptoms

  /** `predict_diseases_api`: an empty request is an error; anything else gets a list. */
  function Predict(raw: seq<string>, symptoms: Dict<string, seq<string>>, treatments: Dict<string, seq<string>>,
                   sim: (string, string) -> Similarity, round: real -> real,
                   classify: string -> Option<string>): (r: Result<seq<Prediction>, PredictError>)
    ensures r.Err? <==> raw == []
  {
    if raw == [] then Err(NoSymptoms)
    else
      var user := NormalizeQuery(raw);
      Ok(WithFallback(HeuristicOf(user, symptoms, treatments, sim, round), user, symptoms, treatments, sim, classify))
  }

  /**
   * The fallback changes the list only when it is weak and the classifier
   * names a disease not yet listed; the change is one entry at the front with
   * confidence 30 and the status of 30.
   */
  lemma FallbackPolicy(h: seq<Prediction>, user: seq<string>, symptoms: Dict<string, seq<string>>,
                       treatments: Dict<string, seq<string>>, sim: (string, string) -> Similarity,
                       classify: string -> Option<string>)
    ensures var r := WithFallback(h, user, symptoms, treatments, sim, classify);
      r == h || (
        NeedsFallback(h)
        && classify(Join(user, " ")) == Some(r[0].disease)
        && !Lists(h, r[0].disease)
        && r[1..] == h
        && r[0].confidence == 30.0
        && (r[0].status, r[0].statusColor) == StatusInfo(30.0))
    ensures var r := WithFallback(h, user, symptoms, treatments, sim, classify);
      NeedsFallback(h) && classify(Join(user, " ")).Some? && !Lists(h, classify(Join(user, " ")).value)
      ==> r != h
    ensures classify(Join(user, " ")).None? ==> WithFallback(h, user, symptoms, treatments, sim, classify) == h
  {
  }

  /** Over a table without repeated diseases the response names each disease once and has at most six entries. */
  lemma PredictionsUnique(raw: seq<string>, symptoms: Dict<string, seq<string>>, treatments: Dict<string, seq<string>>,
                          sim: (string, string) -> Similarity, round: real -> real,
                          classify: string -> Option<string>)
    requires raw != [] && WellFormed(symptoms)
    ensures DistinctBy(Predict(raw, symptoms, treatments, sim, round, classify).value, PredictionDisease)
    ensures |Predict(raw, symptoms, treatments, sim, round, classify).value| <= TopCount + 1
  {
    var user := NormalizeQuery(raw);
    var h := HeuristicOf(user, symptoms, treatments, sim, round);
    assert |h| <= TopCount by {
      HeuristicShape(user, symptoms, treatments, sim, round);
    }
    assert DistinctBy(h, PredictionDisease) by {
      HeuristicDistinct(user, symptoms, treatments, sim, round);
    }
    FallbackDistinct(h, user, symptoms, treatments, sim, classify);
  }

  /** The fallback adds at most one entry, and never one for a disease already listed. */
  lemma FallbackDistinct(h: seq<Prediction>, user: seq<string>, symptoms: Dict<string, seq<string>>,
                         treatments: Dict<string, seq<string>>, sim: (string, string) -> Similarity,
                         classify: string -> Option<string>)
    requires DistinctBy(h, PredictionDisease)
    ensures DistinctBy(WithFallback(h, user, symptoms, treatments, sim, classify), PredictionDisease)
    ensures |WithFallback(h, user, symptoms, treatments, sim, classify)| <= |h| + 1
  {
    var r := WithFallback(h, user, symptoms, treatments, sim, classify);
    if r != h {
      assert !Lists(h, r[0].disease) && r[1..] == h;
      forall i, j | 0 <= i < j < |r| ensures r[i].disease != r[j].disease {
        if i == 0 {
          assert r[j] == h[j - 1];
          assert r[j] in h;
        } else {
          assert r[i] == h[i - 1] && r[j] == h[j - 1];
        }
      }
    }
  }

  /**
   * A request whose entries are all blank is not rejected: nothing is
   * matched, every confidence is 0, the heuristic list is empty, and the
   * classifier alone decides the response.
   */
  lemma BlankRequest(raw: seq<string>, symptoms: Dict<string, seq<string>>, treatments: Dict<string, seq<string>>,
                     sim: (string, string) -> Similarity, round: real -> real,
                     classify: string -> Option<string>)
    requires raw != [] && forall s :: s in raw ==> Trim(s) == ""
    requires IsRounding(round)
    ensures NormalizeQuery(raw) == []
    ensures forall s :: s in ScoreAll(symptoms, [], sim, round) ==> s.confidence == 0.0 && s.matched == {}
    ensures HeuristicOf([], symptoms, treatments, sim, round) == []
    ensures Predict(raw, symptoms, treatments, sim, round, classify)
         == Ok(WithFallback([], [], symptoms, treatments, sim, classify))
  {
    BlankQueryIsEmpty(raw);
    BlankScoresZero(symptoms, sim, round);
    NothingPositive(ScoreAll(symptoms, [], sim, round), treatments);
  }

  /** With an empty heuristic list the response is the classifier's entry alone, or nothing. */
  lemma FallbackOnEmpty(user: seq<string>, symptoms: Dict<string, seq<string>>,
                        treatments: Dict<string, seq<string>>, sim: (string, string) -> Similarity,
                        classify: string -> Option<string>)
    ensures classify(Join(user, " ")).None? ==> WithFallback([], user, symptoms, treatments, sim, classify) == []
    ensures classify(Join(user, " ")).Some? ==>
      WithFallback([], user, symptoms, treatments, sim, classify)
      == [FallbackPrediction(classify(Join(user, " ")).value, user, symptoms, treatments, sim)]
  {
  }

  lemma BlankScoresZero(symptoms: Dict<string, seq<string>>, sim: (string, string) -> Similarity, round: real -> real)
    requires IsRounding(round)
    ensures forall s :: s in ScoreAll(symptoms, [], sim, round) ==> s.confidence == 0.0 && s.matched == {}
  {
    forall s | s in ScoreAll(symptoms, [], sim, round) ensures s.confidence == 0.0 && s.matched == {} {
      var e :| e in symptoms && e.1 != [] && s == ScoreOf(e.0, e.1, [], sim, round);
      BlankScore(e.0, e.1, sim, round);
    }
  }

  lemma BlankScore(disease: string, dsyms: seq<string>, sim: (string, string) -> Similarity, round: real -> real)
    requires dsyms != [] && IsRounding(round)
    ensures ScoreOf(disease, dsyms, [], sim, round).confidence == 0.0
    ensures ScoreOf(disease, dsyms, [], sim, round).matched == {}
  {
    assert MatchedBy([], dsyms, sim) == {};
    assert Percentage(0, |dsyms|) == 0.0;
  }

  /** Scores that are all zero leave the heuristic list empty. */
  lemma NothingPositive(scores: seq<Score>, treatments: Dict<string, seq<string>>)
    requires forall s :: s in scores ==> s.confidence == 0.0
    ensures Heuristic(Take(Ranked(scores), TopCount), treatments) == []
  {
    var ranked := Ranked(scores);
    forall x | x in Take(ranked, TopCount) ensures !IsPositive(x) {
      assert x in multiset(ranked);
    }
    FilterNone(Take(ranked, TopCount), IsPositive);
  }

  lemma {:induction false} BlankQueryIsEmpty(raw: seq<string>)
    requires forall s :: s in raw ==> Trim(s) == ""
    ensures NormalizeQuery(raw) == []
  {
    if raw != [] {
      BlankQueryIsEmpty(raw[..|raw| - 1]);
    }
  }

  // ------------------------------------------------------------------
  // The service state and the request handler
  // ------------------------------------------------------------------

  /** The module-level disease tables of the service. */
  class DiseaseTables {
    var symptomMap: Dict<string, seq<string>>
    var treatmentMap: Dict<string, seq<string>>

    /** Builds both maps from the dataset and rewrites each entry into its cleaned list. */
    constructor Load(rows: seq<DatasetRow>)
      ensures symptomMap == SymptomTable(rows)
      ensures treatmentMap == TreatmentTable(rows)
    {
      var symptoms := CleanValues(RawSymptomMap(rows), ParseSymptoms);
      var treatments := CleanValues(RawTreatmentMap(rows), ParseTreatments);
      symptomMap := symptoms;
      treatmentMap := treatments;
    }

    /** `predict_diseases_api` over the loaded tables, loop by loop. */
    method PredictDiseases(raw: seq<string>, sim: (string, string) -> Similarity, round: real -> real,
                           classify: string -> Option<string>)
      returns (r: Result<seq<Prediction>, PredictError>)
      ensures r == Predict(raw, symptomMap, treatmentMap, sim, round, classify)
    {
      if raw == [] {
        return Err(NoSymptoms);
      }
      var user := NormalizeQuery(raw);
      var scores := ScoreDiseases(symptomMap, user, sim, round);
      var predictions := TopPredictions(Ranked(scores), treatmentMap);
      assert predictions == HeuristicOf(user, symptomMap, treatmentMap, sim, round);
      predictions := AddFallback(predictions, user, symptomMap, treatmentMap, sim, classify);
      return Ok(predictions);
    }
  }

  /** The load-time cleaning loop: each entry of a dict rewritten into its parsed list, in place. */
  method CleanValues(raw: Dict<string, Cell>, parse: Cell -> seq<string>) returns (cleaned: Dict<string, seq<string>>)
    ensures cleaned == ParseValues(raw, parse)
  {
    cleaned := [];
    var i := 0;
    while i < |raw|
      invariant 0 <= i <= |raw|
      invariant cleaned == ParseValues(raw[..i], parse)
    {
      ParseValuesSnoc(raw, i, parse);
      cleaned := cleaned + [(raw[i].0, parse(raw[i].1))];
      i := i + 1;
    }
    assert raw[..i] == raw;
  }

  lemma ParseValuesSnoc(raw: Dict<string, Cell>, i: nat, parse: Cell -> seq<string>)
    requires i < |raw|
    ensures ParseValues(raw[..i + 1], parse) == ParseValues(raw[..i], parse) + [(raw[i].0, parse(raw[i].1))]
  {
  }

  /** The classifier block: a weak list gets the classifier's disease in front, unless it is listed. */
  method AddFallback(h: seq<Prediction>, user: seq<string>, symptoms: Dict<string, seq<string>>,
                     treatments: Dict<string, seq<string>>, sim: (string, string) -> Similarity,
                     classify: string -> Option<string>)
    returns (predictions: seq<Prediction>)
    ensures predictions == WithFallback(h, user, symptoms, treatments, sim, classify)
  {
    predictions := h;
    if predictions == [] || predictions[0].confidence < WeakBelow {
      var name := classify(Join(user, " "));
      if name.Some? {
        var dsyms := Get(symptoms, name.value).GetOr([]);
        var matched := MatchSymptoms(user, dsyms, sim);
        var (status, color) := StatusInfo(FallbackConfidence);
        var bert := Prediction(name.value, FallbackConfidence, matched,
                               Get(treatments, name.value).GetOr([]), status, color);
        if !Lists(predictions, name.value) {
          predictions := [bert] + predictions;
        }
      }
    }
  }

  /** The scoring loop: one score appended per disease with symptoms. */
  method ScoreDiseases(symptoms: Dict<string, seq<string>>, user: seq<string>,
                       sim: (string, string) -> Similarity, round: real -> real)
    returns (scores: seq<Score>)
    ensures scores == ScoreAll(symptoms, user, sim, round)
  {
    scores := [];
    var i := 0;
    while i < |symptoms|
      invariant 0 <= i <= |symptoms|
      invariant scores == ScoreAll(symptoms[..i], user, sim, round)
    {
      var (disease, dsyms) := symptoms[i];
      assert symptoms[..i + 1][..i] == symptoms[..i];
      if dsyms != [] {
        var matched := MatchSymptoms(user, dsyms, sim);
        scores := scores + [Score(disease, round(Percentage(|matched|, |dsyms|)), matched)];
      }
      i := i + 1;
    }
    assert symptoms[..i] == symptoms;
  }

  /** The loop over `scores[:5]` that appends the entries with confidence above zero. */
  method TopPredictions(ranked: seq<Score>, treatments: Dict<string, seq<string>>)
    returns (predictions: seq<Prediction>)
    ensures predictions == Heuristic(Take(ranked, TopCount), treatments)
  {
    var top := Take(ranked, TopCount);
    predictions := [];
    var i := 0;
    while i < |top|
      invariant 0 <= i <= |top|
      invariant predictions == Heuristic(top[..i], treatments)
    {
      HeuristicSnoc(top, i, treatments);
      if top[i].confidence > 0.0 {
        predictions := predictions + [ToPrediction(top[i], treatments)];
      }
      i := i + 1;
    }
    assert top[..i] == top;
  }

  lemma HeuristicSnoc(top: seq<Score>, i: nat, treatments: Dict<string, seq<string>>)
    requires i < |top|
    ensures Heuristic(top[..i + 1], treatments)
         == Heuristic(top[..i], treatments) + if IsPositive(top[i]) then [ToPrediction(top[i], treatments)] else []
  {
    assert top[..i + 1] == top[..i] + [top[i]];
    FilterSnoc(top[..i], top[i], IsPositive);
  }

  /** The nested loop that collects the disease symptoms the user's symptoms reach. */
  method MatchSymptoms(user: seq<string>, dsyms: seq<string>, sim: (string, string) -> Similarity)
    returns (matched: set<string>)
    ensures matched == MatchedBy(user, dsyms, sim)
  {
    matched := {};
    var k := 0;
    while k < |user|
      invariant 0 <= k <= |user|
      invariant matched == MatchedBy(user[..k], dsyms, sim)
    {
      var j := 0;
      while j < |dsyms|
        invariant 0 <= j <= |dsyms|
        invariant matched == MatchedBy(user[..k], dsyms, sim) + MatchedByOne(user[k], dsyms[..j], sim)
      {
        assert dsyms[..j + 1] == dsyms[..j] + [dsyms[j]];
        if sim(user[k], dsyms[j]) >= MatchThreshold {
          matched := matched + {dsyms[j]};
        }
        j := j + 1;
      }
      assert dsyms[..j] == dsyms;
      assert user[..k + 1][..k] == user[..k];
      k := k + 1;
    }
    assert user[..k] == user;
  }
}
