/**
 * The drug lookup of the consultation assistant (`assistance.py`): a disease
 * name is matched against the diseases the symptom model knows, that match
 * against the diseases of the formulas table, and the drugs listed for the
 * second match are returned; a formula search ranks drug names against a
 * query.
 *
 * The two CSV tables are parameters (their `Disease` and `Drug` cells, a
 * missing cell as `None`); rapidfuzz's `fuzz.ratio` and `fuzz.partial_ratio`
 * are parameters too, as functions from a query and a choice to a score.
 */
module DrugLookup {
  import opened Wrappers
  import opened Text
  import opened Seqs
  import opened Ranking
  import opened Dicts
  import opened Json

  /** A scorer: `fuzz.ratio` or `fuzz.partial_ratio` applied to a query and a choice. */
  type Scorer = (string, string) -> real

  // ------------------------------------------------------------------
  // Loading the tables
  // ------------------------------------------------------------------

  /** A row of the formulas CSV as read: its `Disease` and `Drug` cells. */
  datatype FormulaCells = FormulaCells(disease: Option<string>, drug: Option<string>)

  /** A row of the loaded formulas table. */
  datatype Formula = Formula(disease: string, drug: Option<string>)

  /** `.str.strip().str.lower()`, applied to the `Disease` column and to every query. */
  function Normalize(s: string): string {
    Lower(Trim(s))
  }

  /** A normalised name has no surrounding whitespace and no upper-case letter, and normalising it again changes nothing. */
  lemma NormalizeShape(s: string)
    ensures IsTrimmed(Normalize(s)) && IsLowerCase(Normalize(s))
    ensures Normalize(Normalize(s)) == Normalize(s)
  {
    LowerOfTrim(s);
    TrimIsTrimmed(Lower(s));
    StripLowerIdempotent(s);
  }

  /** The `Disease` column of the symptoms CSV after `dropna` and normalisation. */
  function LoadDiseases(cells: seq<Option<string>>): (r: seq<string>)
    ensures |r| <= |cells|
  {
    if cells == [] then []
    else
      LoadDiseases(cells[..|cells| - 1])
      + match cells[|cells| - 1] case None => [] case Some(s) => [Normalize(s)]
  }

  /** The formulas CSV after `dropna(subset=["Disease"])` and normalisation of that column. */
  function LoadFormulas(rows: seq<FormulaCells>): (r: seq<Formula>)
    ensures |r| <= |rows|
  {
    if rows == [] then []
    else
      var last := rows[|rows| - 1];
      LoadFormulas(rows[..|rows| - 1])
      + match last.disease case None => [] case Some(s) => [Formula(Normalize(s), last.drug)]
  }

  /**
   * Loading keeps exactly the rows with a disease, each disease normalised;
   * every loaded disease is stripped and lower-case.
   */
  lemma LoadDiseasesMeaning(cells: seq<Option<string>>, s: string)
    ensures s in LoadDiseases(cells) <==> exists c :: Some(c) in cells && s == Normalize(c)
    ensures s in LoadDiseases(cells) ==> IsTrimmed(s) && IsLowerCase(s)
  {
    if s in LoadDiseases(cells) {
      var c := LoadedFrom(cells, s);
      NormalizeShape(c);
    } else {
      forall c | Some(c) in cells ensures s != Normalize(c) {
        LoadDiseasesComplete(cells, c);
      }
    }
  }

  /** The cell a loaded disease was read from. */
  lemma {:induction false} LoadedFrom(cells: seq<Option<string>>, s: string) returns (c: string)
    requires s in LoadDiseases(cells)
    ensures Some(c) in cells && s == Normalize(c)
  {
    var init := cells[..|cells| - 1];
    var last := cells[|cells| - 1];
    var prev := LoadDiseases(init);
    if s in prev {
      c := LoadedFrom(init, s);
      var i :| 0 <= i < |init| && init[i] == Some(c);
      assert cells[i] == Some(c);
    } else {
      assert last.Some? && s == Normalize(last.value);
      c := last.value;
      assert cells[|cells| - 1] == Some(c);
    }
  }

  lemma {:induction false} LoadDiseasesComplete(cells: seq<Option<string>>, c: string)
    requires Some(c) in cells
    ensures Normalize(c) in LoadDiseases(cells)
  {
    var init := cells[..|cells| - 1];
    if cells[|cells| - 1] != Some(c) {
      assert Some(c) in init;
      LoadDiseasesComplete(init, c);
    }
  }

  /** The same for the formulas table: a row is kept exactly when it has a disease, drug untouched. */
  lemma LoadFormulasMeaning(rows: seq<FormulaCells>, f: Formula)
    ensures f in LoadFormulas(rows) <==>
      exists r :: r in rows && r.disease.Some? && f == Formula(Normalize(r.disease.value), r.drug)
    ensures f in LoadFormulas(rows) ==> IsTrimmed(f.disease) && IsLowerCase(f.disease)
  {
    if f in LoadFormulas(rows) {
      var i := FormulaFrom(rows, f);
      var r := rows[i];
      assert r in rows && LoadsAs(r, f);
      NormalizeShape(r.disease.value);
    } else {
      forall r | r in rows && r.disease.Some?
        ensures f != Formula(Normalize(r.disease.value), r.drug)
      {
        LoadFormulasComplete(rows, r);
      }
    }
  }

  /** Row `r` loads as formula `f`. */
  predicate LoadsAs(r: FormulaCells, f: Formula) {
    r.disease.Some? && f == Formula(Normalize(r.disease.value), r.drug)
  }

  /** The row a loaded formula was read from. */
  lemma {:induction false} FormulaFrom(rows: seq<FormulaCells>, f: Formula) returns (i: nat)
    requires f in LoadFormulas(rows)
    ensures i < |rows| && LoadsAs(rows[i], f)
  {
    var init := rows[..|rows| - 1];
    if f in LoadFormulas(init) {
      i := FormulaFrom(init, f);
      assert init[i] == rows[i];
    } else {
      i := |rows| - 1;
    }
  }

  lemma {:induction false} LoadFormulasComplete(rows: seq<FormulaCells>, r: FormulaCells)
    requires r in rows && r.disease.Some?
    ensures Formula(Normalize(r.disease.value), r.drug) in LoadFormulas(rows)
  {
    var init := rows[..|rows| - 1];
    if rows[|rows| - 1] != r {
      assert r in init;
      LoadFormulasComplete(init, r);
    }
  }

  /** The loaded tables. */
  datatype Tables = Tables(symptomDiseases: seq<string>, formulas: seq<Formula>)

  function Load(symptomCells: seq<Option<string>>, formulaRows: seq<FormulaCells>): Tables {
    Tables(LoadDiseases(symptomCells), LoadFormulas(formulaRows))
  }

  /** `df_formulas["Disease"]`. */
  function FormulaDiseases(formulas: seq<Formula>): (r: seq<string>)
    ensures |r| == |formulas|
    ensures forall i :: 0 <= i < |formulas| ==> r[i] == formulas[i].disease
  {
    seq(|formulas|, i requires 0 <= i < |formulas| => formulas[i].disease)
  }

  // ------------------------------------------------------------------
  // Matching
  // ------------------------------------------------------------------

  /**
   * `process.extractOne(query, choices, scorer=...)`: the first choice with
   * the highest score, and that score; `None` when there are no choices.
   */
  function BestMatch(query: string, choices: seq<string>, score: Scorer): Option<(string, real)> {
    if choices == [] then None
    else
      var i := FirstMaxIndex(choices, c => score(query, c));
      Some((choices[i], score(query, choices[i])))
  }

  /**
   * There is a best match exactly when there are choices; it is one of them,
   * it carries its own score, no choice scores higher, and no earlier choice
   * scores as high.
   */
  lemma BestMatchMeaning(query: string, choices: seq<string>, score: Scorer)
    ensures BestMatch(query, choices, score).None? <==> choices == []
    ensures BestMatch(query, choices, score).Some? ==>
      var (name, s) := BestMatch(query, choices, score).value;
      name in choices && s == score(query, name)
      && (forall c :: c in choices ==> score(query, c) <= s)
      && exists i :: 0 <= i < |choices| && choices[i] == name && forall j :: 0 <= j < i ==> score(query, choices[j]) < s
  {
    if choices != [] {
      var i := FirstMaxIndex(choices, c => score(query, c));
      forall c | c in choices ensures score(query, c) <= score(query, choices[i]) {
        var j :| 0 <= j < |choices| && choices[j] == c;
        assert (c => score(query, c))(choices[j]) <= (c => score(query, c))(choices[i]);
      }
    }
  }

  /**
   * `best[1] < threshold`: `None` when the threshold is not something a
   * number compares with (comparing raises), otherwise whether the score
   * falls short.
   */
  function Below(score: real, threshold: Option<real>): Option<bool> {
    match threshold
    case None => None
    case Some(t) => Some(score < t)
  }

  /** `df_formulas.loc[df_formulas["Disease"] == disease, "Drug"].dropna()`. */
  function DrugColumn(formulas: seq<Formula>, disease: string): seq<string> {
    if formulas == [] then []
    else
      var last := formulas[|formulas| - 1];
      DrugColumn(formulas[..|formulas| - 1], disease)
      + if last.disease == disease && last.drug.Some? then [last.drug.value] else []
  }

  /** `.unique().tolist()` of that column. */
  function DrugsFor(formulas: seq<Formula>, disease: string): seq<string> {
    Dedup(DrugColumn(formulas, disease))
  }

  lemma {:induction false} DrugColumnMeaning(formulas: seq<Formula>, disease: string, drug: string)
    ensures drug in DrugColumn(formulas, disease) <==> Formula(disease, Some(drug)) in formulas
  {
    if formulas != [] {
      var init := formulas[..|formulas| - 1];
      DrugColumnMeaning(init, disease, drug);
      assert formulas == init + [formulas[|formulas| - 1]];
    }
  }

  /**
   * The drugs of a disease are the drugs of the rows for that disease, each
   * once, in the order of their first rows, rows without a drug contributing
   * nothing.
   */
  lemma DrugsForMeaning(formulas: seq<Formula>, disease: string, drug: string)
    ensures drug in DrugsFor(formulas, disease) <==> Formula(disease, Some(drug)) in formulas
    ensures Distinct(DrugsFor(formulas, disease))
    ensures var column, r := DrugColumn(formulas, disease), DrugsFor(formulas, disease);
      forall i, j :: 0 <= i < j < |r| ==> FirstIndex(column, r[i]) < FirstIndex(column, r[j])
  {
    DrugColumnMeaning(formulas, disease, drug);
    DedupDistinct(DrugColumn(formulas, disease));
    DedupOrder(DrugColumn(formulas, disease));
  }

  // ------------------------------------------------------------------
  // get_drugs_for_disease and /api/drugs-for-disease
  // ------------------------------------------------------------------

  /** How a lookup ends, without the message text. */
  datatype DrugAnswer =
    | Found(input: string, symptomMatch: string, formulaMatch: string, drugs: seq<string>)
    | NotInSymptoms(input: string)
    | NoFormula(symptomMatch: string)
    | NoDrugs(formulaMatch: string)

  const DefaultThreshold: real := 85.0
  const InternalError: int := 500
  const BadRequest: int := 400

  /**
   * The decision chain shared by the function and the endpoint, on a name
   * already normalised. The threshold is `None` when it cannot be compared
   * with a score; the comparison, and the 500 it then raises, happens only
   * once a best match exists.
   */
  function LookupDrugs(t: Tables, name: string, threshold: Option<real>, ratio: Scorer): (r: Result<DrugAnswer, int>)
    ensures threshold.Some? ==> r.Ok?
    ensures r.Err? ==> r.error == InternalError
  {
    match BestMatch(name, Dedup(t.symptomDiseases), ratio)
    case None => Ok(NotInSymptoms(name))
    case Some((symptomMatch, s1)) =>
      match Below(s1, threshold)
      case None => Err(InternalError)
      case Some(true) => Ok(NotInSymptoms(name))
      case Some(false) => LookupFormula(t, name, symptomMatch, threshold, ratio)
  }

  /**
   * The second half of the chain, once the input has matched `symptomMatch`:
   * it never reports the input itself missing.
   */
  function LookupFormula(t: Tables, name: string, symptomMatch: string, threshold: Option<real>, ratio: Scorer)
    : (r: Result<DrugAnswer, int>)
    ensures threshold.Some? ==> r.Ok?
    ensures r.Err? ==> r.error == InternalError
    ensures r.Ok? ==> !r.value.NotInSymptoms?
  {
    match BestMatch(symptomMatch, Dedup(FormulaDiseases(t.formulas)), ratio)
    case None => Ok(NoFormula(symptomMatch))
    case Some((formulaMatch, s2)) =>
      match Below(s2, threshold)
      case None => Err(InternalError)
      case Some(true) => Ok(NoFormula(symptomMatch))
      case Some(false) =>
        var drugs := DrugsFor(t.formulas, formulaMatch);
        if drugs == [] then Ok(NoDrugs(formulaMatch)) else Ok(Found(name, symptomMatch, formulaMatch, drugs))
  }

  /**
   * A found answer names a disease of the symptoms table that is the best
   * match for the input and clears the threshold, a disease of the formulas
   * table that is the best match for that disease (not for the input) and
   * clears the threshold too, and the non-empty distinct drugs listed for
   * the second one.
   */
  lemma FoundMeaning(t: Tables, name: string, threshold: real, ratio: Scorer)
    requires LookupDrugs(t, name, Some(threshold), ratio).value.Found?
    ensures var a := LookupDrugs(t, name, Some(threshold), ratio).value;
      a.input == name
      && a.symptomMatch in t.symptomDiseases
      && ratio(name, a.symptomMatch) >= threshold
      && (forall d :: d in t.symptomDiseases ==> ratio(name, d) <= ratio(name, a.symptomMatch))
      && a.formulaMatch in FormulaDiseases(t.formulas)
      && ratio(a.symptomMatch, a.formulaMatch) >= threshold
      && (forall f :: f in t.formulas ==> ratio(a.symptomMatch, f.disease) <= ratio(a.symptomMatch, a.formulaMatch))
      && a.drugs != [] && Distinct(a.drugs)
      && forall drug :: drug in a.drugs <==> Formula(a.formulaMatch, Some(drug)) in t.formulas
  {
    var a := LookupDrugs(t, name, Some(threshold), ratio).value;
    var symptoms := Dedup(t.symptomDiseases);
    var diseases := Dedup(FormulaDiseases(t.formulas));
    BestMatchMeaning(name, symptoms, ratio);
    BestMatchMeaning(a.symptomMatch, diseases, ratio);
    forall f | f in t.formulas ensures f.disease in diseases {
      var i :| 0 <= i < |t.formulas| && t.formulas[i] == f;
      assert FormulaDiseases(t.formulas)[i] == f.disease;
    }
    forall drug ensures drug in a.drugs <==> Formula(a.formulaMatch, Some(drug)) in t.formulas {
      DrugsForMeaning(t.formulas, a.formulaMatch, drug);
    }
    DedupDistinct(DrugColumn(t.formulas, a.formulaMatch));
  }

  /**
   * The first choice of `Dedup(col)` that reaches the best score is also the
   * first entry of `col` to reach it: deduplication keeps first appearances
   * in order.
   */
  lemma FirstMaximalRow(query: string, col: seq<string>, ratio: Scorer, m: string, p: nat)
    requires p < |Dedup(col)| && Dedup(col)[p] == m
    requires forall c :: c in col ==> ratio(query, c) <= ratio(query, m)
    requires forall q :: 0 <= q < p ==> ratio(query, Dedup(col)[q]) < ratio(query, m)
    ensures forall j :: 0 <= j < FirstIndex(col, m) ==> ratio(query, col[j]) < ratio(query, m)
  {
    var d := Dedup(col);
    DedupOrder(col);
    DedupDistinct(col);
    forall j | 0 <= j < FirstIndex(col, m)
      ensures ratio(query, col[j]) < ratio(query, m)
    {
      var c := col[j];
      assert c in d;
      var q :| 0 <= q < |d| && d[q] == c;
      assert FirstIndex(col, d[q]) <= j < FirstIndex(col, d[p]);
      assert q < p;
    }
  }

  /**
   * The best match among the distinct entries of a non-empty column is the
   * entry of its first row with the best score.
   */
  lemma BestIsFirstMaximalRow(query: string, col: seq<string>, ratio: Scorer)
    requires col != []
    ensures BestMatch(query, Dedup(col), ratio).Some?
    ensures var m := BestMatch(query, Dedup(col), ratio).value.0;
      (exists i :: 0 <= i < |col| && col[i] == m && forall j :: 0 <= j < i ==> ratio(query, col[j]) < ratio(query, m))
      && forall c :: c in col ==> ratio(query, c) <= ratio(query, m)
  {
    var d := Dedup(col);
    assert col[0] in d;
    BestMatchMeaning(query, d, ratio);
    var m := BestMatch(query, d, ratio).value.0;
    var p :| 0 <= p < |d| && d[p] == m && forall q :: 0 <= q < p ==> ratio(query, d[q]) < ratio(query, m);
    FirstMaximalRow(query, col, ratio, m, p);
    var i := FirstIndex(col, m);
    assert col[i] == m;
  }

  /** Every formula row's disease is among the deduplicated choices. */
  lemma FormulaRowsAreChoices(t: Tables)
    ensures forall f :: f in t.formulas ==> f.disease in Dedup(FormulaDiseases(t.formulas))
  {
    var col := FormulaDiseases(t.formulas);
    forall f | f in t.formulas ensures f.disease in col {
      var i :| 0 <= i < |t.formulas| && t.formulas[i] == f;
      assert col[i] == f.disease;
    }
  }

  /** With a numeric threshold, no formula is reported exactly when no formula row's disease reaches it. */
  lemma NoFormulaMeaning(t: Tables, name: string, symptomMatch: string, threshold: real, ratio: Scorer)
    ensures var a := LookupFormula(t, name, symptomMatch, Some(threshold), ratio).value;
      (a.NoFormula? <==> forall f :: f in t.formulas ==> ratio(symptomMatch, f.disease) < threshold)
      && (a.NoFormula? ==> a.symptomMatch == symptomMatch)
  {
    var diseases := Dedup(FormulaDiseases(t.formulas));
    BestMatchMeaning(symptomMatch, diseases, ratio);
    FormulaRowsAreChoices(t);
  }

  /** Past the no-formula answer, the formula match is the best match among the formula diseases. */
  lemma FormulaMatchIsBest(t: Tables, name: string, symptomMatch: string, threshold: real, ratio: Scorer)
    ensures var a := LookupFormula(t, name, symptomMatch, Some(threshold), ratio).value;
      !a.NoFormula? ==>
        (a.NoDrugs? || a.Found?)
        && BestMatch(symptomMatch, Dedup(FormulaDiseases(t.formulas)), ratio).Some?
        && a.formulaMatch == BestMatch(symptomMatch, Dedup(FormulaDiseases(t.formulas)), ratio).value.0
  {
  }

  /** The best match among the formula diseases is the disease of the first formula row with the best score. */
  lemma FirstFormulaRow(formulas: seq<Formula>, query: string, ratio: Scorer)
    requires formulas != []
    ensures BestMatch(query, Dedup(FormulaDiseases(formulas)), ratio).Some?
    ensures var m := BestMatch(query, Dedup(FormulaDiseases(formulas)), ratio).value.0;
      (exists i :: 0 <= i < |formulas| && formulas[i].disease == m
         && forall j :: 0 <= j < i ==> ratio(query, formulas[j].disease) < ratio(query, m))
      && forall f :: f in formulas ==> ratio(query, f.disease) <= ratio(query, m)
  {
    var col := FormulaDiseases(formulas);
    BestIsFirstMaximalRow(query, col, ratio);
    var m := BestMatch(query, Dedup(col), ratio).value.0;
    var i :| 0 <= i < |col| && col[i] == m && forall j :: 0 <= j < i ==> ratio(query, col[j]) < ratio(query, m);
    assert formulas[i].disease == m;
    forall f | f in formulas ensures ratio(query, f.disease) <= ratio(query, m) {
      var k :| 0 <= k < |formulas| && formulas[k] == f;
      assert col[k] == f.disease;
    }
  }

  /** Past that, the formula match is the disease of the first formula row with the best score. */
  lemma FormulaChoice(t: Tables, name: string, symptomMatch: string, threshold: real, ratio: Scorer)
    ensures var a := LookupFormula(t, name, symptomMatch, Some(threshold), ratio).value;
      !a.NoFormula? ==>
        (a.NoDrugs? || a.Found?)
        && (exists i :: 0 <= i < |t.formulas| && t.formulas[i].disease == a.formulaMatch
              && forall j :: 0 <= j < i ==> ratio(symptomMatch, t.formulas[j].disease) < ratio(symptomMatch, a.formulaMatch))
        && (forall f :: f in t.formulas ==> ratio(symptomMatch, f.disease) <= ratio(symptomMatch, a.formulaMatch))
  {
    FormulaMatchIsBest(t, name, symptomMatch, threshold, ratio);
    if t.formulas != [] {
      FirstFormulaRow(t.formulas, symptomMatch, ratio);
    }
  }

  /** Once a formula matches, the answer is no drugs exactly when no row pairs it with a drug, and else all its drugs. */
  lemma FormulaDrugs(t: Tables, name: string, symptomMatch: string, threshold: real, ratio: Scorer)
    ensures var a := LookupFormula(t, name, symptomMatch, Some(threshold), ratio).value;
      (a.NoDrugs? || a.Found?) ==>
        (a.NoDrugs? <==> forall drug :: Formula(a.formulaMatch, Some(drug)) !in t.formulas)
        && (a.Found? ==> a == Found(name, symptomMatch, a.formulaMatch, DrugsFor(t.formulas, a.formulaMatch)))
  {
    var a := LookupFormula(t, name, symptomMatch, Some(threshold), ratio).value;
    if a.NoDrugs? || a.Found? {
      var m := a.formulaMatch;
      forall drug ensures drug in DrugsFor(t.formulas, m) <==> Formula(m, Some(drug)) in t.formulas {
        DrugsForMeaning(t.formulas, m, drug);
      }
      if DrugsFor(t.formulas, m) != [] {
        assert DrugsFor(t.formulas, m)[0] in DrugsFor(t.formulas, m);
      }
    }
  }

  /**
   * With a numeric threshold, the formula stage reports no formula exactly
   * when no formula row's disease reaches the threshold. Otherwise it picks
   * the disease of the first row with the best score, and answers no drugs
   * exactly when no row pairs that disease with a drug, and else every drug
   * listed for it.
   */
  lemma FormulaOutcome(t: Tables, name: string, symptomMatch: string, threshold: real, ratio: Scorer)
    ensures var a := LookupFormula(t, name, symptomMatch, Some(threshold), ratio).value;
      (a.NoFormula? <==> forall f :: f in t.formulas ==> ratio(symptomMatch, f.disease) < threshold)
      && (a.NoFormula? ==> a.symptomMatch == symptomMatch)
      && (!a.NoFormula? ==>
            (a.NoDrugs? || a.Found?)
            && (exists i :: 0 <= i < |t.formulas| && t.formulas[i].disease == a.formulaMatch
                  && forall j :: 0 <= j < i ==> ratio(symptomMatch, t.formulas[j].disease) < ratio(symptomMatch, a.formulaMatch))
            && (forall f :: f in t.formulas ==> ratio(symptomMatch, f.disease) <= ratio(symptomMatch, a.formulaMatch))
            && (a.NoDrugs? <==> forall drug :: Formula(a.formulaMatch, Some(drug)) !in t.formulas)
            && (a.Found? ==> a == Found(name, symptomMatch, a.formulaMatch, DrugsFor(t.formulas, a.formulaMatch))))
  {
    NoFormulaMeaning(t, name, symptomMatch, threshold, ratio);
    FormulaChoice(t, name, symptomMatch, threshold, ratio);
    FormulaDrugs(t, name, symptomMatch, threshold, ratio);
  }

  /**
   * With a numeric threshold, an input that is not reported missing goes on
   * to the formula stage with the disease of the first symptoms row that
   * scores best, which reaches the threshold.
   */
  lemma SymptomStageOutcome(t: Tables, name: string, threshold: real, ratio: Scorer)
    ensures var a := LookupDrugs(t, name, Some(threshold), ratio).value;
      !a.NotInSymptoms? ==>
        exists i :: 0 <= i < |t.symptomDiseases|
          && ratio(name, t.symptomDiseases[i]) >= threshold
          && (forall d :: d in t.symptomDiseases ==> ratio(name, d) <= ratio(name, t.symptomDiseases[i]))
          && (forall j :: 0 <= j < i ==> ratio(name, t.symptomDiseases[j]) < ratio(name, t.symptomDiseases[i]))
          && a == LookupFormula(t, name, t.symptomDiseases[i], Some(threshold), ratio).value
  {
    if t.symptomDiseases != [] {
      BestIsFirstMaximalRow(name, t.symptomDiseases, ratio);
    }
  }

  /** The input is reported missing exactly when the symptoms table is empty or its best match falls short. */
  lemma NotInSymptomsMeaning(t: Tables, name: string, threshold: real, ratio: Scorer)
    ensures LookupDrugs(t, name, Some(threshold), ratio).value.NotInSymptoms? <==>
      t.symptomDiseases == [] || exists d :: d in t.symptomDiseases && forall d' :: d' in t.symptomDiseases ==> ratio(name, d') <= ratio(name, d) < threshold
  {
    var symptoms := Dedup(t.symptomDiseases);
    var missing := LookupDrugs(t, name, Some(threshold), ratio).value.NotInSymptoms?;
    BestMatchMeaning(name, symptoms, ratio);
    if symptoms == [] {
      assert t.symptomDiseases == [];
      assert missing;
    } else {
      var (best, score) := BestMatch(name, symptoms, ratio).value;
      assert best in t.symptomDiseases;
      assert forall d' :: d' in t.symptomDiseases ==> ratio(name, d') <= score;
      assert missing <==> score < threshold;
      if score < threshold {
        assert forall d' :: d' in t.symptomDiseases ==> ratio(name, d') <= ratio(name, best) < threshold;
      } else {
        forall d | d in t.symptomDiseases
          ensures !forall d' :: d' in t.symptomDiseases ==> ratio(name, d') <= ratio(name, d) < threshold
        {
          if ratio(name, d) < threshold {
            assert ratio(name, best) > ratio(name, d);
          }
        }
      }
    }
  }

  /** `get_drugs_for_disease(user_input)`: the chain on the normalised input with the default threshold. */
  function GetDrugsForDisease(t: Tables, userInput: string, ratio: Scorer): DrugAnswer {
    LookupDrugs(t, Normalize(userInput), Some(DefaultThreshold), ratio).value
  }

  /** `data.get('threshold', 85)` as something a score is compared with. */
  function ThresholdOf(fields: Dict<string, Value>): Option<real> {
    match Get(fields, "threshold")
    case None => Some(DefaultThreshold)
    case Some(v) => AsNumber(v)
  }

  /** `data.get(key, '').strip().lower()`: `None` when the value is not a string (`strip` raises). */
  function TextOf(fields: Dict<string, Value>, key: string): Option<string> {
    match Get(fields, key)
    case None => Some("")
    case Some(v) => if v.String? then Some(Normalize(v.s)) else None
  }

  /** `/api/drugs-for-disease` on the decoded request body. */
  function ApiDrugsForDisease(t: Tables, data: Value, ratio: Scorer): Result<DrugAnswer, int> {
    if !data.Object? then Err(InternalError)
    else match TextOf(data.fields, "disease")
      case None => Err(InternalError)
      case Some(name) =>
        if name == "" then Err(BadRequest)
        else LookupDrugs(t, name, ThresholdOf(data.fields), ratio)
  }

  /**
   * A missing or blank disease name is a 400; otherwise the endpoint answers
   * as the function does on the same name with the default threshold, unless
   * the request sets its own.
   */
  lemma ApiMatchesFunction(t: Tables, fields: Dict<string, Value>, input: string, ratio: Scorer)
    ensures Get(fields, "disease").None? ==> ApiDrugsForDisease(t, Object(fields), ratio) == Err(BadRequest)
    ensures Get(fields, "disease") == Some(String(input)) && Get(fields, "threshold").None? ==>
      if Normalize(input) == "" then ApiDrugsForDisease(t, Object(fields), ratio) == Err(BadRequest)
      else ApiDrugsForDisease(t, Object(fields), ratio) == Ok(GetDrugsForDisease(t, input, ratio))
  {
  }

  /** Only a malformed body or threshold makes the endpoint fail with a 500, and then only past the name check. */
  lemma ApiErrors(t: Tables, data: Value, ratio: Scorer)
    ensures var r := ApiDrugsForDisease(t, data, ratio);
      r.Err? ==> r.error == BadRequest || r.error == InternalError
    ensures data.Object? && TextOf(data.fields, "disease").Some? && ThresholdOf(data.fields).Some? ==>
      ApiDrugsForDisease(t, data, ratio).Err? ==> ApiDrugsForDisease(t, data, ratio).error == BadRequest
  {
  }

  // ------------------------------------------------------------------
  // /api/search-formulas
  // ------------------------------------------------------------------

  datatype Scored = Scored(name: string, score: real)

  function ScoreOf(m: Scored): real { m.score }
  function NameOf(m: Scored): string { m.name }

  const DefaultLimit: nat := 10
  const MinQueryLength: nat := 2
  const MinScore: real := 60.0

  /** `data.get('limit', 10)`, when it is a whole number; any other value is not modelled and fails. */
  function LimitOf(fields: Dict<string, Value>): Option<nat> {
    match Get(fields, "limit")
    case None => Some(DefaultLimit)
    case Some(v) => if v.Number? && v.x == v.x.Floor as real && v.x >= 0.0 then Some(v.x.Floor as nat) else None
  }

  /** `df_formulas["Drug"].dropna().unique().tolist()`. */
  function AllDrugs(formulas: seq<Formula>): seq<string> {
    Dedup(AllDrugCells(formulas))
  }

  function AllDrugCells(formulas: seq<Formula>): seq<string> {
    if formulas == [] then []
    else
      var last := formulas[|formulas| - 1];
      AllDrugCells(formulas[..|formulas| - 1]) + if last.drug.Some? then [last.drug.value] else []
  }

  lemma {:induction false} AllDrugCellsMeaning(formulas: seq<Formula>, drug: string)
    ensures drug in AllDrugCells(formulas) <==> exists f :: f in formulas && f.drug == Some(drug)
  {
    if formulas != [] {
      var init := formulas[..|formulas| - 1];
      AllDrugCellsMeaning(init, drug);
      assert formulas == init + [formulas[|formulas| - 1]];
    }
  }

  /** Each drug with its score against the query. */
  function ScoreAll(query: string, drugs: seq<string>, partialRatio: Scorer): (r: seq<Scored>)
    ensures |r| == |drugs|
    ensures forall i :: 0 <= i < |drugs| ==> r[i] == Scored(drugs[i], partialRatio(query, drugs[i]))
  {
    seq(|drugs|, i requires 0 <= i < |drugs| => Scored(drugs[i], partialRatio(query, drugs[i])))
  }

  /** `process.extract(query, all_drugs, scorer=fuzz.partial_ratio, limit=limit)` filtered to scores of 60 or more. */
  function SearchMatches(formulas: seq<Formula>, query: string, limit: nat, partialRatio: Scorer): seq<Scored> {
    var matches := Take(SortDesc(ScoreAll(query, AllDrugs(formulas), partialRatio), ScoreOf), limit);
    Filter(matches, (m: Scored) => m.score >= MinScore)
  }

  /** `/api/search-formulas` on the decoded request body: the kept matches, or an error status. */
  function ApiSearchFormulas(t: Tables, data: Value, partialRatio: Scorer): Result<seq<Scored>, int> {
    if !data.Object? then Err(InternalError)
    else match TextOf(data.fields, "query")
      case None => Err(InternalError)
      case Some(query) =>
        if |query| < MinQueryLength then Ok([])
        else match LimitOf(data.fields)
          case None => Err(InternalError)
          case Some(limit) => Ok(SearchMatches(t.formulas, query, limit, partialRatio))
  }

  /**
   * A query of fewer than two characters finds nothing, successfully. The
   * results are at most `limit`, each a drug of the table scored against the
   * normalised query with at least 60, best first, no drug twice; and when
   * the table lists no more drugs than the limit, no drug scoring 60 or more
   * is left out.
   */
  lemma SearchShape(t: Tables, fields: Dict<string, Value>, partialRatio: Scorer, drug: string)
    ensures var q := TextOf(fields, "query");
      q.Some? && |q.value| < MinQueryLength ==> ApiSearchFormulas(t, Object(fields), partialRatio) == Ok([])
    ensures var r := ApiSearchFormulas(t, Object(fields), partialRatio);
      r.Ok? && |TextOf(fields, "query").value| >= MinQueryLength ==>
        var query := TextOf(fields, "query").value;
        |r.value| <= LimitOf(fields).value
        && SortedDesc(r.value, ScoreOf)
        && DistinctBy(r.value, NameOf)
        && (forall m :: m in r.value ==>
              m.score >= MinScore && m.score == partialRatio(query, m.name)
              && exists f :: f in t.formulas && f.drug == Some(m.name))
        && (|AllDrugs(t.formulas)| <= LimitOf(fields).value && partialRatio(query, drug) >= MinScore
            && (exists f :: f in t.formulas && f.drug == Some(drug)) ==>
              Scored(drug, partialRatio(query, drug)) in r.value)
  {
    var r := ApiSearchFormulas(t, Object(fields), partialRatio);
    if r.Ok? && |TextOf(fields, "query").value| >= MinQueryLength {
      var query := TextOf(fields, "query").value;
      var limit := LimitOf(fields).value;
      SearchMatchesShape(t.formulas, query, limit, partialRatio, drug);
    }
  }

  lemma SearchMatchesShape(formulas: seq<Formula>, query: string, limit: nat, partialRatio: Scorer, drug: string)
    ensures var r := SearchMatches(formulas, query, limit, partialRatio);
      |r| <= limit
      && SortedDesc(r, ScoreOf)
      && DistinctBy(r, NameOf)
      && (forall m :: m in r ==>
            m.score >= MinScore && m.score == partialRatio(query, m.name)
            && exists f :: f in formulas && f.drug == Some(m.name))
      && (|AllDrugs(formulas)| <= limit && partialRatio(query, drug) >= MinScore
          && (exists f :: f in formulas && f.drug == Some(drug)) ==>
            Scored(drug, partialRatio(query, drug)) in r)
  {
    var all := AllDrugs(formulas);
    var scored := ScoreAll(query, all, partialRatio);
    var sorted := SortDesc(scored, ScoreOf);
    var matches := Take(sorted, limit);
    var keep := (m: Scored) => m.score >= MinScore;
    var r := Filter(matches, keep);
    SortDescSorted(scored, ScoreOf);
    FilterSortedDesc(matches, keep, ScoreOf);
    DedupDistinct(AllDrugCells(formulas));
    SortDescDistinctBy(scored, ScoreOf, NameOf);
    FilterDistinctBy(matches, keep, NameOf);
    forall m | m in r
      ensures m.score >= MinScore && m.score == partialRatio(query, m.name)
      ensures exists f :: f in formulas && f.drug == Some(m.name)
    {
      SearchMember(formulas, query, limit, partialRatio, m);
    }
    if |all| <= limit && partialRatio(query, drug) >= MinScore && exists f :: f in formulas && f.drug == Some(drug) {
      SearchComplete(formulas, query, limit, partialRatio, drug);
    }
  }
  /** A kept match is a drug of the table with its own score, at least 60. */
  lemma SearchMember(formulas: seq<Formula>, query: string, limit: nat, partialRatio: Scorer, m: Scored)
    requires m in SearchMatches(formulas, query, limit, partialRatio)
    ensures m.score >= MinScore && m.score == partialRatio(query, m.name)
    ensures exists f :: f in formulas && f.drug == Some(m.name)
  {
    var all := AllDrugs(formulas);
    var scored := ScoreAll(query, all, partialRatio);
    var sorted := SortDesc(scored, ScoreOf);
    var matches := Take(sorted, limit);
    assert m in matches;
    assert m in sorted;
    assert m in multiset(scored);
    var i :| 0 <= i < |scored| && scored[i] == m;
    assert all[i] in all;
    AllDrugCellsMeaning(formulas, m.name);
  }

  /** With no more drugs than the limit, a drug scoring 60 or more is kept. */
  lemma SearchComplete(formulas: seq<Formula>, query: string, limit: nat, partialRatio: Scorer, drug: string)
    requires |AllDrugs(formulas)| <= limit && partialRatio(query, drug) >= MinScore
    requires exists f :: f in formulas && f.drug == Some(drug)
    ensures Scored(drug, partialRatio(query, drug)) in SearchMatches(formulas, query, limit, partialRatio)
  {
    var all := AllDrugs(formulas);
    var scored := ScoreAll(query, all, partialRatio);
    var sorted := SortDesc(scored, ScoreOf);
    var matches := Take(sorted, limit);
    var keep := (m: Scored) => m.score >= MinScore;
    AllDrugCellsMeaning(formulas, drug);
    var i :| 0 <= i < |all| && all[i] == drug;
    var m := Scored(drug, partialRatio(query, drug));
    assert scored[i] == m;
    assert m in multiset(sorted);
    assert matches == sorted;
    FilterComplete(matches, keep, m);
  }

}
