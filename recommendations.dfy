/**
 * The `/find-doctors` handler of the doctor-recommendation service
 * (`find_doctor.py`): the newest symptom check of the user is picked, its
 * five most confident predictions are mapped to specialties by Gemini, and
 * the doctors of those specialties are listed next to all doctors grouped by
 * specialty.
 *
 * Firestore collections are sequences of documents in stream order; Gemini
 * is a parameter: whether it is configured, the reply it gives for a list of
 * disease names (or a failure), and the `json.loads` that decodes the reply.
 */
module Recommendations {
  import opened Wrappers
  import opened Seqs
  import opened Ranking
  import opened Dicts
  import opened Json
  import opened GeminiReply
  import opened Specialties
  import Doctors

  // ------------------------------------------------------------------
  // get_latest_predictions
  // ------------------------------------------------------------------

  /** A `symptom_checks` document: its id and its fields. */
  datatype CheckDoc = CheckDoc(id: string, data: Dict<string, Value>)

  /** The query `where("userId", "==", user_id)`. */
  function ChecksOf(checks: seq<CheckDoc>, userId: string): seq<CheckDoc> {
    Filter(checks, (c: CheckDoc) => Get(c.data, "userId") == Some(String(userId)))
  }

  /**
   * `get_timestamp`: the `seconds` of a Firestore timestamp or of a dict
   * holding `seconds`, the epoch time of a `datetime`, and 0 for a missing,
   * falsy or other value. `None` when the key is a value the sort cannot
   * compare with numbers (a dict whose `seconds` is not a number).
   */
  function CreatedAt(data: Dict<string, Value>): Option<real> {
    match Get(data, "createdAt")
    case None => Some(0.0)
    case Some(v) =>
      if !Truthy(v) then Some(0.0)
      else match v
        case Timestamp(s) => Some(s as real)
        case Object(f) => (match Get(f, "seconds") case None => Some(0.0) case Some(x) => AsNumber(x))
        case DateTime(e) => Some(e)
        case _ => Some(0.0)
  }

  function CheckTime(c: CheckDoc): real {
    CreatedAt(c.data).GetOr(0.0)
  }

  /** The sort compares keys only when there are two documents or more; a key that is not a number then raises. */
  predicate Sortable(docs: seq<CheckDoc>) {
    |docs| <= 1 || forall c :: c in docs ==> CreatedAt(c.data).Some?
  }

  /** The temporary field that carries the document id through the sort. */
  const DocIdField: string := "_doc_id"

  /** `get_latest_predictions`: `None` when there is no document or the sort raises. */
  function LatestCheck(checks: seq<CheckDoc>): Option<Dict<string, Value>> {
    if checks == [] || !Sortable(checks) then None
    else Some(Remove(SortDesc(checks, CheckTime)[0].data, DocIdField))
  }

  /**
   * The document returned is the first, in stream order, of those with the
   * largest timestamp (a missing one counting as 0), without its `_doc_id`
   * field; there is none exactly when there are no documents or the sort
   * raises.
   */
  lemma LatestIsNewest(checks: seq<CheckDoc>)
    ensures LatestCheck(checks).None? <==> checks == [] || !Sortable(checks)
    ensures LatestCheck(checks).Some? ==>
      var i := FirstMaxIndex(checks, CheckTime);
      LatestCheck(checks).value == Remove(checks[i].data, DocIdField)
      && DocIdField !in Keys(LatestCheck(checks).value)
      && (forall j :: 0 <= j < |checks| ==> CheckTime(checks[j]) <= CheckTime(checks[i]))
      && (forall j :: 0 <= j < i ==> CheckTime(checks[j]) < CheckTime(checks[i]))
  {
    if LatestCheck(checks).Some? {
      SortDescHead(checks, CheckTime);
    }
  }

  /** `get_latest_predictions`, step by step: sort newest first, take the head, delete the id field. */
  method LatestPrediction(checks: seq<CheckDoc>) returns (latest: Option<Dict<string, Value>>)
    ensures latest == LatestCheck(checks)
    ensures latest.Some? ==> latest.value == Remove(checks[FirstMaxIndex(checks, CheckTime)].data, DocIdField)
  {
    LatestIsNewest(checks);
    if checks == [] {
      return None;
    }
    if !Sortable(checks) {
      return None;
    }
    var docs := SortDesc(checks, CheckTime);
    var head := docs[0].data;
    latest := Some(Remove(head, DocIdField));
  }

  // ------------------------------------------------------------------
  // The five most confident predictions
  // ------------------------------------------------------------------

  /** `x.get("confidence", 0)` as a sort key; `None` when it cannot be compared with numbers. */
  function ConfidenceOf(e: Dict<string, Value>): Option<real> {
    match Get(e, "confidence")
    case None => Some(0.0)
    case Some(v) => AsNumber(v)
  }

  function ConfidenceKey(e: Dict<string, Value>): real {
    ConfidenceOf(e).GetOr(0.0)
  }

  predicate Comparable(entries: seq<Dict<string, Value>>) {
    |entries| <= 1 || forall e :: e in entries ==> ConfidenceOf(e).Some?
  }

  const TopCount: nat := 5

  /** `sorted(predictions, key=confidence, reverse=True)[:5]`. */
  function TopPredictions(entries: seq<Dict<string, Value>>): seq<Dict<string, Value>> {
    Take(SortDesc(entries, ConfidenceKey), TopCount)
  }

  /**
   * At most five predictions go on, in descending confidence, all taken from
   * the check; the first is the first most confident one; and predictions of
   * equal confidence keep their order.
   */
  lemma TopPredictionsShape(entries: seq<Dict<string, Value>>, c: real)
    ensures var top := TopPredictions(entries);
      |top| == (if |entries| < TopCount then |entries| else TopCount)
      && SortedDesc(top, ConfidenceKey)
      && (forall e :: e in top ==> e in entries)
      && (entries != [] ==> top[0] == entries[FirstMaxIndex(entries, ConfidenceKey)])
      && Filter(SortDesc(entries, ConfidenceKey), KeyIs(ConfidenceKey, c)) == Filter(entries, KeyIs(ConfidenceKey, c))
  {
    var sorted := SortDesc(entries, ConfidenceKey);
    SortDescSorted(entries, ConfidenceKey);
    SortDescStable(entries, ConfidenceKey, c);
    var top := TopPredictions(entries);
    forall e | e in top ensures e in entries {
      assert e in multiset(sorted);
    }
    if entries != [] {
      SortDescHead(entries, ConfidenceKey);
    }
  }

  /** The prediction entries as dicts, or `None` when one is not a dict (its `.get` raises). */
  function Entries(items: seq<Value>): (r: Option<seq<Dict<string, Value>>>)
    ensures r.Some? <==> forall i :: 0 <= i < |items| ==> items[i].Object?
  {
    if forall i :: 0 <= i < |items| ==> items[i].Object? then
      Some(seq(|items|, i requires 0 <= i < |items| => items[i].fields))
    else None
  }

  // ------------------------------------------------------------------
  // get_doctor_specialties_from_gemini
  // ------------------------------------------------------------------

  datatype Gemini = Gemini(
    configured: bool,
    ask: seq<string> -> Option<string>,
    decode: string -> Option<Value>)

  datatype GeminiError = NotConfigured | NameNotText | RequestFailed | NoJsonObject | InvalidJson | NotAnObject

  /** `[d.get("disease", "") for d in diseases if d.get("disease")]`. */
  function DiseaseValues(entries: seq<Dict<string, Value>>): (r: seq<Value>)
    ensures forall v :: v in r ==> Truthy(v)
  {
    if entries == [] then []
    else
      DiseaseValues(entries[..|entries| - 1])
      + match Get(entries[|entries| - 1], "disease")
        case Some(v) => if Truthy(v) then [v] else []
        case None => []
  }

  /** `d.get("disease")`, with an absent key read as `None`. */
  function DiseaseOf(e: Dict<string, Value>): Value {
    Get(e, "disease").GetOr(Null)
  }

  predicate NamesDisease(e: Dict<string, Value>) {
    Truthy(DiseaseOf(e))
  }

  /** Every entry with a truthy `disease` contributes that value, in the order of the entries, and no other does. */
  lemma {:induction false} DiseaseValuesMeaning(entries: seq<Dict<string, Value>>)
    ensures DiseaseValues(entries) == Map(Filter(entries, NamesDisease), DiseaseOf)
  {
    if entries != [] {
      var init := entries[..|entries| - 1];
      var e := entries[|entries| - 1];
      DiseaseValuesMeaning(init);
      MapSnoc(Filter(init, NamesDisease), e, DiseaseOf);
    }
  }

  /** The names joined into the prompt; `None` when one is not a string (the join raises). */
  function Names(values: seq<Value>): (r: Option<seq<string>>)
    ensures r.Some? ==> |r.value| == |values|
  {
    if forall i :: 0 <= i < |values| ==> values[i].String? then
      Some(seq(|values|, i requires 0 <= i < |values| => values[i].s))
    else None
  }

  /** The request to Gemini: the `recommendations` value of the decoded reply. */
  function AskSpecialties(g: Gemini, entries: seq<Dict<string, Value>>): Result<Value, GeminiError> {
    if !g.configured then Err(NotConfigured)
    else
      var values := DiseaseValues(entries);
      if values == [] then Ok(List([]))
      else match Names(values)
        case None => Err(NameNotText)
        case Some(names) =>
          match g.ask(names)
          case None => Err(RequestFailed)
          case Some(reply) =>
            match ExtractJson(reply)
            case None => Err(NoJsonObject)
            case Some(json) =>
              match g.decode(json)
              case None => Err(InvalidJson)
              case Some(v) => if v.Object? then Ok(Get(v.fields, "recommendations").GetOr(List([]))) else Err(NotAnObject)
  }

  /**
   * Without a configured model the request fails; with one and no disease
   * names it yields an empty list whatever the model would answer, so Gemini
   * is not asked.
   */
  lemma AskWithoutNames(g: Gemini, entries: seq<Dict<string, Value>>, other: Gemini)
    ensures !g.configured ==> AskSpecialties(g, entries) == Err(NotConfigured)
    ensures g.configured && other.configured && DiseaseValues(entries) == [] ==>
      AskSpecialties(g, entries) == Ok(List([])) && AskSpecialties(other, entries) == Ok(List([]))
  {
  }

  /**
   * A successful answer is the `recommendations` of what the decoder made
   * of the brace slice of Gemini's reply to the disease names.
   */
  lemma AskSucceeds(g: Gemini, entries: seq<Dict<string, Value>>)
    requires AskSpecialties(g, entries).Ok? && DiseaseValues(entries) != []
    ensures g.configured && Names(DiseaseValues(entries)).Some?
    ensures var reply := g.ask(Names(DiseaseValues(entries)).value);
      reply.Some? && ExtractJson(reply.value).Some?
      && g.decode(ExtractJson(reply.value).value).Some?
      && g.decode(ExtractJson(reply.value).value).value.Object?
  {
  }

  /** A reply fenced as "```json" is decoded from exactly the text inside the fence. */
  lemma AskFencedReply(g: Gemini, entries: seq<Dict<string, Value>>, json: string, answer: Dict<string, Value>)
    requires g.configured && DiseaseValues(entries) != [] && Names(DiseaseValues(entries)).Some?
    requires |json| >= 2 && json[0] == '{' && json[|json| - 1] == '}' && '`' !in json
    requires g.ask(Names(DiseaseValues(entries)).value) == Some(JsonFence + "\n" + json + "\n" + Fence)
    requires g.decode(json) == Some(Object(answer))
    ensures AskSpecialties(g, entries) == Ok(Get(answer, "recommendations").GetOr(List([])))
  {
    FencedReply(json);
  }

  // ------------------------------------------------------------------
  // The mappings Gemini returns
  // ------------------------------------------------------------------

  datatype Mapping = Mapping(disease: Option<string>, specialty: Option<string>, reason: Option<string>)

  /** A mapping dict whose present fields are strings; any other value fails later in the handler. */
  function MappingOf(v: Value): Option<Mapping> {
    if !v.Object? then None
    else
      var d := TextField(v.fields, "disease");
      var s := TextField(v.fields, "specialty");
      var r := TextField(v.fields, "reason");
      if d.Some? && s.Some? && r.Some? then Some(Mapping(d.value, s.value, r.value)) else None
  }

  function MappingList(items: seq<Value>): (r: Option<seq<Mapping>>)
    ensures r.Some? ==> |r.value| == |items|
  {
    if items == [] then Some([])
    else
      match (MappingList(items[..|items| - 1]), MappingOf(items[|items| - 1]))
      case (Some(ms), Some(m)) => Some(ms + [m])
      case _ => None
  }

  /**
   * The `recommendations` value as the handler uses it: a list of mappings;
   * an empty string or dict behaves as an empty list; anything else raises.
   */
  function MappingsOf(v: Value): Option<seq<Mapping>> {
    match v
    case List(items) => MappingList(items)
    case String(s) => if s == "" then Some([]) else None
    case Object(f) => if f == [] then Some([]) else None
    case _ => None
  }

  /** `mapping.get("specialty", "General Practitioner")`. */
  function SpecialtyOf(m: Mapping): string {
    m.specialty.GetOr(GeneralPractitioner)
  }

  /** The mapping as the response reports it, missing fields as `""`. */
  datatype MappingView = MappingView(disease: string, specialty: string, reason: string)

  function MappingViews(ms: seq<Mapping>): (r: seq<MappingView>)
    ensures |r| == |ms|
    ensures forall i :: 0 <= i < |ms| ==> r[i].specialty == ms[i].specialty.GetOr("")
  {
    seq(|ms|, i requires 0 <= i < |ms| =>
      MappingView(ms[i].disease.GetOr(""), ms[i].specialty.GetOr(""), ms[i].reason.GetOr("")))
  }

  // ------------------------------------------------------------------
  // Recommended and other relevant doctors
  // ------------------------------------------------------------------

  /**
   * The specialties the loop over `specialty_mappings[1:]` searches, in
   * order: each new one, skipping those already in the `seen` set, which
   * starts as `{seed}`.
   */
  function SearchedFrom(seed: Option<string>, ms: seq<Mapping>): (r: seq<string>)
    ensures Distinct(r)
    ensures forall s :: s in r ==> Some(s) != seed && exists m :: m in ms && SpecialtyOf(m) == s
  {
    if ms == [] then []
    else
      var prev := SearchedFrom(seed, ms[..|ms| - 1]);
      var s := SpecialtyOf(ms[|ms| - 1]);
      assert forall m :: m in ms[..|ms| - 1] ==> m in ms;
      if Some(s) == seed || s in prev then prev else prev + [s]
  }

  /** No specialty other than the seed is skipped. */
  lemma {:induction false} SearchedComplete(seed: Option<string>, ms: seq<Mapping>, m: Mapping)
    requires m in ms && Some(SpecialtyOf(m)) != seed
    ensures SpecialtyOf(m) in SearchedFrom(seed, ms)
  {
    var init := ms[..|ms| - 1];
    if ms[|ms| - 1] != m {
      assert m in init;
      SearchedComplete(seed, init, m);
    }
  }

  /** As written: `{specialty_mappings[0].get("specialty")}`, which holds `None` when the key is absent. */
  function SeedAsWritten(ms: seq<Mapping>): Option<string>
    requires ms != []
  {
    ms[0].specialty
  }

  /** Corrected: the specialty the recommended doctors were searched for. */
  function Seed(ms: seq<Mapping>): Option<string>
    requires ms != []
  {
    Some(SpecialtyOf(ms[0]))
  }

  /**
   * When the first mapping has no specialty, the recommended doctors are
   * those of "General Practitioner", and the loop as written searches that
   * specialty again for a later mapping without one.
   */
  lemma SeedAsWrittenRepeatsTop()
    ensures var ms := [Mapping(None, None, None), Mapping(None, None, None)];
      SpecialtyOf(ms[0]) == GeneralPractitioner
      && SearchedFrom(SeedAsWritten(ms), ms[1..]) == [GeneralPractitioner]
  {
    var ms := [Mapping(None, None, None), Mapping(None, None, None)];
    assert ms[1..] == [Mapping(None, None, None)];
    assert ms[1..][..0] == [];
  }

  /** With the corrected seed, the top specialty is never searched again, and every other one is. */
  lemma SeedSkipsTop(ms: seq<Mapping>, m: Mapping)
    requires ms != []
    ensures SpecialtyOf(ms[0]) !in SearchedFrom(Seed(ms), ms[1..])
    ensures m in ms[1..] && SpecialtyOf(m) != SpecialtyOf(ms[0]) ==> SpecialtyOf(m) in SearchedFrom(Seed(ms), ms[1..])
  {
    if m in ms[1..] && SpecialtyOf(m) != SpecialtyOf(ms[0]) {
      SearchedComplete(Seed(ms), ms[1..], m);
    }
  }

  /** The two seeds agree whenever the first mapping names its specialty. */
  lemma SeedsAgree(ms: seq<Mapping>)
    requires ms != [] && ms[0].specialty.Some?
    ensures SeedAsWritten(ms) == Seed(ms)
  {
  }

  const RecommendedLimit: nat := 5
  const PerSpecialtyLimit: nat := 2
  const OthersLimit: nat := 8

  /** The doctors one searched specialty contributes: the first two found, as cards. */
  function FoundFor(doctors: seq<Doctors.DoctorDoc>, specialty: string): seq<Doctors.DoctorCard> {
    Doctors.ConvertFirst(Doctors.DoctorsFor(doctors, specialty), PerSpecialtyLimit)
  }

  /** At most two cards, each the card of a doctor found for the specialty. */
  lemma FoundForShape(doctors: seq<Doctors.DoctorDoc>, specialty: string)
    ensures |FoundFor(doctors, specialty)| <= PerSpecialtyLimit
    ensures forall c :: c in FoundFor(doctors, specialty) ==>
      exists d :: d in Doctors.DoctorsFor(doctors, specialty) && c == Doctors.ConvertDoctor(d)
  {
    var found := Doctors.DoctorsFor(doctors, specialty);
    forall c | c in Doctors.ConvertFirst(found, PerSpecialtyLimit)
      ensures exists d :: d in found && c == Doctors.ConvertDoctor(d)
    {
      Doctors.ConvertFirstFrom(found, PerSpecialtyLimit, c);
    }
  }

  /** `other_doctors_list`: the first two doctors found for each searched specialty, in order. */
  function OthersFor(doctors: seq<Doctors.DoctorDoc>, specialties: seq<string>): seq<Doctors.DoctorCard> {
    FlatMap(specialties, s => FoundFor(doctors, s))
  }

  /** One more mapping searches its specialty when it has not been seen. */
  lemma SearchedSnoc(seed: Option<string>, ms: seq<Mapping>, m: Mapping)
    ensures var prev := SearchedFrom(seed, ms);
      SearchedFrom(seed, ms + [m]) == if Some(SpecialtyOf(m)) == seed || SpecialtyOf(m) in prev then prev else prev + [SpecialtyOf(m)]
  {
    assert (ms + [m])[..|ms|] == ms;
  }

  datatype Lists = Lists(recommended: seq<Doctors.DoctorCard>, others: seq<Doctors.DoctorCard>, otherFound: nat)

  /**
   * The two lists of `find_doctors`, and the length of the other list before
   * its cap, with the `seen` set seeded as line 631 writes it.
   */
  function Assemble(doctors: seq<Doctors.DoctorDoc>, ms: seq<Mapping>): Lists {
    if ms == [] then Lists([], [], 0) else ListsFor(doctors, ms, SeedAsWritten(ms))
  }

  /** Corrected: the same lists, with `seen` seeded by the specialty searched for the top disease. */
  function AssembleCorrected(doctors: seq<Doctors.DoctorDoc>, ms: seq<Mapping>): Lists {
    if ms == [] then Lists([], [], 0) else ListsFor(doctors, ms, Seed(ms))
  }

  /** The first five doctors of the top specialty, and the first two of each specialty the loop searches. */
  function ListsFor(doctors: seq<Doctors.DoctorDoc>, ms: seq<Mapping>, seed: Option<string>): Lists
    requires ms != []
  {
    var recommended := Doctors.ConvertFirst(Doctors.DoctorsFor(doctors, SpecialtyOf(ms[0])), RecommendedLimit);
    var others := OthersFor(doctors, SearchedFrom(seed, ms[1..]));
    Lists(recommended, Take(others, OthersLimit), |others|)
  }

  /**
   * For any seed: at most five recommended doctors, the first ones found for
   * the first mapping's specialty; at most eight others, each found for a
   * specialty other than the seed, at most two per specialty.
   */
  lemma ListsShape(doctors: seq<Doctors.DoctorDoc>, ms: seq<Mapping>, seed: Option<string>)
    requires ms != []
    ensures var lists := ListsFor(doctors, ms, seed);
      |lists.recommended| <= RecommendedLimit
      && |lists.others| <= OthersLimit
      && |lists.others| <= lists.otherFound <= PerSpecialtyLimit * (|ms| - 1)
      && (forall i :: 0 <= i < |lists.recommended| ==>
          lists.recommended[i] == Doctors.ConvertDoctor(Doctors.DoctorsFor(doctors, SpecialtyOf(ms[0]))[i]))
      && forall c :: c in lists.others ==>
        exists s, d :: Some(s) != seed && d in Doctors.DoctorsFor(doctors, s) && c == Doctors.ConvertDoctor(d)
  {
    var searched := SearchedFrom(seed, ms[1..]);
    var all := OthersFor(doctors, searched);
    forall s | s in searched ensures |FoundFor(doctors, s)| <= PerSpecialtyLimit {
      FoundForShape(doctors, s);
    }
    FlatMapLength(searched, s => FoundFor(doctors, s), PerSpecialtyLimit);
    SearchedLength(seed, ms[1..]);
    forall c | c in Take(all, OthersLimit)
      ensures exists s, d :: Some(s) != seed && d in Doctors.DoctorsFor(doctors, s) && c == Doctors.ConvertDoctor(d)
    {
      assert c in all;
      FlatMapMembers(searched, s => FoundFor(doctors, s), c);
      var k :| 0 <= k < |searched| && c in FoundFor(doctors, searched[k]);
      assert searched[k] in searched;
      FoundForShape(doctors, searched[k]);
    }
  }

  /**
   * As written: at most five recommended doctors, the first ones found for
   * the first mapping's specialty; at most eight others, at most two per
   * specialty, each found for a specialty other than the one the first
   * mapping names. When the first mapping names none, that can be the
   * "General Practitioner" the recommended doctors were found for.
   */
  lemma AssembleShape(doctors: seq<Doctors.DoctorDoc>, ms: seq<Mapping>)
    ensures var lists := Assemble(doctors, ms);
      |lists.recommended| <= RecommendedLimit
      && |lists.others| <= OthersLimit
      && |lists.others| <= lists.otherFound
      && (ms == [] ==> lists == Lists([], [], 0))
      && (ms != [] ==>
        (forall i :: 0 <= i < |lists.recommended| ==>
          lists.recommended[i] == Doctors.ConvertDoctor(Doctors.DoctorsFor(doctors, SpecialtyOf(ms[0]))[i]))
        && lists.otherFound <= PerSpecialtyLimit * (|ms| - 1)
        && forall c :: c in lists.others ==>
          exists s, d :: Some(s) != ms[0].specialty && d in Doctors.DoctorsFor(doctors, s) && c == Doctors.ConvertDoctor(d))
  {
    if ms != [] {
      ListsShape(doctors, ms, SeedAsWritten(ms));
    }
  }

  /** Corrected: the same bounds, and no other doctor is found for the top specialty. */
  lemma AssembleCorrectedShape(doctors: seq<Doctors.DoctorDoc>, ms: seq<Mapping>)
    ensures var lists := AssembleCorrected(doctors, ms);
      |lists.recommended| <= RecommendedLimit
      && |lists.others| <= OthersLimit
      && |lists.others| <= lists.otherFound
      && (ms == [] ==> lists == Lists([], [], 0))
      && (ms != [] ==>
        lists.recommended == Assemble(doctors, ms).recommended
        && forall c :: c in lists.others ==>
          exists s, d :: s != SpecialtyOf(ms[0]) && d in Doctors.DoctorsFor(doctors, s) && c == Doctors.ConvertDoctor(d))
  {
    if ms != [] {
      ListsShape(doctors, ms, Seed(ms));
    }
  }

  /**
   * As written, two mappings without a specialty list the first two
   * "General Practitioner" doctors twice: among the five recommended and
   * again as the other doctors.
   */
  lemma AssembleAsWrittenRepeatsTop(doctors: seq<Doctors.DoctorDoc>)
    ensures var lists := Assemble(doctors, [Mapping(None, None, None), Mapping(None, None, None)]);
      lists.recommended == Doctors.ConvertFirst(Doctors.DoctorsFor(doctors, GeneralPractitioner), RecommendedLimit)
      && lists.others == FoundFor(doctors, GeneralPractitioner)
  {
    var m := Mapping(None, None, None);
    var ms := [m, m];
    assert ms[1..] == [m];
    SearchedOne(SeedAsWritten(ms), m);
    var two := FoundFor(doctors, GeneralPractitioner);
    assert OthersFor(doctors, [GeneralPractitioner]) == two by {
      OthersSnoc(doctors, [], GeneralPractitioner);
    }
    FoundForShape(doctors, GeneralPractitioner);
    assert Take(two, OthersLimit) == two;
  }

  /** Corrected, the same two mappings give no other doctors. */
  lemma AssembleCorrectedSkipsTop(doctors: seq<Doctors.DoctorDoc>)
    ensures AssembleCorrected(doctors, [Mapping(None, None, None), Mapping(None, None, None)]).others == []
  {
    var m := Mapping(None, None, None);
    var ms := [m, m];
    assert ms[1..] == [m];
    SearchedOne(Seed(ms), m);
  }

  /** The loop over a single further mapping. */
  lemma SearchedOne(seed: Option<string>, m: Mapping)
    ensures SearchedFrom(seed, [m]) == if Some(SpecialtyOf(m)) == seed then [] else [SpecialtyOf(m)]
  {
    assert [m][..0] == [];
  }

  lemma {:induction false} SearchedLength(seed: Option<string>, ms: seq<Mapping>)
    ensures |SearchedFrom(seed, ms)| <= |ms|
  {
    if ms != [] {
      SearchedLength(seed, ms[..|ms| - 1]);
    }
  }

  lemma OthersSnoc(doctors: seq<Doctors.DoctorDoc>, specialties: seq<string>, s: string)
    ensures OthersFor(doctors, specialties + [s]) == OthersFor(doctors, specialties) + FoundFor(doctors, s)
  {
    FlatMapSnoc(specialties, s, s => FoundFor(doctors, s));
  }

  /** One turn of the loop: a specialty already seen is skipped, a new one is searched and its doctors appended. */
  lemma SearchStep(doctors: seq<Doctors.DoctorDoc>, seed: Option<string>, rest: seq<Mapping>, i: nat, searched: seq<string>)
    requires i < |rest| && searched == SearchedFrom(seed, rest[..i])
    ensures var s := SpecialtyOf(rest[i]);
      if Some(s) == seed || s in searched then SearchedFrom(seed, rest[..i + 1]) == searched
      else (SearchedFrom(seed, rest[..i + 1]) == searched + [s]
            && OthersFor(doctors, searched + [s]) == OthersFor(doctors, searched) + FoundFor(doctors, s))
  {
    assert rest[..i + 1] == rest[..i] + [rest[i]];
    SearchedSnoc(seed, rest[..i], rest[i]);
    OthersSnoc(doctors, searched, SpecialtyOf(rest[i]));
  }

  /** The list assembly of `find_doctors`. */
  method AssembleLists(doctors: seq<Doctors.DoctorDoc>, ms: seq<Mapping>) returns (lists: Lists)
    ensures lists == Assemble(doctors, ms)
  {
    if ms == [] {
      return Lists([], [], 0);
    }
    var top := SpecialtyOf(ms[0]);
    var found := Doctors.DoctorsBySpecialty(doctors, top);
    var recommended := Doctors.ConvertFirst(found, RecommendedLimit);
    var others := SearchOthers(doctors, ms[0].specialty, ms[1..]);
    lists := Lists(recommended, Take(others, OthersLimit), |others|);
  }

  /**
   * The `seen_specialties` loop over the mappings after the first; `seen`
   * starts as `{seed}`, which may hold `None`.
   */
  method SearchOthers(doctors: seq<Doctors.DoctorDoc>, seed: Option<string>, rest: seq<Mapping>)
    returns (others: seq<Doctors.DoctorCard>)
    ensures others == OthersFor(doctors, SearchedFrom(seed, rest))
  {
    others := [];
    var seen: set<Option<string>> := {seed};
    ghost var searched: seq<string> := [];
    var i := 0;
    while i < |rest|
      invariant i <= |rest| && Visited(doctors, seed, rest[..i], seen, searched, others)
    {
      seen, searched, others := VisitMapping(doctors, seed, rest, i, seen, searched, others);
      i := i + 1;
    }
    assert rest[..i] == rest;
  }

  /** The state of the loop after the mappings `done`: what was searched, what was seen, what was found. */
  ghost predicate Visited(doctors: seq<Doctors.DoctorDoc>, seed: Option<string>, done: seq<Mapping>,
                          seen: set<Option<string>>, searched: seq<string>, others: seq<Doctors.DoctorCard>)
  {
    searched == SearchedFrom(seed, done)
    && (forall s :: Some(s) in seen <==> Some(s) == seed || s in searched)
    && others == OthersFor(doctors, searched)
  }

  /** One turn of the loop: a specialty already seen is skipped, a new one is searched and its first two doctors appended. */
  method VisitMapping(doctors: seq<Doctors.DoctorDoc>, seed: Option<string>, rest: seq<Mapping>, i: nat,
                      seen: set<Option<string>>, ghost searched: seq<string>, others: seq<Doctors.DoctorCard>)
    returns (seen': set<Option<string>>, ghost searched': seq<string>, others': seq<Doctors.DoctorCard>)
    requires i < |rest| && Visited(doctors, seed, rest[..i], seen, searched, others)
    ensures Visited(doctors, seed, rest[..i + 1], seen', searched', others')
  {
    var specialty := SpecialtyOf(rest[i]);
    SearchStep(doctors, seed, rest, i, searched);
    seen', searched', others' := seen, searched, others;
    if Some(specialty) !in seen {
      var docs := Doctors.DoctorsBySpecialty(doctors, specialty);
      assert Doctors.ConvertFirst(docs, PerSpecialtyLimit) == FoundFor(doctors, specialty);
      others' := others + Doctors.ConvertFirst(docs, PerSpecialtyLimit);
      seen' := seen + {Some(specialty)};
      searched' := searched + [specialty];
    }
  }

  // ------------------------------------------------------------------
  // find_doctors
  // ------------------------------------------------------------------

  /** Which message the response carries. */
  datatype Outcome = NoCheck | NoDiseases | GeminiUnavailable(reason: GeminiError) | Matched

  datatype Response = Response(
    recommended: seq<Doctors.DoctorCard>,
    others: seq<Doctors.DoctorCard>,
    allBySpecialty: Dict<string, seq<Doctors.DoctorCard>>,
    mappings: seq<MappingView>,
    outcome: Outcome,
    otherFound: nat)

  /** Every exception, the `user_id` check included, leaves the handler as a 500. */
  const InternalError: int := 500

  function AllDoctorsOnly(groups: Dict<string, seq<Doctors.DoctorCard>>, outcome: Outcome): Response {
    Response([], [], groups, [], outcome, 0)
  }

  /** `find_doctors` on the user's id, the two collections and Gemini. */
  function FindDoctors(userId: string, checks: seq<CheckDoc>, doctors: seq<Doctors.DoctorDoc>, g: Gemini): Result<Response, int> {
    if userId == "" then Err(InternalError)
    else
      var groups := Doctors.ConvertGroups(Doctors.Grouped(doctors));
      var latest := LatestCheck(ChecksOf(checks, userId));
      if latest.None? || latest.value == [] then Ok(AllDoctorsOnly(groups, NoCheck))
      else
        var predictions := Get(latest.value, "predictions").GetOr(List([]));
        if !Truthy(predictions) then Ok(AllDoctorsOnly(groups, NoDiseases))
        else if !predictions.List? then Err(InternalError)
        else match Entries(predictions.items)
          case None => Err(InternalError)
          case Some(entries) =>
            if !Comparable(entries) then Err(InternalError)
            else Answer(g, entries, doctors, groups)
  }

  /**
   * The part of `find_doctors` after the predictions are read: Gemini maps
   * the top predictions to specialties and the doctors are searched. Only a
   * matched answer recommends anyone, at most five doctors and eight others.
   */
  function Answer(g: Gemini, entries: seq<Dict<string, Value>>, doctors: seq<Doctors.DoctorDoc>,
                  groups: Dict<string, seq<Doctors.DoctorCard>>): (r: Result<Response, int>)
    ensures r.Err? ==> r.error == InternalError
    ensures r.Ok? ==>
      r.value.allBySpecialty == groups
      && |r.value.recommended| <= RecommendedLimit
      && |r.value.others| <= OthersLimit
      && |r.value.others| <= r.value.otherFound
      && (r.value.outcome != Matched ==> r.value.recommended == [] && r.value.others == [] && r.value.mappings == [])
  {
    match AskSpecialties(g, TopPredictions(entries))
    case Err(e) => Ok(AllDoctorsOnly(groups, GeminiUnavailable(e)))
    case Ok(v) =>
      match MappingsOf(v)
      case None => Err(InternalError)
      case Some(ms) =>
        var lists := Assemble(doctors, ms);
        AssembleShape(doctors, ms);
        Ok(Response(lists.recommended, lists.others, groups, MappingViews(ms), Matched, lists.otherFound))
  }

  /**
   * Every answer lists all doctors grouped by specialty; only a matched
   * answer recommends anyone, and then at most five doctors and eight
   * others; a missing user id or any other exception is a 500.
   */
  lemma FindDoctorsShape(userId: string, checks: seq<CheckDoc>, doctors: seq<Doctors.DoctorDoc>, g: Gemini)
    ensures var r := FindDoctors(userId, checks, doctors, g);
      (userId == "" ==> r == Err(InternalError))
      && (r.Err? ==> r.error == InternalError)
      && (r.Ok? ==>
        r.value.allBySpecialty == Doctors.ConvertGroups(Doctors.Grouped(doctors))
        && |r.value.recommended| <= RecommendedLimit
        && |r.value.others| <= OthersLimit
        && |r.value.others| <= r.value.otherFound
        && (r.value.outcome != Matched ==> r.value.recommended == [] && r.value.others == [] && r.value.mappings == []))
  {
    var r := FindDoctors(userId, checks, doctors, g);
    var groups := Doctors.ConvertGroups(Doctors.Grouped(doctors));
    var latest := LatestCheck(ChecksOf(checks, userId));
    if userId != "" && latest.Some? && latest.value != [] {
      var predictions := Get(latest.value, "predictions").GetOr(List([]));
      if Truthy(predictions) && predictions.List? && Entries(predictions.items).Some? {
        var entries := Entries(predictions.items).value;
        if Comparable(entries) {
          assert r == Answer(g, entries, doctors, groups);
        }
      }
    }
  }

  /** A user without any symptom check gets all doctors and nothing else. */
  lemma FindDoctorsWithoutChecks(userId: string, checks: seq<CheckDoc>, doctors: seq<Doctors.DoctorDoc>, g: Gemini)
    requires userId != "" && ChecksOf(checks, userId) == []
    ensures FindDoctors(userId, checks, doctors, g) == Ok(AllDoctorsOnly(Doctors.ConvertGroups(Doctors.Grouped(doctors)), NoCheck))
  {
  }

  /** `find_doctors`, in the order the handler runs its steps. */
  method FindDoctorsHandler(userId: string, checks: seq<CheckDoc>, doctors: seq<Doctors.DoctorDoc>, g: Gemini)
    returns (r: Result<Response, int>)
    ensures r == FindDoctors(userId, checks, doctors, g)
  {
    if userId == "" {
      return Err(InternalError);
    }
    var grouped, count := Doctors.GroupDoctors(doctors);
    var groups := Doctors.ConvertGroups(grouped);
    var latest := LatestPrediction(ChecksOf(checks, userId));
    if latest.None? || latest.value == [] {
      return Ok(AllDoctorsOnly(groups, NoCheck));
    }
    var predictions := Get(latest.value, "predictions").GetOr(List([]));
    if !Truthy(predictions) {
      return Ok(AllDoctorsOnly(groups, NoDiseases));
    }
    if !predictions.List? {
      return Err(InternalError);
    }
    var entries := Entries(predictions.items);
    if entries.None? || !Comparable(entries.value) {
      return Err(InternalError);
    }
    r := AnswerFor(g, entries.value, doctors, groups);
  }

  /** The Gemini call and the doctor searches of the handler. */
  method AnswerFor(g: Gemini, entries: seq<Dict<string, Value>>, doctors: seq<Doctors.DoctorDoc>,
                   groups: Dict<string, seq<Doctors.DoctorCard>>) returns (r: Result<Response, int>)
    ensures r == Answer(g, entries, doctors, groups)
  {
    var answer := AskSpecialties(g, TopPredictions(entries));
    if answer.Err? {
      return Ok(AllDoctorsOnly(groups, GeminiUnavailable(answer.error)));
    }
    var ms := MappingsOf(answer.value);
    if ms.None? {
      return Err(InternalError);
    }
    var lists := AssembleLists(doctors, ms.value);
    r := Ok(Response(lists.recommended, lists.others, groups, MappingViews(ms.value), Matched, lists.otherFound));
  }
}
