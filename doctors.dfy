/**
 * The doctor side of the recommendation service (`find_doctor.py`): a
 * `doctors` document, the search for the doctors of one specialty
 * (`get_doctors_by_specialty`, up to four passes over the collection), the
 * grouping of all doctors by specialty (`get_all_doctors_grouped`) and the
 * conversion of a document into the response record
 * (`convert_doctor_to_model`).
 *
 * The Firestore collection is the sequence of its documents in stream order;
 * an equality query with `.limit(20)` is the first 20 matching documents of
 * that sequence.
 */
module Doctors {
  import opened Wrappers
  import opened Text
  import opened Seqs
  import opened Dicts
  import opened Specialties

  /** A string-valued document field as `dict.get` sees it. */
  datatype StrField = Missing | Null | Str(value: string)

  /** A field that `isinstance(x, (int, float))` accepts, or anything else. */
  datatype NumField = NotNumber | Number(value: real)

  /** The `experience` field: a list, a number, or anything else (absent included). */
  datatype Experience = ExperienceList(length: nat) | ExperienceNumber(years: real) | ExperienceOther

  /**
   * A `doctors` document with its document id. `specializations` is the list
   * field, read as `[]` when it is absent or not a list. Display fields that
   * are absent are `None`.
   */
  datatype DoctorDoc = DoctorDoc(
    id: string,
    specializations: seq<string>,
    specialization: StrField,
    specialty: StrField,
    name: Option<string>,
    email: Option<string>,
    phone: Option<string>,
    phoneNumber: Option<string>,
    profileImages: seq<Option<string>>,
    rating: NumField,
    reviewCount: Option<int>,
    experience: Experience,
    experienceYears: Option<int>,
    hospital: Option<string>,
    location: Option<string>,
    address: Option<string>,
    consultationFee: NumField)

  function IdOf(d: DoctorDoc): string { d.id }

  /** Python truthiness of an optional string. */
  predicate Truthy(s: Option<string>) {
    s.Some? && s.value != ""
  }

  /** Python's `a or b` on optional strings. */
  function Or(a: Option<string>, b: Option<string>): Option<string> {
    if Truthy(a) then a else b
  }

  /** The first truthy value of a chain `a or b or ...`, else the last one. */
  function FirstTruthy(vs: seq<Option<string>>): (r: Option<string>)
    ensures vs == [] ==> r.None?
    ensures Truthy(r) <==> exists v :: v in vs && Truthy(v)
    ensures vs != [] ==>
      exists i :: 0 <= i < |vs| && r == vs[i] && (Truthy(vs[i]) || i == |vs| - 1)
        && forall j :: 0 <= j < i ==> !Truthy(vs[j])
  {
    if vs == [] then None
    else if |vs| == 1 || Truthy(vs[0]) then vs[0]
    else FirstTruthy(vs[1..])
  }

  function AsOption(f: StrField): Option<string> {
    if f.Str? then Some(f.value) else None
  }

  /** `specialization or specialty or default`: the singular specialty fields with a fallback. */
  function SingularOr(d: DoctorDoc, default: string): (r: string)
    ensures default != "" ==> r != ""
  {
    if Truthy(AsOption(d.specialization)) then d.specialization.value
    else if Truthy(AsOption(d.specialty)) then d.specialty.value
    else default
  }

  // ------------------------------------------------------------------
  // get_doctors_by_specialty
  // ------------------------------------------------------------------

  /** Pass one: some non-empty entry of the list normalises to the target. */
  predicate ListMatches(d: DoctorDoc, target: string) {
    exists s :: s in d.specializations && s != "" && NormalizeSpecialty(s) == target
  }

  /** The loose comparison of the last pass: equal, or one contains the other, ignoring case. */
  predicate Related(spec: string, target: string) {
    spec == target || IsSubstring(Lower(target), Lower(spec)) || IsSubstring(Lower(spec), Lower(target))
  }

  /** Last pass, list field: some non-empty entry, normalised, is related to the target. */
  predicate ListRelated(d: DoctorDoc, target: string) {
    exists s :: s in d.specializations && s != "" && Related(NormalizeSpecialty(s), target)
  }

  /**
   * `(specialization or specialty).strip()` with `""` defaults: `None` when
   * the expression is `None.strip()`, which raises.
   */
  function FuzzySingular(d: DoctorDoc): Option<string> {
    if Truthy(AsOption(d.specialization)) then Some(Trim(d.specialization.value))
    else match d.specialty
      case Missing => Some("")
      case Null => None
      case Str(s) => Some(Trim(s))
  }

  function MatchesList(target: string): DoctorDoc -> bool {
    (d: DoctorDoc) => ListMatches(d, target)
  }

  function SpecializationIs(target: string): DoctorDoc -> bool {
    (d: DoctorDoc) => d.specialization == Str(target)
  }

  function SpecialtyIs(target: string): DoctorDoc -> bool {
    (d: DoctorDoc) => d.specialty == Str(target)
  }

  /** The `.limit(20)` of the two equality queries. */
  const QueryLimit: nat := 20

  predicate Listed(found: seq<DoctorDoc>, id: string) {
    exists f :: f in found && f.id == id
  }

  /**
   * The last pass over the collection: a doctor not yet listed is added when
   * its list or, failing that, its singular field is related to the target.
   * `None` when a document makes the pass raise; the search then returns `[]`.
   */
  function FuzzyPass(docs: seq<DoctorDoc>, target: string): Option<seq<DoctorDoc>> {
    if docs == [] then Some([])
    else
      match FuzzyPass(docs[..|docs| - 1], target)
      case None => None
      case Some(found) =>
        var d := docs[|docs| - 1];
        if Listed(found, d.id) then Some(found)
        else if ListRelated(d, target) then Some(found + [d])
        else
          match FuzzySingular(d)
          case None => None
          case Some(s) =>
            if s != "" && Related(NormalizeSpecialty(s), target) then Some(found + [d]) else Some(found)
  }

  /** The fuzzy pass adds every doctor at most once, and only related ones. */
  lemma FuzzyPassSound(docs: seq<DoctorDoc>, target: string)
    requires FuzzyPass(docs, target).Some?
    ensures DistinctBy(FuzzyPass(docs, target).value, IdOf)
    ensures forall d :: d in FuzzyPass(docs, target).value ==> d in docs && FuzzyRelated(d, target)
  {
    FuzzyPassDistinct(docs, target);
    FuzzyPassRelated(docs, target);
  }

  /** What the last pass asks of a doctor it adds. */
  predicate FuzzyRelated(d: DoctorDoc, target: string) {
    ListRelated(d, target)
    || (FuzzySingular(d).Some? && FuzzySingular(d).value != ""
        && Related(NormalizeSpecialty(FuzzySingular(d).value), target))
  }

  lemma {:induction false} FuzzyPassDistinct(docs: seq<DoctorDoc>, target: string)
    requires FuzzyPass(docs, target).Some?
    ensures DistinctBy(FuzzyPass(docs, target).value, IdOf)
  {
    if docs != [] {
      var init := docs[..|docs| - 1];
      FuzzyPassDistinct(init, target);
      var found := FuzzyPass(init, target).value;
      var d := docs[|docs| - 1];
      FuzzyStep(docs, target);
      if FuzzyPass(docs, target).value != found {
        forall i | 0 <= i < |found| ensures found[i].id != d.id {
          assert found[i] in found;
        }
      }
    }
  }

  /** One step of the pass: the doctor is skipped, or added when it is not yet listed. */
  lemma FuzzyStep(docs: seq<DoctorDoc>, target: string)
    requires docs != [] && FuzzyPass(docs, target).Some?
    ensures FuzzyPass(docs[..|docs| - 1], target).Some?
    ensures var found := FuzzyPass(docs[..|docs| - 1], target).value;
      var d := docs[|docs| - 1];
      FuzzyPass(docs, target).value == found
      || (FuzzyPass(docs, target).value == found + [d] && !Listed(found, d.id))
  {
  }

  lemma {:induction false} FuzzyPassRelated(docs: seq<DoctorDoc>, target: string)
    requires FuzzyPass(docs, target).Some?
    ensures forall d :: d in FuzzyPass(docs, target).value ==> d in docs && FuzzyRelated(d, target)
  {
    if docs != [] {
      FuzzyPassRelated(docs[..|docs| - 1], target);
    }
  }

  /** ... and no related doctor is missed: its id is listed. */
  lemma {:induction false} FuzzyPassComplete(docs: seq<DoctorDoc>, target: string, d: DoctorDoc)
    requires FuzzyPass(docs, target).Some?
    requires d in docs && FuzzyRelated(d, target)
    ensures Listed(FuzzyPass(docs, target).value, d.id)
  {
    var init := docs[..|docs| - 1];
    var last := docs[|docs| - 1];
    FuzzyStep(docs, target);
    var found := FuzzyPass(init, target).value;
    var result := FuzzyPass(docs, target).value;
    if last != d {
      assert d in init;
      FuzzyPassComplete(init, target, d);
      var f :| f in found && f.id == d.id;
      assert f in result;
    } else if !Listed(found, d.id) {
      assert result == found + [d];
      assert d in result;
    } else {
      var f :| f in found && f.id == d.id;
      assert result == found;
    }
  }

  /** `get_doctors_by_specialty`: the first pass that finds anyone decides. */
  function DoctorsFor(docs: seq<DoctorDoc>, specialty: string): seq<DoctorDoc> {
    PassesFor(docs, NormalizeSpecialty(specialty))
  }

  /** The four passes for a target already normalised. */
  function PassesFor(docs: seq<DoctorDoc>, target: string): seq<DoctorDoc> {
    var byList := Filter(docs, MatchesList(target));
    var bySpecialization := Take(Filter(docs, SpecializationIs(target)), QueryLimit);
    var bySpecialty := Take(Filter(docs, SpecialtyIs(target)), QueryLimit);
    if byList != [] then byList
    else if bySpecialization != [] then bySpecialization
    else if bySpecialty != [] then bySpecialty
    else FuzzyPass(docs, target).GetOr([])
  }

  /**
   * The first pass finds exactly the doctors with a list entry that
   * normalises to the normalised target, in collection order; when it finds
   * any, the later passes do not run.
   */
  lemma FirstPassDecides(docs: seq<DoctorDoc>, specialty: string, d: DoctorDoc)
    ensures var target := NormalizeSpecialty(specialty);
      (d in Filter(docs, MatchesList(target)) <==> d in docs && ListMatches(d, target))
      && (Filter(docs, MatchesList(target)) != [] ==> DoctorsFor(docs, specialty) == Filter(docs, MatchesList(target)))
  {
    var target := NormalizeSpecialty(specialty);
    if d in docs && ListMatches(d, target) {
      FilterComplete(docs, MatchesList(target), d);
    }
  }

  /** Whatever pass decides, every doctor found is in the collection; the equality passes give at most 20. */
  lemma DoctorsForShape(docs: seq<DoctorDoc>, specialty: string)
    ensures forall d :: d in DoctorsFor(docs, specialty) ==> d in docs
    ensures var target := NormalizeSpecialty(specialty);
      Filter(docs, MatchesList(target)) == [] && Filter(docs, SpecializationIs(target)) != []
      ==> 0 < |DoctorsFor(docs, specialty)| <= QueryLimit
  {
    PassesShape(docs, NormalizeSpecialty(specialty));
  }

  lemma PassesShape(docs: seq<DoctorDoc>, target: string)
    ensures forall d :: d in PassesFor(docs, target) ==> d in docs
    ensures Filter(docs, MatchesList(target)) == [] && Filter(docs, SpecializationIs(target)) != []
      ==> 0 < |PassesFor(docs, target)| <= QueryLimit
  {
    var byList := Filter(docs, MatchesList(target));
    var bySpecialization := Filter(docs, SpecializationIs(target));
    var bySpecialty := Filter(docs, SpecialtyIs(target));
    var found := PassesFor(docs, target);
    if byList != [] {
      assert found == byList;
    } else if bySpecialization != [] {
      assert found == Take(bySpecialization, QueryLimit);
      assert found == bySpecialization[..|found|];
    } else if bySpecialty != [] {
      assert found == Take(bySpecialty, QueryLimit);
      assert found == bySpecialty[..|found|];
    } else if FuzzyPass(docs, target).Some? {
      assert found == FuzzyPass(docs, target).value;
      FuzzyPassRelated(docs, target);
    } else {
      assert found == [];
    }
  }

  /** A search method that runs the passes one after the other, as the handler does. */
  method DoctorsBySpecialty(docs: seq<DoctorDoc>, specialty: string) returns (doctors: seq<DoctorDoc>)
    ensures doctors == DoctorsFor(docs, specialty)
  {
    var target := NormalizeSpecialty(specialty);
    doctors := ListPass(docs, target);
    if doctors == [] {
      doctors := Take(Filter(docs, SpecializationIs(target)), QueryLimit);
    }
    if doctors == [] {
      doctors := Take(Filter(docs, SpecialtyIs(target)), QueryLimit);
    }
    if doctors == [] {
      var fuzzy := FuzzySearch(docs, target);
      doctors := fuzzy.GetOr([]);
    }
  }

  /** The first pass: every doctor, in collection order, with a list entry that normalises to the target. */
  method ListPass(docs: seq<DoctorDoc>, target: string) returns (doctors: seq<DoctorDoc>)
    ensures doctors == Filter(docs, MatchesList(target))
  {
    doctors := [];
    var i := 0;
    while i < |docs|
      invariant 0 <= i <= |docs|
      invariant doctors == Filter(docs[..i], MatchesList(target))
    {
      var hit := HasEntryFor(docs[i].specializations, target);
      ListPassStep(docs, i, target);
      if hit {
        doctors := doctors + [docs[i]];
      }
      i := i + 1;
    }
    assert docs[..i] == docs;
  }

  lemma ListPassStep(docs: seq<DoctorDoc>, i: nat, target: string)
    requires i < |docs|
    ensures Filter(docs[..i + 1], MatchesList(target))
      == Filter(docs[..i], MatchesList(target)) + (if ListMatches(docs[i], target) then [docs[i]] else [])
  {
    FilterSnoc(docs[..i], docs[i], MatchesList(target));
    assert docs[..i + 1] == docs[..i] + [docs[i]];
  }

  /** The inner loop of the first pass: stops at the first non-empty entry that normalises to the target. */
  method HasEntryFor(specs: seq<string>, target: string) returns (hit: bool)
    ensures hit <==> exists s :: s in specs && s != "" && NormalizeSpecialty(s) == target
  {
    var j := 0;
    hit := false;
    while j < |specs| && !hit
      invariant 0 <= j <= |specs|
      invariant hit ==> 0 < j && specs[j - 1] != "" && NormalizeSpecialty(specs[j - 1]) == target
      invariant !hit ==> forall s :: s in specs[..j] ==> !(s != "" && NormalizeSpecialty(s) == target)
    {
      var entry := specs[j];
      assert specs[..j + 1] == specs[..j] + [entry];
      if entry != "" && NormalizeSpecialty(entry) == target {
        hit := true;
      }
      j := j + 1;
    }
    if hit {
      assert specs[j - 1] in specs;
    } else {
      assert specs[..j] == specs;
    }
  }

  /** The last pass, document by document. */
  method FuzzySearch(docs: seq<DoctorDoc>, target: string) returns (r: Option<seq<DoctorDoc>>)
    ensures r == FuzzyPass(docs, target)
  {
    var found: seq<DoctorDoc> := [];
    var i := 0;
    while i < |docs|
      invariant 0 <= i <= |docs|
      invariant FuzzyPass(docs[..i], target) == Some(found)
    {
      var d := docs[i];
      assert docs[..i + 1][..i] == docs[..i];
      if !Listed(found, d.id) {
        if ListRelated(d, target) {
          found := found + [d];
        } else {
          var singular := FuzzySingular(d);
          if singular.None? {
            assert FuzzyPass(docs[..i + 1], target).None?;
            FuzzyPassStaysFailed(docs, i + 1, target);
            return None;
          }
          var s := singular.value;
          if s != "" && Related(NormalizeSpecialty(s), target) {
            found := found + [d];
          }
        }
      }
      i := i + 1;
    }
    assert docs[..i] == docs;
    return Some(found);
  }

  /** Once the pass has raised on a prefix, it has raised on the whole collection. */
  lemma {:induction false} FuzzyPassStaysFailed(docs: seq<DoctorDoc>, n: nat, target: string)
    requires n <= |docs| && FuzzyPass(docs[..n], target).None?
    ensures FuzzyPass(docs, target).None?
    decreases |docs| - n
  {
    if n < |docs| {
      assert docs[..n + 1][..n] == docs[..n];
      FuzzyPassStaysFailed(docs, n + 1, target);
    } else {
      assert docs[..n] == docs;
    }
  }

  // ------------------------------------------------------------------
  // get_all_doctors_grouped
  // ------------------------------------------------------------------

  /** The normalised non-empty entries of a specializations list, in order, repeats kept. */
  function NormalizedEntries(specs: seq<string>): (r: seq<string>)
    ensures forall k :: k in r <==> exists s :: s in specs && s != "" && NormalizeSpecialty(s) == k
  {
    if specs == [] then []
    else
      var last := specs[|specs| - 1];
      var init := specs[..|specs| - 1];
      var rest := NormalizedEntries(init);
      assert specs == init + [last];
      EntriesSnoc(init, last, rest);
      rest + (if last != "" then [NormalizeSpecialty(last)] else [])
  }

  /** Appending one entry to the list appends its normal form, when it is not empty. */
  lemma EntriesSnoc(init: seq<string>, last: string, rest: seq<string>)
    requires forall k :: k in rest <==> exists s :: s in init && s != "" && NormalizeSpecialty(s) == k
    ensures var r := rest + (if last != "" then [NormalizeSpecialty(last)] else []);
      forall k :: k in r <==> exists s :: s in init + [last] && s != "" && NormalizeSpecialty(s) == k
  {
    var r := rest + (if last != "" then [NormalizeSpecialty(last)] else []);
    forall k
      ensures k in r <==> exists s :: s in init + [last] && s != "" && NormalizeSpecialty(s) == k
    {
      if k in r {
        EntryFrom(init, last, rest, k);
      }
      if exists s :: s in init + [last] && s != "" && NormalizeSpecialty(s) == k {
        EntryTo(init, last, rest, k);
      }
    }
  }

  lemma EntryFrom(init: seq<string>, last: string, rest: seq<string>, k: string)
    requires forall k :: k in rest <==> exists s :: s in init && s != "" && NormalizeSpecialty(s) == k
    requires k in rest + (if last != "" then [NormalizeSpecialty(last)] else [])
    ensures exists s :: s in init + [last] && s != "" && NormalizeSpecialty(s) == k
  {
    if k in rest {
      var s :| s in init && s != "" && NormalizeSpecialty(s) == k;
      assert s in init + [last];
    } else {
      assert last in init + [last];
    }
  }

  lemma EntryTo(init: seq<string>, last: string, rest: seq<string>, k: string)
    requires forall k :: k in rest <==> exists s :: s in init && s != "" && NormalizeSpecialty(s) == k
    requires exists s :: s in init + [last] && s != "" && NormalizeSpecialty(s) == k
    ensures k in rest + (if last != "" then [NormalizeSpecialty(last)] else [])
  {
    var s :| s in init + [last] && s != "" && NormalizeSpecialty(s) == k;
    if s != last {
      assert s in init;
    }
  }

  /** The groups one doctor is filed under, once per entry. */
  function GroupKeys(d: DoctorDoc): seq<string> {
    if |d.specializations| > 0 then NormalizedEntries(d.specializations)
    else [NormalizeSpecialty(SingularOr(d, GeneralPractitioner))]
  }

  /** `doctors_by_specialty[key].append(d)`, creating the list when the key is new. */
  function AppendUnder(g: Dict<string, seq<DoctorDoc>>, key: string, d: DoctorDoc): Dict<string, seq<DoctorDoc>> {
    Put(g, key, Get(g, key).GetOr([]) + [d])
  }

  function AddUnder(g: Dict<string, seq<DoctorDoc>>, keys: seq<string>, d: DoctorDoc): Dict<string, seq<DoctorDoc>> {
    if keys == [] then g
    else AppendUnder(AddUnder(g, keys[..|keys| - 1], d), keys[|keys| - 1], d)
  }

  /** `get_all_doctors_grouped`: groups in order of first use, doctors in collection order. */
  function Grouped(docs: seq<DoctorDoc>): Dict<string, seq<DoctorDoc>> {
    if docs == [] then []
    else AddUnder(Grouped(docs[..|docs| - 1]), GroupKeys(docs[|docs| - 1]), docs[|docs| - 1])
  }

  lemma {:induction false} AddUnderMembers(g: Dict<string, seq<DoctorDoc>>, keys: seq<string>, d: DoctorDoc,
                                            k: string, x: DoctorDoc)
    requires WellFormed(g)
    ensures WellFormed(AddUnder(g, keys, d))
    ensures x in Get(AddUnder(g, keys, d), k).GetOr([]) <==> x in Get(g, k).GetOr([]) || (x == d && k in keys)
  {
    if keys != [] {
      var init := keys[..|keys| - 1];
      var last := keys[|keys| - 1];
      var h := AddUnder(g, init, d);
      AddUnderMembers(g, init, d, k, x);
      AddUnderMembers(g, init, d, last, x);
      PutGet(h, last, Get(h, last).GetOr([]) + [d], k);
      assert k in keys <==> k in init || k == last;
    }
  }

  /**
   * The grouping names no specialty twice, and a doctor is listed under a
   * specialty exactly when that specialty is one of its group keys.
   */
  lemma {:induction false} GroupedMembers(docs: seq<DoctorDoc>, k: string, x: DoctorDoc)
    ensures WellFormed(Grouped(docs))
    ensures x in Get(Grouped(docs), k).GetOr([]) <==> x in docs && k in GroupKeys(x)
  {
    if docs != [] {
      var init := docs[..|docs| - 1];
      var last := docs[|docs| - 1];
      GroupedMembers(init, k, x);
      AddUnderMembers(Grouped(init), GroupKeys(last), last, k, x);
      assert x in docs <==> x in init || x == last;
    }
  }

  /** Every doctor is filed under at least one group, unless all its list entries are empty. */
  lemma GroupKeysNonEmpty(d: DoctorDoc)
    requires d.specializations == [] || exists s :: s in d.specializations && s != ""
    ensures GroupKeys(d) != []
  {
    if d.specializations != [] {
      var s :| s in d.specializations && s != "";
      assert NormalizeSpecialty(s) in NormalizedEntries(d.specializations);
    }
  }

  /** `get_all_doctors_grouped`, loop by loop; `count` is the number of documents read. */
  method GroupDoctors(docs: seq<DoctorDoc>) returns (groups: Dict<string, seq<DoctorDoc>>, count: nat)
    ensures groups == Grouped(docs)
    ensures count == |docs|
  {
    groups := [];
    count := 0;
    var i := 0;
    while i < |docs|
      invariant 0 <= i <= |docs|
      invariant groups == Grouped(docs[..i]) && count == i
    {
      count := count + 1;
      var d := docs[i];
      groups := FileUnder(groups, GroupKeys(d), d);
      assert docs[..i + 1][..i] == docs[..i];
      i := i + 1;
    }
    assert docs[..i] == docs;
  }

  /** The inner loop: the doctor is appended under each of its keys in turn. */
  method FileUnder(start: Dict<string, seq<DoctorDoc>>, keys: seq<string>, d: DoctorDoc)
    returns (groups: Dict<string, seq<DoctorDoc>>)
    ensures groups == AddUnder(start, keys, d)
  {
    groups := start;
    var j := 0;
    while j < |keys|
      invariant 0 <= j <= |keys|
      invariant groups == AddUnder(start, keys[..j], d)
    {
      assert keys[..j + 1][..j] == keys[..j];
      groups := AppendUnder(groups, keys[j], d);
      j := j + 1;
    }
    assert keys[..j] == keys;
  }

  // ------------------------------------------------------------------
  // convert_doctor_to_model
  // ------------------------------------------------------------------

  /** The response record of one doctor. */
  datatype DoctorCard = DoctorCard(
    id: string,
    name: string,
    specialization: string,
    email: string,
    phone: Option<string>,
    profileImage: Option<string>,
    rating: real,
    reviewCount: int,
    experienceYears: int,
    hospital: Option<string>,
    address: string,
    consultationFee: Option<real>)

  /** Python's `int(x)` on a float: truncation toward zero. */
  function TruncateTowardZero(x: real): (r: int)
    ensures 0.0 <= x ==> r as real <= x < r as real + 1.0
    ensures x < 0.0 ==> r as real - 1.0 < x <= r as real
  {
    if x >= 0.0 then x.Floor else -((-x).Floor)
  }

  /** The specialization shown for a doctor: the first list entry, else the singular fields. */
  function DisplaySpecialization(d: DoctorDoc): string {
    if |d.specializations| > 0 then d.specializations[0] else SingularOr(d, GeneralPractitioner)
  }

  /** `convert_doctor_to_model`: every field with its fallbacks. */
  function ConvertDoctor(d: DoctorDoc): (c: DoctorCard)
    ensures c.id == d.id
    ensures |d.specializations| == 0 ==> c.specialization != ""
    ensures c.rating == (if d.rating.Number? then d.rating.value else 0.0)
    ensures c.consultationFee.Some? <==> d.consultationFee.Number?
  {
    DoctorCard(
      d.id,
      d.name.GetOr("Unknown Doctor"),
      DisplaySpecialization(d),
      d.email.GetOr(""),
      Or(d.phone, d.phoneNumber),
      FirstTruthy(d.profileImages),
      if d.rating.Number? then d.rating.value else 0.0,
      d.reviewCount.GetOr(0),
      match d.experience
        case ExperienceList(n) => if n > 0 then 0 else d.experienceYears.GetOr(0)
        case ExperienceNumber(x) => TruncateTowardZero(x)
        case ExperienceOther => d.experienceYears.GetOr(0),
      d.hospital,
      Or(d.location, d.address).GetOr(""),
      if d.consultationFee.Number? then Some(d.consultationFee.value) else None)
  }

  /**
   * The specialization a doctor is shown with names one of the groups it is
   * filed under, once normalised (a list whose first entry is empty is shown
   * with an empty name and is the exception).
   */
  lemma DisplayedSpecializationIsAGroup(d: DoctorDoc)
    requires d.specializations == [] || d.specializations[0] != ""
    ensures NormalizeSpecialty(ConvertDoctor(d).specialization) in GroupKeys(d)
  {
    if d.specializations != [] {
      assert d.specializations[0] in d.specializations;
    }
  }

  /** The doctors of every group converted, groups in the same order. */
  function ConvertGroups(g: Dict<string, seq<DoctorDoc>>): (r: Dict<string, seq<DoctorCard>>)
    ensures Keys(r) == Keys(g)
  {
    seq(|g|, i requires 0 <= i < |g| =>
      (g[i].0, seq(|g[i].1|, j requires 0 <= j < |g[i].1| => ConvertDoctor(g[i].1[j]))))
  }

  /** Each group lists the cards of that group's doctors, in order, and no other group is added or lost. */
  lemma {:induction false} ConvertGroupsGet(g: Dict<string, seq<DoctorDoc>>, k: string)
    ensures Get(ConvertGroups(g), k).Some? <==> Get(g, k).Some?
    ensures Get(g, k).Some? ==> Get(ConvertGroups(g), k).value == ConvertFirst(Get(g, k).value, |Get(g, k).value|)
  {
    if g != [] {
      var r := ConvertGroups(g);
      if g[0].0 != k {
        assert r[1..] == ConvertGroups(g[1..]);
        ConvertGroupsGet(g[1..], k);
      }
    }
  }

  /**
   * The response's `all_doctors_by_specialty`: a card is listed under a
   * specialty exactly when it is the card of a doctor of the collection
   * filed under that specialty.
   */
  lemma AllBySpecialtyMembers(docs: seq<DoctorDoc>, k: string, c: DoctorCard)
    ensures c in Get(ConvertGroups(Grouped(docs)), k).GetOr([]) <==>
      exists d :: d in docs && k in GroupKeys(d) && c == ConvertDoctor(d)
  {
    if c in Get(ConvertGroups(Grouped(docs)), k).GetOr([]) {
      ListedCardFrom(docs, k, c);
    }
    if exists d :: d in docs && k in GroupKeys(d) && c == ConvertDoctor(d) {
      var d :| d in docs && k in GroupKeys(d) && c == ConvertDoctor(d);
      FiledCardListed(docs, k, d);
    }
  }

  lemma ListedCardFrom(docs: seq<DoctorDoc>, k: string, c: DoctorCard)
    requires c in Get(ConvertGroups(Grouped(docs)), k).GetOr([])
    ensures exists d :: d in docs && k in GroupKeys(d) && c == ConvertDoctor(d)
  {
    var g := Grouped(docs);
    ConvertGroupsGet(g, k);
    var ds := Get(g, k).value;
    var cards := ConvertFirst(ds, |ds|);
    var i :| 0 <= i < |cards| && cards[i] == c;
    assert ds[i] in ds;
    GroupedMembers(docs, k, ds[i]);
  }

  lemma FiledCardListed(docs: seq<DoctorDoc>, k: string, d: DoctorDoc)
    requires d in docs && k in GroupKeys(d)
    ensures ConvertDoctor(d) in Get(ConvertGroups(Grouped(docs)), k).GetOr([])
  {
    var g := Grouped(docs);
    GroupedMembers(docs, k, d);
    ConvertGroupsGet(g, k);
    var ds := Get(g, k).value;
    var i :| 0 <= i < |ds| && ds[i] == d;
    assert ConvertFirst(ds, |ds|)[i] == ConvertDoctor(d);
  }

  /** `[convert_doctor_to_model(d) for d in doctors[:n]]`. */
  function ConvertFirst(docs: seq<DoctorDoc>, n: nat): (r: seq<DoctorCard>)
    ensures |r| == |Take(docs, n)| && |r| <= n
    ensures forall i :: 0 <= i < |r| ==> r[i] == ConvertDoctor(docs[i])
  {
    var t := Take(docs, n);
    seq(|t|, i requires 0 <= i < |t| => ConvertDoctor(t[i]))
  }

  /** Every card is the card of one of the doctors. */
  lemma ConvertFirstFrom(docs: seq<DoctorDoc>, n: nat, c: DoctorCard)
    requires c in ConvertFirst(docs, n)
    ensures exists d :: d in docs && c == ConvertDoctor(d)
  {
    var cards := ConvertFirst(docs, n);
    var i :| 0 <= i < |cards| && cards[i] == c;
    assert docs[i] in docs;
  }
}
