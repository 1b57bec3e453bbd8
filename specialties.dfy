/**
 * `normalize_specialty` of the doctor-recommendation service
 * (`find_doctor.py`): a specialty name is lower-cased and stripped and then
 * looked up in a fixed synonym table; a name the table does not know is
 * returned exactly as it was given.
 */
module Specialties {
  import opened Wrappers
  import opened Text

  const GeneralPractitioner: string := "General Practitioner"

  /** The number of entries of the synonym table. */
  const SynonymCount: nat := 27

  /** Entry `i` of the synonym table: a lower-case variation and the canonical specialty it stands for. */
  function Synonym(i: nat): (string, string)
    requires i < SynonymCount
  {
    if i == 0 then ("cardiologist", "Cardiologist")
    else if i == 1 then ("cardiology", "Cardiologist")
    else if i == 2 then ("heart specialist", "Cardiologist")
    else if i == 3 then ("pulmonologist", "Pulmonologist")
    else if i == 4 then ("pulmonology", "Pulmonologist")
    else if i == 5 then ("lung specialist", "Pulmonologist")
    else if i == 6 then ("respiratory specialist", "Pulmonologist")
    else if i == 7 then ("neurologist", "Neurologist")
    else if i == 8 then ("neurology", "Neurologist")
    else if i == 9 then ("dermatologist", "Dermatologist")
    else if i == 10 then ("dermatology", "Dermatologist")
    else if i == 11 then ("skin specialist", "Dermatologist")
    else if i == 12 then ("gastroenterologist", "Gastroenterologist")
    else if i == 13 then ("gastroenterology", "Gastroenterologist")
    else if i == 14 then ("endocrinologist", "Endocrinologist")
    else if i == 15 then ("endocrinology", "Endocrinologist")
    else if i == 16 then ("hematologist", "Hematologist")
    else if i == 17 then ("hematology", "Hematologist")
    else if i == 18 then ("oncologist", "Oncologist")
    else if i == 19 then ("oncology", "Oncologist")
    else if i == 20 then ("orthopedist", "Orthopedist")
    else if i == 21 then ("orthopedics", "Orthopedist")
    else if i == 22 then ("orthopedic", "Orthopedist")
    else if i == 23 then ("orthopedic surgeon", "Orthopedist")
    else if i == 24 then ("general practitioner", "General Practitioner")
    else if i == 25 then ("gp", "General Practitioner")
    else ("family doctor", "General Practitioner")
  }

  /** `mappings.get(key)`: the first entry from `i` on whose variation is `key`. */
  function LookupFrom(key: string, i: nat): Option<string>
    requires i <= SynonymCount
    decreases SynonymCount - i
  {
    if i == SynonymCount then None
    else if Synonym(i).0 == key then Some(Synonym(i).1)
    else LookupFrom(key, i + 1)
  }

  /** The canonical names the table maps to. */
  const Canonical: set<string> := {
    "Cardiologist", "Pulmonologist", "Neurologist", "Dermatologist", "Gastroenterologist",
    "Endocrinologist", "Hematologist", "Oncologist", "Orthopedist", "General Practitioner"
  }

  /** The lookup key of a specialty name: `specialty.lower().strip()`. */
  function LookupKey(specialty: string): string {
    Trim(Lower(specialty))
  }

  /** The key is lower-case and stripped, whichever of the two is done first. */
  lemma LookupKeyShape(specialty: string)
    ensures IsTrimmed(LookupKey(specialty)) && IsLowerCase(LookupKey(specialty))
    ensures LookupKey(specialty) == Lower(Trim(specialty))
  {
    LowerOfTrim(specialty);
    TrimIsTrimmed(Lower(specialty));
  }

  /** `normalize_specialty`. */
  function NormalizeSpecialty(specialty: string): string {
    LookupFrom(LookupKey(specialty), 0).GetOr(specialty)
  }

  /** Every entry of the table maps to a canonical name. */
  lemma SynonymCanonical(i: nat)
    requires i < SynonymCount
    ensures Synonym(i).1 in Canonical
  {
  }

  /** Whatever the table maps a variation to is a canonical name. */
  lemma {:induction false} LookupCanonical(key: string, i: nat)
    requires i <= SynonymCount && LookupFrom(key, i).Some?
    ensures LookupFrom(key, i).value in Canonical
    decreases SynonymCount - i
  {
    if Synonym(i).0 == key {
      SynonymCanonical(i);
    } else {
      LookupCanonical(key, i + 1);
    }
  }

  /** Every canonical name is its own normal form. */
  lemma CanonicalIsFixed(name: string)
    requires name in Canonical
    ensures NormalizeSpecialty(name) == name
  {
    if name == "Cardiologist" {
      CardiologistFixed(name);
    } else if name == "Pulmonologist" {
      PulmonologistFixed(name);
    } else if name == "Neurologist" {
      NeurologistFixed(name);
    } else if name == "Dermatologist" {
      DermatologistFixed(name);
    } else if name == "Gastroenterologist" {
      GastroenterologistFixed(name);
    } else if name == "Endocrinologist" {
      EndocrinologistFixed(name);
    } else if name == "Hematologist" {
      HematologistFixed(name);
    } else if name == "Oncologist" {
      OncologistFixed(name);
    } else if name == "Orthopedist" {
      OrthopedistFixed(name);
    } else {
      GeneralPractitionerFixed(name);
    }
  }

  lemma CardiologistFixed(name: string)
    requires name == "Cardiologist"
    ensures NormalizeSpecialty(name) == name
  {
    KeyOf("Cardiologist", "cardiologist", 0);
  }

  lemma PulmonologistFixed(name: string)
    requires name == "Pulmonologist"
    ensures NormalizeSpecialty(name) == name
  {
    KeyOf("Pulmonologist", "pulmonologist", 3);
  }

  lemma NeurologistFixed(name: string)
    requires name == "Neurologist"
    ensures NormalizeSpecialty(name) == name
  {
    KeyOf("Neurologist", "neurologist", 7);
  }

  lemma DermatologistFixed(name: string)
    requires name == "Dermatologist"
    ensures NormalizeSpecialty(name) == name
  {
    KeyOf("Dermatologist", "dermatologist", 9);
  }

  lemma GastroenterologistFixed(name: string)
    requires name == "Gastroenterologist"
    ensures NormalizeSpecialty(name) == name
  {
    KeyOf("Gastroenterologist", "gastroenterologist", 12);
  }

  lemma EndocrinologistFixed(name: string)
    requires name == "Endocrinologist"
    ensures NormalizeSpecialty(name) == name
  {
    KeyOf("Endocrinologist", "endocrinologist", 14);
  }

  lemma HematologistFixed(name: string)
    requires name == "Hematologist"
    ensures NormalizeSpecialty(name) == name
  {
    KeyOf("Hematologist", "hematologist", 16);
  }

  lemma OncologistFixed(name: string)
    requires name == "Oncologist"
    ensures NormalizeSpecialty(name) == name
  {
    KeyOf("Oncologist", "oncologist", 18);
  }

  lemma OrthopedistFixed(name: string)
    requires name == "Orthopedist"
    ensures NormalizeSpecialty(name) == name
  {
    KeyOf("Orthopedist", "orthopedist", 20);
  }

  lemma GeneralPractitionerFixed(name: string)
    requires name == "General Practitioner"
    ensures NormalizeSpecialty(name) == name
  {
    KeyOf("General Practitioner", "general practitioner", 24);
  }

  /** The lookup passes over entries whose variation is not the key. */
  lemma {:induction false} LookupSkips(key: string, i: nat, j: nat)
    requires i <= j <= SynonymCount
    requires forall k :: i <= k < j ==> Synonym(k).0 != key
    ensures LookupFrom(key, i) == LookupFrom(key, j)
    decreases j - i
  {
    if i < j {
      LookupSkips(key, i + 1, j);
    }
  }

  /** A canonical name whose lower-cased form is a key of the table mapping back to it. */
  lemma KeyOf(name: string, key: string, i: nat)
    requires |name| == |key| && forall i :: 0 <= i < |name| ==> LowerChar(name[i]) == key[i]
    requires IsTrimmed(key)
    requires i < SynonymCount && LookupFrom(key, i) == Some(name)
    requires forall j :: 0 <= j < i ==> Synonym(j).0 != key
    ensures NormalizeSpecialty(name) == name
  {
    LookupSkips(key, 0, i);
    assert Lower(name) == key;
    TrimmedFixed(key);
  }

  /** A name is either mapped to a canonical name or returned exactly as given. */
  lemma NormalizeResult(specialty: string)
    ensures NormalizeSpecialty(specialty) in Canonical || NormalizeSpecialty(specialty) == specialty
    ensures LookupFrom(LookupKey(specialty), 0).None? ==> NormalizeSpecialty(specialty) == specialty
  {
    if LookupFrom(LookupKey(specialty), 0).Some? {
      LookupCanonical(LookupKey(specialty), 0);
    }
  }

  /** Normalising twice is normalising once. */
  lemma NormalizeIdempotent(specialty: string)
    ensures NormalizeSpecialty(NormalizeSpecialty(specialty)) == NormalizeSpecialty(specialty)
  {
    if LookupFrom(LookupKey(specialty), 0).Some? {
      LookupCanonical(LookupKey(specialty), 0);
      CanonicalIsFixed(NormalizeSpecialty(specialty));
    }
  }
}
