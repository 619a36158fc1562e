/**
  How a patient record becomes feature names: the age is banded, the four
  categorical columns are one-hot encoded (`pd.get_dummies`, which names a
  dummy column `<column>_<value>`), and the dummy names are then renamed by a
  fixed table; a name the table does not list keeps its dummy name.
 */
module Features {
  import opened Wrappers
  import AgeBins

  /** The four columns that are expanded into dummy columns. */
  datatype Column = Gender | AgeRange | Diagnosis | Complication

  /** The column's header in the spreadsheet (the age band is the derived column). */
  function Header(c: Column): string {
    match c
    case Gender => "Gender"
    case AgeRange => "Rentang Umur"
    case Diagnosis => "Nama diagnosis ICD 10"
    case Complication => "Komplikasi"
  }

  /** What `pd.get_dummies` puts in front of a value: the header and `_`. */
  function Prefix(c: Column): string {
    Header(c) + "_"
  }

  /** The dummy column name of `value` in column `c`. */
  function DummyName(c: Column, value: string): string {
    Prefix(c) + value
  }

  /** The rename table applied to the dummy columns. */
  const RenameTable: map<string, string> := map[
    "Gender_LAKI-LAKI" := "Male",
    "Gender_PEREMPUAN" := "Female",
    "Rentang Umur_Umur_0-18" := "Age_0-18",
    "Rentang Umur_Umur_19-34" := "Age_19-34",
    "Rentang Umur_Umur_35-54" := "Age_35-54",
    "Rentang Umur_Umur_55-64" := "Age_55-64",
    "Rentang Umur_Umur_>65" := "Age_>65",
    "Nama diagnosis ICD 10_E10 Type 1 diabetes mellitus" := "E10 Type 1 diabetes mellitus",
    "Nama diagnosis ICD 10_E11 Type 2 diabetes mellitus" := "E11 Type 2 diabetes mellitus",
    "Nama diagnosis ICD 10_O24 Diabetes mellitus in pregnancy" := "O24 Diabetes mellitus in pregnancy",
    "Komplikasi_No" := "No Complications",
    "Komplikasi_Yes" := "With Complications"
  ]

  /** The rename table read backwards: each renamed feature and the dummy name it replaced. */
  const OriginalNames: map<string, string> := map[
    "Male" := "Gender_LAKI-LAKI",
    "Female" := "Gender_PEREMPUAN",
    "Age_0-18" := "Rentang Umur_Umur_0-18",
    "Age_19-34" := "Rentang Umur_Umur_19-34",
    "Age_35-54" := "Rentang Umur_Umur_35-54",
    "Age_55-64" := "Rentang Umur_Umur_55-64",
    "Age_>65" := "Rentang Umur_Umur_>65",
    "E10 Type 1 diabetes mellitus" := "Nama diagnosis ICD 10_E10 Type 1 diabetes mellitus",
    "E11 Type 2 diabetes mellitus" := "Nama diagnosis ICD 10_E11 Type 2 diabetes mellitus",
    "O24 Diabetes mellitus in pregnancy" := "Nama diagnosis ICD 10_O24 Diabetes mellitus in pregnancy",
    "No Complications" := "Komplikasi_No",
    "With Complications" := "Komplikasi_Yes"
  ]

  /**
    `DataFrame.rename(columns=...)`: listed names are replaced, others kept.
    A replaced name can be traced back to the dummy name it replaced, and it
    no longer reads as a dummy name of any column.
   */
  function Rename(name: string): (renamed: string)
    ensures name in RenameTable ==> renamed in OriginalNames && OriginalNames[renamed] == name
    ensures name in RenameTable ==> SplitDummy(renamed) == None
  {
    if name in RenameTable then
      OriginalNamesInvertRename(name);
      RenamedAreNotDummies(RenameTable[name]);
      RenameTable[name]
    else name
  }

  /** The final name of the feature for `value` in column `c`. */
  function FeatureName(c: Column, value: string): string {
    Rename(DummyName(c, value))
  }

  /** One spreadsheet row; the age is taken as a whole number of years. */
  datatype Record = Record(gender: string, age: int, diagnosis: string, complication: string)

  /** The columns in the order the encoding lists them. */
  const Columns: seq<Column> := [Gender, AgeRange, Diagnosis, Complication]

  /** The value a record holds in column `c` (the age band for the age column). */
  function ValueOf(r: Record, c: Column): string {
    match c
    case Gender => r.gender
    case AgeRange => AgeBins.CreateAgeBins(r.age)
    case Diagnosis => r.diagnosis
    case Complication => r.complication
  }

  /** The features that are true for `r`: one per expanded column. */
  function Encode(r: Record): (names: seq<string>)
    ensures |names| == |Columns|
  {
    seq(|Columns|, i requires 0 <= i < |Columns| => FeatureName(Columns[i], ValueOf(r, Columns[i])))
  }

  /** Whether `s` starts with `p`. */
  predicate HasPrefix(s: string, p: string) {
    |p| <= |s| && s[..|p|] == p
  }

  /** Splits a dummy name into its column and value, when it starts with a known prefix. */
  function SplitDummy(name: string): Option<(Column, string)> {
    if HasPrefix(name, Prefix(Gender)) then Some((Gender, name[|Prefix(Gender)|..]))
    else if HasPrefix(name, Prefix(AgeRange)) then Some((AgeRange, name[|Prefix(AgeRange)|..]))
    else if HasPrefix(name, Prefix(Diagnosis)) then Some((Diagnosis, name[|Prefix(Diagnosis)|..]))
    else if HasPrefix(name, Prefix(Complication)) then Some((Complication, name[|Prefix(Complication)|..]))
    else None
  }

  /** Recovers the column and value a feature name was made from. */
  function ParseFeature(name: string): Option<(Column, string)> {
    if name in OriginalNames then SplitDummy(OriginalNames[name]) else SplitDummy(name)
  }

  /** A string that differs from `p` at some position within both does not start with `p`. */
  lemma NotPrefixAt(s: string, p: string, k: nat)
    requires k < |p| && k < |s| && s[k] != p[k]
    ensures !HasPrefix(s, p)
  {
    if |p| <= |s| {
      assert s[..|p|][k] == s[k];
    }
  }

  /** Distinct columns have prefixes that differ in their first character. */
  lemma PrefixesDiffer(c: Column, d: Column)
    requires c != d
    ensures Prefix(c)[0] != Prefix(d)[0]
  {
  }

  /** A dummy name splits back into the column and value it was made from. */
  lemma SplitDummyName(c: Column, value: string)
    ensures SplitDummy(DummyName(c, value)) == Some((c, value))
  {
    var name := DummyName(c, value);
    assert name[..|Prefix(c)|] == Prefix(c);
    assert name[|Prefix(c)|..] == value;
    forall d | d != c
      ensures !HasPrefix(name, Prefix(d))
    {
      PrefixesDiffer(c, d);
      NotPrefixAt(name, Prefix(d), 0);
    }
  }

  /** The renamed features are not dummy names of any column. */
  lemma RenamedAreNotDummies(name: string)
    requires name in OriginalNames
    ensures SplitDummy(name) == None
  {
    if name == "No Complications" {
      // the only renamed name sharing a first letter with a prefix, "Nama diagnosis ICD 10_"
      forall c: Column
        ensures !HasPrefix(name, Prefix(c))
      {
        NotPrefixAt(name, Prefix(c), if c == Diagnosis then 1 else 0);
      }
    } else {
      assert name[0] in "MFAEOW";
      forall c: Column
        ensures !HasPrefix(name, Prefix(c))
      {
        NotPrefixAt(name, Prefix(c), 0);
      }
    }
  }

  /** Reading the rename table backwards gives back the dummy name. */
  lemma OriginalNamesInvertRename(key: string)
    requires key in RenameTable
    ensures RenameTable[key] in OriginalNames && OriginalNames[RenameTable[key]] == key
  {
  }

  /** Parsing a feature name recovers the column and the value it was built from. */
  lemma ParseFeatureName(c: Column, value: string)
    ensures ParseFeature(FeatureName(c, value)) == Some((c, value))
  {
    var key := DummyName(c, value);
    SplitDummyName(c, value);
    if key in RenameTable {
      OriginalNamesInvertRename(key);
    } else if key in OriginalNames {
      RenamedAreNotDummies(key);
    }
  }

  /** The rename table sends distinct dummy names to distinct names. */
  lemma RenameTableInjective(k1: string, k2: string)
    requires k1 in RenameTable && k2 in RenameTable && RenameTable[k1] == RenameTable[k2]
    ensures k1 == k2
  {
    OriginalNamesInvertRename(k1);
    OriginalNamesInvertRename(k2);
  }

  /** Distinct (column, value) pairs never end up under the same feature name. */
  lemma FeatureNameInjective(c: Column, v: string, d: Column, w: string)
    requires FeatureName(c, v) == FeatureName(d, w)
    ensures c == d && v == w
  {
    ParseFeatureName(c, v);
    ParseFeatureName(d, w);
  }

  /**
    One-hot encoding of a record: its i-th feature parses back to the i-th
    column and the record's value there, so the record has exactly one true
    feature per column and its four features are pairwise distinct.
   */
  lemma EncodeOnePerColumn(r: Record)
    ensures forall i :: 0 <= i < |Columns| ==> ParseFeature(Encode(r)[i]) == Some((Columns[i], ValueOf(r, Columns[i])))
    ensures forall i, j :: 0 <= i < j < |Columns| ==> Encode(r)[i] != Encode(r)[j]
  {
    forall i | 0 <= i < |Columns|
      ensures ParseFeature(Encode(r)[i]) == Some((Columns[i], ValueOf(r, Columns[i])))
    {
      ParseFeatureName(Columns[i], ValueOf(r, Columns[i]));
    }
    // distinct columns parse differently, so their names differ
  }
}
