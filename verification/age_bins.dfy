/**
  The age-band classifier `create_age_bins`: a patient's age is put into one
  of five bands whose upper ends 18, 34, 54 and 64 are inclusive.
 */
module AgeBins {

  /** The five band labels, youngest first. */
  const Labels: seq<string> := ["Umur_0-18", "Umur_19-34", "Umur_35-54", "Umur_55-64", "Umur_>65"]

  /** The inclusive upper end of every band but the last. */
  const CutPoints: seq<int> := [18, 34, 54, 64]

  /** The band label of `age`, by the cascade of comparisons the application uses. */
  function CreateAgeBins(age: int): (band: string)
    ensures band in Labels
  {
    if age <= 18 then "Umur_0-18"
    else if age <= 34 then "Umur_19-34"
    else if age <= 54 then "Umur_35-54"
    else if age <= 64 then "Umur_55-64"
    else "Umur_>65"
  }

  /** How many of the cut points lie strictly below `age`. */
  function CountBelow(cuts: seq<int>, age: int): (n: nat)
    ensures n <= |cuts|
  {
    if cuts == [] then 0
    else (if cuts[0] < age then 1 else 0) + CountBelow(cuts[1..], age)
  }

  /** The position of `age`'s band: the number of cut points it has passed. */
  function BandIndex(age: int): (i: nat)
    ensures i < |Labels|
  {
    CountBelow(CutPoints, age)
  }

  /** The comparison cascade picks the band whose position is the number of cut points passed. */
  lemma CascadeMatchesCutPoints(age: int)
    ensures CreateAgeBins(age) == Labels[BandIndex(age)]
  {
    var c3 := CountBelow([64], age);
    assert c3 == if 64 < age then 1 else 0 by {
      assert [64][1..] == [];
    }
    var c2 := CountBelow([54, 64], age);
    assert c2 == (if 54 < age then 1 else 0) + c3 by {
      assert [54, 64][1..] == [64];
    }
    var c1 := CountBelow([34, 54, 64], age);
    assert c1 == (if 34 < age then 1 else 0) + c2 by {
      assert [34, 54, 64][1..] == [54, 64];
    }
    assert BandIndex(age) == (if 18 < age then 1 else 0) + c1 by {
      assert CutPoints[1..] == [34, 54, 64];
    }
  }

  /**
    Each band is exactly the ages above the previous cut point (if any) and at
    most its own cut point (if any): the label is returned iff the age lies in
    that closed-above interval.
   */
  lemma BandCharacterisation(age: int, i: nat)
    requires i < |Labels|
    ensures CreateAgeBins(age) == Labels[i]
        <==> (i == 0 || CutPoints[i - 1] < age) && (i == |CutPoints| || age <= CutPoints[i])
  {
    CascadeMatchesCutPoints(age);
    // the five labels are pairwise distinct, so the label determines the position
    assert forall j, k :: 0 <= j < k < |Labels| ==> Labels[j] != Labels[k] by {
      assert Labels[0][5] == '0' && Labels[1][5] == '1' && Labels[2][5] == '3';
      assert Labels[3][5] == '5' && Labels[4][5] == '>';
    }
  }

  /** Counting the cut points passed can only grow with the age. */
  lemma {:induction false} CountBelowMonotone(cuts: seq<int>, a: int, b: int)
    requires a <= b
    ensures CountBelow(cuts, a) <= CountBelow(cuts, b)
  {
    if cuts != [] {
      CountBelowMonotone(cuts[1..], a, b);
    }
  }

  /** An older patient never falls into a younger band. */
  lemma BandIndexMonotone(a: int, b: int)
    requires a <= b
    ensures BandIndex(a) <= BandIndex(b)
  {
    CountBelowMonotone(CutPoints, a, b);
  }

  /**
    The band edges as the code draws them: 18 and 19, 34 and 35, 54 and 55,
    64 and 65 fall on either side of a cut; 65 is already in `Umur_>65`.
   */
  lemma BandEdges()
    ensures CreateAgeBins(18) == "Umur_0-18" && CreateAgeBins(19) == "Umur_19-34"
    ensures CreateAgeBins(34) == "Umur_19-34" && CreateAgeBins(35) == "Umur_35-54"
    ensures CreateAgeBins(54) == "Umur_35-54" && CreateAgeBins(55) == "Umur_55-64"
    ensures CreateAgeBins(64) == "Umur_55-64" && CreateAgeBins(65) == "Umur_>65"
  {
  }
}
