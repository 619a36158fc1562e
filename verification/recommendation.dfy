/**
  `generate_recommendation`: a fixed-priority cascade of tests that attaches
  a care recommendation to a rule. Every test is a substring test on the
  rule's antecedents or consequents joined by `", "`, not a membership test
  on the sets. Beside the cascade as the application writes it stands the
  same decision as a priority table (first row whose tests hold wins), and
  the sentence the rule page shows for a rule.
 */
module Recommendation {
  import opened Wrappers
  import opened Text
  import Features

  /** The message returned when no test of the cascade holds. */
  const DefaultMessage: string := "Pertimbangkan untuk menyesuaikan strategi penanganan berdasarkan aturan yang dihasilkan."

  /**
    The cascade, over the joined antecedent and consequent texts. A block
    headed by an antecedent test returns the message of its first consequent
    test that holds, and falls through to the next block when none does.
   */
  function RecommendFor(antecedents: string, consequents: string): string {
    var male := MaleAdvice(antecedents, consequents);
    if male.Some? then male.value else
    var female := FemaleAdvice(antecedents, consequents);
    if female.Some? then female.value else
    var age35to54 := Age35To54Advice(antecedents, consequents);
    if age35to54.Some? then age35to54.value else
    var age55to64 := Age55To64Advice(antecedents, consequents);
    if age55to64.Some? then age55to64.value else
    var over65 := Over65Advice(antecedents, consequents);
    if over65.Some? then over65.value else
    var type1 := Type1Advice(antecedents, consequents);
    if type1.Some? then type1.value else
    var type2 := Type2Advice(antecedents, consequents);
    if type2.Some? then type2.value else
    ClosingAdvice(antecedents, consequents)
  }

  /** The block headed by "Male" in the antecedents: its first consequent test that holds, if any. */
  function MaleAdvice(antecedents: string, consequents: string): Option<string> {
    if !Contains(antecedents, "Male") then None
    else if Contains(consequents, "Age_55-64") then
      Some("Perhatikan pasien pria dengan rentang usia 55-64 tahun untuk evaluasi risiko kesehatan.")
    else if Contains(consequents, "Age_>65") then
      Some("Pertimbangkan tindakan pencegahan tambahan untuk pria berusia di atas 65 tahun.")
    else if Contains(consequents, "No Complications") then
      Some("Lakukan pemantauan berkala pada pria untuk memastikan tidak mengalami komplikasi.")
    else if Contains(consequents, "With Complications") then
      Some("Monitor secara intensif pria yang menunjukkan gejala komplikasi.")
    else None
  }

  /** The block headed by "Female" in the antecedents: its first consequent test that holds, if any. */
  function FemaleAdvice(antecedents: string, consequents: string): Option<string> {
    if !Contains(antecedents, "Female") then None
    else if Contains(consequents, "Age_35-54") then
      Some("Berikan perhatian khusus pada wanita berusia 35-54 tahun untuk deteksi dini.")
    else if Contains(consequents, "Age_>65") then
      Some("Prioritaskan pemantauan wanita berusia di atas 65 tahun untuk risiko kesehatan.")
    else if Contains(consequents, "No Complications") then
      Some("Pertimbangkan pemantauan tambahan pada wanita untuk mencegah komplikasi.")
    else if Contains(consequents, "With Complications") then
      Some("Tingkatkan pengawasan wanita yang mengalami komplikasi.")
    else None
  }

  /** The block headed by "Age_35-54" in the antecedents: its first consequent test that holds, if any. */
  function Age35To54Advice(antecedents: string, consequents: string): Option<string> {
    if !Contains(antecedents, "Age_35-54") then None
    else if Contains(consequents, "Female") then
      Some("Fokuskan strategi penanganan pada wanita berusia 35-54 tahun.")
    else if Contains(consequents, "Male") then
      Some("Fokuskan strategi penanganan pada pria berusia 35-54 tahun.")
    else if Contains(consequents, "E10 Type 1 diabetes mellitus") then
      Some("Tingkatkan pengawasan terhadap pasien berusia 35-54 tahun yang mengalami diabetes tipe 1.")
    else if Contains(consequents, "E11 Type 2 diabetes mellitus") then
      Some("Tingkatkan pengawasan terhadap pasien berusia 35-54 tahun yang mengalami diabetes tipe 2.")
    else None
  }

  /** The block headed by "Age_55-64" in the antecedents: its first consequent test that holds, if any. */
  function Age55To64Advice(antecedents: string, consequents: string): Option<string> {
    if !Contains(antecedents, "Age_55-64") then None
    else if Contains(consequents, "Female") then
      Some("Perhatikan wanita berusia 55-64 tahun dalam rencana penanganan.")
    else if Contains(consequents, "Male") then
      Some("Pertimbangkan faktor risiko tambahan untuk pria berusia 55-64 tahun.")
    else if Contains(consequents, "E10 Type 1 diabetes mellitus") then
      Some("Tingkatkan pengawasan terhadap pasien berusia 55-64 tahun yang mengalami diabetes tipe 1.")
    else if Contains(consequents, "E11 Type 2 diabetes mellitus") then
      Some("Tingkatkan pengawasan terhadap pasien berusia 55-64 tahun yang mengalami diabetes tipe 2.")
    else None
  }

  /** The block headed by "Age_>65" in the antecedents: its first consequent test that holds, if any. */
  function Over65Advice(antecedents: string, consequents: string): Option<string> {
    if !Contains(antecedents, "Age_>65") then None
    else if Contains(consequents, "Female") then
      Some("Perhatikan wanita berusia di atas 65 tahun untuk strategi pencegahan.")
    else if Contains(consequents, "Male") then
      Some("Fokuskan penanganan pada pria berusia di atas 65 tahun.")
    else if Contains(consequents, "E10 Type 1 diabetes mellitus") then
      Some("Tingkatkan pengawasan terhadap pasien berusia di atas 65 tahun yang mengalami diabetes tipe 1.")
    else if Contains(consequents, "E11 Type 2 diabetes mellitus") then
      Some("Tingkatkan pengawasan terhadap pasien berusia di atas 65 tahun yang mengalami diabetes tipe 2.")
    else None
  }

  /** The block headed by "E10 Type 1 diabetes mellitus" in the antecedents: its first consequent test that holds, if any. */
  function Type1Advice(antecedents: string, consequents: string): Option<string> {
    if !Contains(antecedents, "E10 Type 1 diabetes mellitus") then None
    else if Contains(consequents, "Male") then
      Some("Pasien pria dengan diabetes tipe 1 memerlukan perhatian lebih pada pengelolaan diabetes.")
    else if Contains(consequents, "With Complications") then
      Some("Monitor pasien dengan diabetes tipe 1 untuk kemungkinan komplikasi lebih lanjut.")
    else None
  }

  /** The block headed by "E11 Type 2 diabetes mellitus" in the antecedents: its first consequent test that holds, if any. */
  function Type2Advice(antecedents: string, consequents: string): Option<string> {
    if !Contains(antecedents, "E11 Type 2 diabetes mellitus") then None
    else if Contains(consequents, "Female") then
      Some("Berikan dukungan tambahan untuk wanita dengan diabetes tipe 2.")
    else if Contains(consequents, "With Complications") then
      Some("Pantau secara ketat pasien dengan diabetes tipe 2 untuk mengurangi risiko komplikasi.")
    else None
  }

  /** The tests after the blocks: the `Komplikasi_Yes` pairs, then "No Complications", then the default. */
  function ClosingAdvice(antecedents: string, consequents: string): string {
    if Contains(antecedents, "E10 Type 1 diabetes mellitus") && Contains(consequents, "Komplikasi_Yes") then
      "Pantau pasien dengan diabetes tipe 1 secara ketat untuk mencegah komplikasi."
    else if Contains(antecedents, "E11 Type 2 diabetes mellitus") && Contains(consequents, "Komplikasi_Yes") then
      "Lakukan pemeriksaan rutin pada pasien dengan diabetes tipe 2 untuk mengurangi risiko komplikasi."
    else if Contains(antecedents, "Age_>65") && Contains(consequents, "Komplikasi_Yes") then
      "Prioritaskan penanganan komplikasi untuk pasien di atas 65 tahun."
    else if Contains(antecedents, "Male") && Contains(consequents, "Komplikasi_Yes") then
      "Perhatikan faktor risiko komplikasi pada pasien pria."
    else if Contains(consequents, "No Complications") then
      "Berikan perhatian lebih pada pasien yang menunjukkan gejala komplikasi."
    else
      DefaultMessage
  }

  /**
    The recommendation for a rule, from its antecedent and consequent names:
    the cascade as written, which is the first-match answer of the priority
    table `Cascade` on the joined names.
   */
  function GenerateRecommendation(antecedents: seq<string>, consequents: seq<string>): (message: string)
    ensures message == FirstMatch(Cascade, Join(antecedents, ", "), Join(consequents, ", "))
  {
    var a, c := Join(antecedents, ", "), Join(consequents, ", ");
    CascadeIsFirstMatch(a, c);
    RecommendFor(a, c)
  }

  /** One row of the priority table: an optional antecedent test, a consequent test, the message. */
  datatype Row = Row(antecedent: Option<string>, consequent: string, message: string)

  /** Both tests of the row hold (a row without an antecedent test tests the consequents only). */
  predicate Fires(row: Row, antecedents: string, consequents: string) {
    (row.antecedent.None? || Contains(antecedents, row.antecedent.value))
    && Contains(consequents, row.consequent)
  }

  /** The message of the first row that fires, or the default message when none does. */
  function FirstMatch(rows: seq<Row>, antecedents: string, consequents: string): (message: string)
    ensures message == DefaultMessage
         || exists i :: 0 <= i < |rows| && Fires(rows[i], antecedents, consequents) && message == rows[i].message
  {
    if rows == [] then DefaultMessage
    else if Fires(rows[0], antecedents, consequents) then rows[0].message
    else FirstMatch(rows[1..], antecedents, consequents)
  }

  /** The block for "Male" among the antecedents. */
  const MaleRows: seq<Row> := [
    Row(Some("Male"), "Age_55-64",
        "Perhatikan pasien pria dengan rentang usia 55-64 tahun untuk evaluasi risiko kesehatan."),
    Row(Some("Male"), "Age_>65",
        "Pertimbangkan tindakan pencegahan tambahan untuk pria berusia di atas 65 tahun."),
    Row(Some("Male"), "No Complications",
        "Lakukan pemantauan berkala pada pria untuk memastikan tidak mengalami komplikasi."),
    Row(Some("Male"), "With Complications",
        "Monitor secara intensif pria yang menunjukkan gejala komplikasi.")
  ]

  /** The block for "Female" among the antecedents. */
  const FemaleRows: seq<Row> := [
    Row(Some("Female"), "Age_35-54",
        "Berikan perhatian khusus pada wanita berusia 35-54 tahun untuk deteksi dini."),
    Row(Some("Female"), "Age_>65",
        "Prioritaskan pemantauan wanita berusia di atas 65 tahun untuk risiko kesehatan."),
    Row(Some("Female"), "No Complications",
        "Pertimbangkan pemantauan tambahan pada wanita untuk mencegah komplikasi."),
    Row(Some("Female"), "With Complications",
        "Tingkatkan pengawasan wanita yang mengalami komplikasi.")
  ]

  /** The block for "Age_35-54" among the antecedents. */
  const Age35To54Rows: seq<Row> := [
    Row(Some("Age_35-54"), "Female",
        "Fokuskan strategi penanganan pada wanita berusia 35-54 tahun."),
    Row(Some("Age_35-54"), "Male",
        "Fokuskan strategi penanganan pada pria berusia 35-54 tahun."),
    Row(Some("Age_35-54"), "E10 Type 1 diabetes mellitus",
        "Tingkatkan pengawasan terhadap pasien berusia 35-54 tahun yang mengalami diabetes tipe 1."),
    Row(Some("Age_35-54"), "E11 Type 2 diabetes mellitus",
        "Tingkatkan pengawasan terhadap pasien berusia 35-54 tahun yang mengalami diabetes tipe 2.")
  ]

  /** The block for "Age_55-64" among the antecedents. */
  const Age55To64Rows: seq<Row> := [
    Row(Some("Age_55-64"), "Female",
        "Perhatikan wanita berusia 55-64 tahun dalam rencana penanganan."),
    Row(Some("Age_55-64"), "Male",
        "Pertimbangkan faktor risiko tambahan untuk pria berusia 55-64 tahun."),
    Row(Some("Age_55-64"), "E10 Type 1 diabetes mellitus",
        "Tingkatkan pengawasan terhadap pasien berusia 55-64 tahun yang mengalami diabetes tipe 1."),
    Row(Some("Age_55-64"), "E11 Type 2 diabetes mellitus",
        "Tingkatkan pengawasan terhadap pasien berusia 55-64 tahun yang mengalami diabetes tipe 2.")
  ]

  /** The block for "Age_>65" among the antecedents. */
  const Over65Rows: seq<Row> := [
    Row(Some("Age_>65"), "Female",
        "Perhatikan wanita berusia di atas 65 tahun untuk strategi pencegahan."),
    Row(Some("Age_>65"), "Male",
        "Fokuskan penanganan pada pria berusia di atas 65 tahun."),
    Row(Some("Age_>65"), "E10 Type 1 diabetes mellitus",
        "Tingkatkan pengawasan terhadap pasien berusia di atas 65 tahun yang mengalami diabetes tipe 1."),
    Row(Some("Age_>65"), "E11 Type 2 diabetes mellitus",
        "Tingkatkan pengawasan terhadap pasien berusia di atas 65 tahun yang mengalami diabetes tipe 2.")
  ]

  /** The block for "E10 Type 1 diabetes mellitus" among the antecedents. */
  const Type1Rows: seq<Row> := [
    Row(Some("E10 Type 1 diabetes mellitus"), "Male",
        "Pasien pria dengan diabetes tipe 1 memerlukan perhatian lebih pada pengelolaan diabetes."),
    Row(Some("E10 Type 1 diabetes mellitus"), "With Complications",
        "Monitor pasien dengan diabetes tipe 1 untuk kemungkinan komplikasi lebih lanjut.")
  ]

  /** The block for "E11 Type 2 diabetes mellitus" among the antecedents. */
  const Type2Rows: seq<Row> := [
    Row(Some("E11 Type 2 diabetes mellitus"), "Female",
        "Berikan dukungan tambahan untuk wanita dengan diabetes tipe 2."),
    Row(Some("E11 Type 2 diabetes mellitus"), "With Complications",
        "Pantau secara ketat pasien dengan diabetes tipe 2 untuk mengurangi risiko komplikasi.")
  ]

  /** The tests for `Komplikasi_Yes` near the end of the cascade. */
  const ComplicationRows: seq<Row> := [
    Row(Some("E10 Type 1 diabetes mellitus"), "Komplikasi_Yes",
        "Pantau pasien dengan diabetes tipe 1 secara ketat untuk mencegah komplikasi."),
    Row(Some("E11 Type 2 diabetes mellitus"), "Komplikasi_Yes",
        "Lakukan pemeriksaan rutin pada pasien dengan diabetes tipe 2 untuk mengurangi risiko komplikasi."),
    Row(Some("Age_>65"), "Komplikasi_Yes",
        "Prioritaskan penanganan komplikasi untuk pasien di atas 65 tahun."),
    Row(Some("Male"), "Komplikasi_Yes",
        "Perhatikan faktor risiko komplikasi pada pasien pria.")
  ]

  /** The last test, on the consequents alone. */
  const ClosingRows: seq<Row> := [
    Row(None, "No Complications",
        "Berikan perhatian lebih pada pasien yang menunjukkan gejala komplikasi.")
  ]

  /** The blocks headed by an antecedent test, in the order the cascade tries them. */
  const LeadingRows: seq<Row> :=
    MaleRows + FemaleRows + Age35To54Rows + Age55To64Rows + Over65Rows + Type1Rows + Type2Rows

  /** The whole cascade as one priority table, highest priority first. */
  const Cascade: seq<Row> := LeadingRows + ComplicationRows + ClosingRows

  /** No row of `rows` fires. */
  predicate Silent(rows: seq<Row>, antecedents: string, consequents: string) {
    forall row :: row in rows ==> !Fires(row, antecedents, consequents)
  }

  /** One step down the table from position `k`. */
  lemma FirstMatchStep(rows: seq<Row>, k: nat, antecedents: string, consequents: string)
    requires k < |rows|
    ensures FirstMatch(rows[k..], antecedents, consequents)
         == if Fires(rows[k], antecedents, consequents) then rows[k].message
            else FirstMatch(rows[k + 1..], antecedents, consequents)
  {
    assert rows[k..][1..] == rows[k + 1..];
  }

  /**
    The steps down a short table, spelled out one row at a time, so that a
    caller sees the whole table unfolded at once. Five rows cover the longest
    table walked this way: the four complication rows and the closing row.
   */
  lemma StepThrough(rows: seq<Row>, antecedents: string, consequents: string)
    requires |rows| <= 5
    ensures FirstMatch(rows[|rows|..], antecedents, consequents) == DefaultMessage
    ensures |rows| > 0 ==>
      FirstMatch(rows, antecedents, consequents)
        == (if Fires(rows[0], antecedents, consequents) then rows[0].message
            else FirstMatch(rows[1..], antecedents, consequents))
    ensures |rows| > 1 ==>
      FirstMatch(rows[1..], antecedents, consequents)
        == (if Fires(rows[1], antecedents, consequents) then rows[1].message
            else FirstMatch(rows[2..], antecedents, consequents))
    ensures |rows| > 2 ==>
      FirstMatch(rows[2..], antecedents, consequents)
        == (if Fires(rows[2], antecedents, consequents) then rows[2].message
            else FirstMatch(rows[3..], antecedents, consequents))
    ensures |rows| > 3 ==>
      FirstMatch(rows[3..], antecedents, consequents)
        == (if Fires(rows[3], antecedents, consequents) then rows[3].message
            else FirstMatch(rows[4..], antecedents, consequents))
    ensures |rows| > 4 ==>
      FirstMatch(rows[4..], antecedents, consequents)
        == (if Fires(rows[4], antecedents, consequents) then rows[4].message
            else FirstMatch(rows[5..], antecedents, consequents))
  {
    if |rows| > 0 { FirstMatchStep(rows, 0, antecedents, consequents); }
    if |rows| > 1 { FirstMatchStep(rows, 1, antecedents, consequents); }
    if |rows| > 2 { FirstMatchStep(rows, 2, antecedents, consequents); }
    if |rows| > 3 { FirstMatchStep(rows, 3, antecedents, consequents); }
    if |rows| > 4 { FirstMatchStep(rows, 4, antecedents, consequents); }
  }

  /**
    A block of rows and the block function it tabulates agree: the rows are
    silent exactly when the block has no answer, and otherwise the rows give
    the block's answer.
   */
  predicate BlockAgrees(rows: seq<Row>, advice: Option<string>, antecedents: string, consequents: string) {
    (Silent(rows, antecedents, consequents) <==> advice.None?)
    && (advice.Some? ==> FirstMatch(rows, antecedents, consequents) == advice.value)
  }

  /** The rows of the Male block tabulate its block function. */
  lemma MaleRowsAgree(antecedents: string, consequents: string)
    ensures BlockAgrees(MaleRows, MaleAdvice(antecedents, consequents), antecedents, consequents)
  {
    StepThrough(MaleRows, antecedents, consequents);
  }

  /** The rows of the Female block tabulate its block function. */
  lemma FemaleRowsAgree(antecedents: string, consequents: string)
    ensures BlockAgrees(FemaleRows, FemaleAdvice(antecedents, consequents), antecedents, consequents)
  {
    StepThrough(FemaleRows, antecedents, consequents);
  }

  /** The rows of the Age35To54 block tabulate its block function. */
  lemma Age35To54RowsAgree(antecedents: string, consequents: string)
    ensures BlockAgrees(Age35To54Rows, Age35To54Advice(antecedents, consequents), antecedents, consequents)
  {
    StepThrough(Age35To54Rows, antecedents, consequents);
  }

  /** The rows of the Age55To64 block tabulate its block function. */
  lemma Age55To64RowsAgree(antecedents: string, consequents: string)
    ensures BlockAgrees(Age55To64Rows, Age55To64Advice(antecedents, consequents), antecedents, consequents)
  {
    StepThrough(Age55To64Rows, antecedents, consequents);
  }

  /** The rows of the Over65 block tabulate its block function. */
  lemma Over65RowsAgree(antecedents: string, consequents: string)
    ensures BlockAgrees(Over65Rows, Over65Advice(antecedents, consequents), antecedents, consequents)
  {
    StepThrough(Over65Rows, antecedents, consequents);
  }

  /** The rows of the Type1 block tabulate its block function. */
  lemma Type1RowsAgree(antecedents: string, consequents: string)
    ensures BlockAgrees(Type1Rows, Type1Advice(antecedents, consequents), antecedents, consequents)
  {
    StepThrough(Type1Rows, antecedents, consequents);
  }

  /** The rows of the Type2 block tabulate its block function. */
  lemma Type2RowsAgree(antecedents: string, consequents: string)
    ensures BlockAgrees(Type2Rows, Type2Advice(antecedents, consequents), antecedents, consequents)
  {
    StepThrough(Type2Rows, antecedents, consequents);
  }

  /** A block that agrees with its function answers for the table it heads, or passes to the rest. */
  lemma BlockThen(rows: seq<Row>, advice: Option<string>, rest: seq<Row>, antecedents: string, consequents: string)
    requires BlockAgrees(rows, advice, antecedents, consequents)
    ensures FirstMatch(rows + rest, antecedents, consequents)
         == if advice.Some? then advice.value else FirstMatch(rest, antecedents, consequents)
  {
    FirstMatchAppend(rows, rest, antecedents, consequents);
  }

  /** The closing rows tabulate the tests after the blocks. */
  lemma ClosingRowsAgree(antecedents: string, consequents: string)
    ensures FirstMatch(ComplicationRows + ClosingRows, antecedents, consequents) == ClosingAdvice(antecedents, consequents)
  {
    StepThrough(ComplicationRows + ClosingRows, antecedents, consequents);
  }

  /** The cascade as written returns exactly what the priority table returns. */
  lemma CascadeIsFirstMatch(antecedents: string, consequents: string)
    ensures RecommendFor(antecedents, consequents) == FirstMatch(Cascade, antecedents, consequents)
  {
    var a, c := antecedents, consequents;
    var rest := ComplicationRows + ClosingRows;
    var from6 := Type2Rows + rest;
    var from5 := Type1Rows + from6;
    var from4 := Over65Rows + from5;
    var from3 := Age55To64Rows + from4;
    var from2 := Age35To54Rows + from3;
    var from1 := FemaleRows + from2;
    assert Cascade == MaleRows + from1;
    MaleRowsAgree(a, c);
    BlockThen(MaleRows, MaleAdvice(a, c), from1, a, c);
    FemaleRowsAgree(a, c);
    BlockThen(FemaleRows, FemaleAdvice(a, c), from2, a, c);
    Age35To54RowsAgree(a, c);
    BlockThen(Age35To54Rows, Age35To54Advice(a, c), from3, a, c);
    Age55To64RowsAgree(a, c);
    BlockThen(Age55To64Rows, Age55To64Advice(a, c), from4, a, c);
    Over65RowsAgree(a, c);
    BlockThen(Over65Rows, Over65Advice(a, c), from5, a, c);
    Type1RowsAgree(a, c);
    BlockThen(Type1Rows, Type1Advice(a, c), from6, a, c);
    Type2RowsAgree(a, c);
    BlockThen(Type2Rows, Type2Advice(a, c), rest, a, c);
    ClosingRowsAgree(a, c);
  }

  /** When no block has an answer, the leading rows are passed over. */
  lemma LeadingRowsPass(rest: seq<Row>, antecedents: string, consequents: string)
    requires NoBlockAnswers(antecedents, consequents)
    ensures FirstMatch(LeadingRows + rest, antecedents, consequents) == FirstMatch(rest, antecedents, consequents)
  {
    var a, c := antecedents, consequents;
    var from6 := Type2Rows + rest;
    var from5 := Type1Rows + from6;
    var from4 := Over65Rows + from5;
    var from3 := Age55To64Rows + from4;
    var from2 := Age35To54Rows + from3;
    var from1 := FemaleRows + from2;
    assert LeadingRows + rest == MaleRows + from1;
    MaleRowsAgree(a, c);
    BlockThen(MaleRows, None, from1, a, c);
    FemaleRowsAgree(a, c);
    BlockThen(FemaleRows, None, from2, a, c);
    Age35To54RowsAgree(a, c);
    BlockThen(Age35To54Rows, None, from3, a, c);
    Age55To64RowsAgree(a, c);
    BlockThen(Age55To64Rows, None, from4, a, c);
    Over65RowsAgree(a, c);
    BlockThen(Over65Rows, None, from5, a, c);
    Type1RowsAgree(a, c);
    BlockThen(Type1Rows, None, from6, a, c);
    Type2RowsAgree(a, c);
    BlockThen(Type2Rows, None, rest, a, c);
  }

  /** None of the seven blocks headed by an antecedent test has an answer. */
  predicate NoBlockAnswers(antecedents: string, consequents: string) {
    MaleAdvice(antecedents, consequents).None? && FemaleAdvice(antecedents, consequents).None?
    && Age35To54Advice(antecedents, consequents).None? && Age55To64Advice(antecedents, consequents).None?
    && Over65Advice(antecedents, consequents).None?
    && Type1Advice(antecedents, consequents).None? && Type2Advice(antecedents, consequents).None?
  }

  /** A table built from two parts is silent exactly when both parts are. */
  lemma SilentAppend(xs: seq<Row>, ys: seq<Row>, antecedents: string, consequents: string)
    ensures Silent(xs + ys, antecedents, consequents)
        <==> Silent(xs, antecedents, consequents) && Silent(ys, antecedents, consequents)
  {
    assert forall row :: row in xs + ys <==> row in xs || row in ys;
  }

  /** No leading row fires exactly when none of the seven blocks has an answer. */
  lemma LeadingRowsSilent(antecedents: string, consequents: string)
    ensures Silent(LeadingRows, antecedents, consequents) <==> NoBlockAnswers(antecedents, consequents)
  {
    var a, c := antecedents, consequents;
    MaleRowsAgree(a, c);
    FemaleRowsAgree(a, c);
    Age35To54RowsAgree(a, c);
    Age55To64RowsAgree(a, c);
    Over65RowsAgree(a, c);
    Type1RowsAgree(a, c);
    Type2RowsAgree(a, c);
    var to2 := MaleRows + FemaleRows;
    var to3 := to2 + Age35To54Rows;
    var to4 := to3 + Age55To64Rows;
    var to5 := to4 + Over65Rows;
    var to6 := to5 + Type1Rows;
    SilentAppend(MaleRows, FemaleRows, a, c);
    SilentAppend(to2, Age35To54Rows, a, c);
    SilentAppend(to3, Age55To64Rows, a, c);
    SilentAppend(to4, Over65Rows, a, c);
    SilentAppend(to5, Type1Rows, a, c);
    SilentAppend(to6, Type2Rows, a, c);
  }

  /** The first row that fires decides the message, whatever later rows say. */
  lemma {:induction false} FirstFiringRowWins(rows: seq<Row>, antecedents: string, consequents: string, i: nat)
    requires i < |rows| && Fires(rows[i], antecedents, consequents)
    requires forall j :: 0 <= j < i ==> !Fires(rows[j], antecedents, consequents)
    ensures FirstMatch(rows, antecedents, consequents) == rows[i].message
  {
    if i > 0 {
      FirstFiringRowWins(rows[1..], antecedents, consequents, i - 1);
    }
  }

  /** When no row fires, the default message is returned. */
  lemma {:induction false} SilentGivesDefault(rows: seq<Row>, antecedents: string, consequents: string)
    requires Silent(rows, antecedents, consequents)
    ensures FirstMatch(rows, antecedents, consequents) == DefaultMessage
  {
    if rows != [] {
      SilentGivesDefault(rows[1..], antecedents, consequents);
    }
  }

  /**
    A table built from two parts: a silent first part is skipped; otherwise
    the first part alone decides.
   */
  lemma {:induction false} FirstMatchAppend(xs: seq<Row>, ys: seq<Row>, antecedents: string, consequents: string)
    ensures FirstMatch(xs + ys, antecedents, consequents)
         == if Silent(xs, antecedents, consequents) then FirstMatch(ys, antecedents, consequents)
            else FirstMatch(xs, antecedents, consequents)
  {
    if xs == [] {
      assert xs + ys == ys;
    } else {
      var rest := xs[1..];
      assert xs == [xs[0]] + rest;
      assert (xs + ys)[1..] == rest + ys;
      assert Silent(xs, antecedents, consequents)
        <==> !Fires(xs[0], antecedents, consequents) && Silent(rest, antecedents, consequents);
      FirstMatchAppend(rest, ys, antecedents, consequents);
    }
  }

  /**
    Priority: the recommendation is the message of the first row of the table
    whose tests hold on the joined antecedents and consequents.
   */
  lemma RecommendationPriority(antecedents: seq<string>, consequents: seq<string>, i: nat)
    requires i < |Cascade| && Fires(Cascade[i], Join(antecedents, ", "), Join(consequents, ", "))
    requires forall j :: 0 <= j < i ==> !Fires(Cascade[j], Join(antecedents, ", "), Join(consequents, ", "))
    ensures GenerateRecommendation(antecedents, consequents) == Cascade[i].message
  {
    CascadeIsFirstMatch(Join(antecedents, ", "), Join(consequents, ", "));
    FirstFiringRowWins(Cascade, Join(antecedents, ", "), Join(consequents, ", "), i);
  }

  /** When no test of the cascade holds, the default message is returned. */
  lemma RecommendationDefault(antecedents: seq<string>, consequents: seq<string>)
    requires Silent(Cascade, Join(antecedents, ", "), Join(consequents, ", "))
    ensures GenerateRecommendation(antecedents, consequents) == DefaultMessage
  {
    CascadeIsFirstMatch(Join(antecedents, ", "), Join(consequents, ", "));
    SilentGivesDefault(Cascade, Join(antecedents, ", "), Join(consequents, ", "));
  }

  /** A rule with Male among its antecedents and Age_55-64 among its consequents gets the first message. */
  lemma MaleWithAge55To64(antecedents: seq<string>, consequents: seq<string>)
    requires "Male" in antecedents && "Age_55-64" in consequents
    ensures GenerateRecommendation(antecedents, consequents)
         == "Perhatikan pasien pria dengan rentang usia 55-64 tahun untuk evaluasi risiko kesehatan."
  {
    JoinContainsItems(antecedents, ", ");
    JoinContainsItems(consequents, ", ");
  }

  /** Every name is one the rename table produces. */
  predicate Renamed(names: seq<string>) {
    forall x :: x in names ==> x in Features.RenameTable.Values
  }

  /** A name the rename table produces is one the backward table lists. */
  lemma RenamedNameListed(x: string)
    requires x in Features.RenameTable.Values
    ensures x in Features.OriginalNames
  {
    var key :| key in Features.RenameTable && Features.RenameTable[key] == x;
    Features.OriginalNamesInvertRename(key);
  }

  /** No position of `s` holds a capital K. */
  predicate LacksK(s: string) {
    forall i :: 0 <= i < |s| ==> s[i] != 'K'
  }

  /** Each renamed name lacks a capital K. */
  lemma RenamedNamesLackK()
    ensures LacksK("Male")
    ensures LacksK("Female")
    ensures LacksK("Age_0-18")
    ensures LacksK("Age_19-34")
    ensures LacksK("Age_35-54")
    ensures LacksK("Age_55-64")
    ensures LacksK("Age_>65")
    ensures LacksK("E10 Type 1 diabetes mellitus")
    ensures LacksK("E11 Type 2 diabetes mellitus")
    ensures LacksK("O24 Diabetes mellitus in pregnancy")
    ensures LacksK("No Complications")
    ensures LacksK("With Complications")
  {
  }

  /** No name the backward table lists, that is no renamed name, contains a capital K. */
  lemma ListedNameLacksK(x: string)
    requires x in Features.OriginalNames
    ensures 'K' !in x
  {
    RenamedNamesLackK();
    assert LacksK(x);
  }

  /**
    Over renamed consequents the `Komplikasi_Yes` test never holds: that name
    was renamed to "With Complications" before the rules were mined.
   */
  lemma KomplikasiYesNeverFound(consequents: seq<string>)
    requires Renamed(consequents)
    ensures !Contains(Join(consequents, ", "), "Komplikasi_Yes")
  {
    forall x | x in consequents
      ensures 'K' !in x
    {
      RenamedNameListed(x);
      ListedNameLacksK(x);
    }
    JoinAvoidsChar(consequents, ", ", 'K');
    MissingCharNotContained(Join(consequents, ", "), "Komplikasi_Yes", 0);
  }

  /**
    Over renamed consequents the four `Komplikasi_Yes` rows are dead: the
    recommendation is what the table without them returns.
   */
  lemma ComplicationRowsDead(antecedents: seq<string>, consequents: seq<string>)
    requires Renamed(consequents)
    ensures Silent(ComplicationRows, Join(antecedents, ", "), Join(consequents, ", "))
    ensures GenerateRecommendation(antecedents, consequents)
         == FirstMatch(LeadingRows + ClosingRows, Join(antecedents, ", "), Join(consequents, ", "))
  {
    var a, c := Join(antecedents, ", "), Join(consequents, ", ");
    KomplikasiYesNeverFound(consequents);
    CascadeIsFirstMatch(a, c);
    assert Cascade == LeadingRows + (ComplicationRows + ClosingRows);
    FirstMatchAppend(LeadingRows, ComplicationRows + ClosingRows, a, c);
    FirstMatchAppend(ComplicationRows, ClosingRows, a, c);
    FirstMatchAppend(LeadingRows, ClosingRows, a, c);
  }

  /**
    Over renamed consequents, once no row before the complication rows fires,
    the answer hangs on "No Complications" alone: its message when the
    consequents contain it, the default message otherwise.
   */
  lemma NoComplicationsFallback(antecedents: seq<string>, consequents: seq<string>)
    requires Renamed(consequents)
    requires Silent(LeadingRows, Join(antecedents, ", "), Join(consequents, ", "))
    ensures GenerateRecommendation(antecedents, consequents)
         == if Contains(Join(consequents, ", "), "No Complications")
            then "Berikan perhatian lebih pada pasien yang menunjukkan gejala komplikasi."
            else DefaultMessage
  {
    var a, c := Join(antecedents, ", "), Join(consequents, ", ");
    ComplicationRowsDead(antecedents, consequents);
    FirstMatchAppend(LeadingRows, ClosingRows, a, c);
    FirstMatchStep(ClosingRows, 0, a, c);
    assert ClosingRows[0..] == ClosingRows && ClosingRows[1..] == [];
  }

  /** Which antecedent tests fail on the text "Age_>65". */
  lemma Over65AntecedentTests()
    ensures !Contains("Age_>65", "Male") && !Contains("Age_>65", "Female")
    ensures !Contains("Age_>65", "Age_35-54") && !Contains("Age_>65", "Age_55-64")
    ensures !Contains("Age_>65", "E10 Type 1 diabetes mellitus") && !Contains("Age_>65", "E11 Type 2 diabetes mellitus")
    ensures Contains("Age_>65", "Age_>65")
  {
    var a := "Age_>65";
    assert forall i :: 0 <= i < |a| ==> a[i] != 'M' && a[i] != 'F';
    MissingCharNotContained(a, "Male", 0);
    MissingCharNotContained(a, "Female", 0);
    LongerNotContained(a, "Age_35-54");
    LongerNotContained(a, "Age_55-64");
    LongerNotContained(a, "E10 Type 1 diabetes mellitus");
    LongerNotContained(a, "E11 Type 2 diabetes mellitus");
    ContainsPrefix(a, "");
    assert a + "" == a;
  }

  /** Every consequent test of the cascade but "With Complications" fails on the text "With Complications". */
  lemma WithComplicationsConsequentTests()
    ensures !Contains("With Complications", "Female") && !Contains("With Complications", "Male")
    ensures !Contains("With Complications", "E10 Type 1 diabetes mellitus")
    ensures !Contains("With Complications", "E11 Type 2 diabetes mellitus")
    ensures !Contains("With Complications", "Komplikasi_Yes") && !Contains("With Complications", "No Complications")
  {
    var c := "With Complications";
    assert forall i :: 0 <= i < |c| ==> c[i] != 'F' && c[i] != 'M' && c[i] != 'K' && c[i] != 'N';
    MissingCharNotContained(c, "Female", 0);
    MissingCharNotContained(c, "Male", 0);
    LongerNotContained(c, "E10 Type 1 diabetes mellitus");
    LongerNotContained(c, "E11 Type 2 diabetes mellitus");
    MissingCharNotContained(c, "Komplikasi_Yes", 0);
    MissingCharNotContained(c, "No Complications", 0);
  }

  /**
    As written, a rule "Age_>65 => With Complications" gets the default
    message: no block answers it, and the test meant for it looks for
    `Komplikasi_Yes`.
   */
  lemma ComplicatedOver65AsWritten()
    ensures NoBlockAnswers("Age_>65", "With Complications")
    ensures GenerateRecommendation(["Age_>65"], ["With Complications"]) == DefaultMessage
  {
    assert Join(["Age_>65"], ", ") == "Age_>65" && Join(["With Complications"], ", ") == "With Complications";
    Over65AntecedentTests();
    WithComplicationsConsequentTests();
  }


  /** The complication rows with the test they evidently intend: the renamed name. */
  const CorrectedComplicationRows: seq<Row> := [
    Row(Some("E10 Type 1 diabetes mellitus"), "With Complications",
        "Pantau pasien dengan diabetes tipe 1 secara ketat untuk mencegah komplikasi."),
    Row(Some("E11 Type 2 diabetes mellitus"), "With Complications",
        "Lakukan pemeriksaan rutin pada pasien dengan diabetes tipe 2 untuk mengurangi risiko komplikasi."),
    Row(Some("Age_>65"), "With Complications",
        "Prioritaskan penanganan komplikasi untuk pasien di atas 65 tahun."),
    Row(Some("Male"), "With Complications",
        "Perhatikan faktor risiko komplikasi pada pasien pria.")
  ]
  /** The priority table with the complication rows corrected. */
  const CorrectedCascade: seq<Row> := LeadingRows + CorrectedComplicationRows + ClosingRows

  /**
    The recommendation the corrected table gives. It differs from the
    application's only where the consequents contain one of the two
    complication test strings.
   */
  function CorrectedRecommendation(antecedents: seq<string>, consequents: seq<string>): (message: string)
    ensures !Contains(Join(consequents, ", "), "Komplikasi_Yes") && !Contains(Join(consequents, ", "), "With Complications")
            ==> message == GenerateRecommendation(antecedents, consequents)
  {
    var a, c := Join(antecedents, ", "), Join(consequents, ", ");
    CorrectionNeedsComplicationTest(a, c);
    FirstMatch(CorrectedCascade, a, c)
  }

  /** Rows that all test the consequents for one string are silent when the consequents lack it. */
  lemma SilentOnConsequent(rows: seq<Row>, antecedents: string, consequents: string, test: string)
    requires forall i :: 0 <= i < |rows| ==> rows[i].consequent == test
    requires !Contains(consequents, test)
    ensures Silent(rows, antecedents, consequents)
  {
  }

  /** Without either complication test string in the consequents, both tables skip their complication rows alike. */
  lemma CorrectionNeedsComplicationTest(antecedents: string, consequents: string)
    ensures !Contains(consequents, "Komplikasi_Yes") && !Contains(consequents, "With Complications")
            ==> FirstMatch(CorrectedCascade, antecedents, consequents) == FirstMatch(Cascade, antecedents, consequents)
  {
    var a, c := antecedents, consequents;
    if !Contains(c, "Komplikasi_Yes") && !Contains(c, "With Complications") {
      SilentOnConsequent(ComplicationRows, a, c, "Komplikasi_Yes");
      SilentOnConsequent(CorrectedComplicationRows, a, c, "With Complications");
      assert Cascade == LeadingRows + (ComplicationRows + ClosingRows);
      assert CorrectedCascade == LeadingRows + (CorrectedComplicationRows + ClosingRows);
      FirstMatchAppend(LeadingRows, ComplicationRows + ClosingRows, a, c);
      FirstMatchAppend(LeadingRows, CorrectedComplicationRows + ClosingRows, a, c);
      FirstMatchAppend(ComplicationRows, ClosingRows, a, c);
      FirstMatchAppend(CorrectedComplicationRows, ClosingRows, a, c);
    }
  }

  /**
    With the correction, a rule with "Age_>65" among its antecedents and "With
    Complications" among its consequents, on which no earlier row fires,
    reaches the message written for it.
   */
  lemma ComplicatedOver65Corrected(antecedents: seq<string>, consequents: seq<string>)
    requires NoBlockAnswers(Join(antecedents, ", "), Join(consequents, ", "))
    requires !Contains(Join(antecedents, ", "), "E10 Type 1 diabetes mellitus")
    requires !Contains(Join(antecedents, ", "), "E11 Type 2 diabetes mellitus")
    requires "Age_>65" in antecedents && "With Complications" in consequents
    ensures CorrectedRecommendation(antecedents, consequents)
         == "Prioritaskan penanganan komplikasi untuk pasien di atas 65 tahun."
  {
    var a, c := Join(antecedents, ", "), Join(consequents, ", ");
    JoinContainsItems(antecedents, ", ");
    JoinContainsItems(consequents, ", ");
    var rest := CorrectedComplicationRows + ClosingRows;
    LeadingRowsPass(rest, a, c);
    assert CorrectedCascade == LeadingRows + rest;
    StepThrough(rest, a, c);
  }

  /**
    Over renamed consequents the correction changes one answer only: a rule
    on which no block answers, with "Age_>65" among its antecedents and
    "With Complications" among its consequents, now gets the message written
    for it. The other three corrected rows are shadowed by the Male, type 1
    and type 2 blocks, which already answer "With Complications".
   */
  lemma CorrectionChangesOnlyOver65(antecedents: seq<string>, consequents: seq<string>)
    requires Renamed(consequents)
    ensures CorrectedRecommendation(antecedents, consequents) == GenerateRecommendation(antecedents, consequents)
         || (Contains(Join(antecedents, ", "), "Age_>65") && Contains(Join(consequents, ", "), "With Complications")
             && CorrectedRecommendation(antecedents, consequents)
                == "Prioritaskan penanganan komplikasi untuk pasien di atas 65 tahun.")
  {
    var a, c := Join(antecedents, ", "), Join(consequents, ", ");
    if NoBlockAnswers(a, c) {
      KomplikasiYesNeverFound(consequents);
      CorrectedAfterBlocks(a, c);
    } else {
      CorrectedWhenBlockAnswers(a, c);
    }
  }

  /** When no block answers, the corrected table ends in the Age_>65 test, then the closing tests. */
  lemma CorrectedAfterBlocks(antecedents: string, consequents: string)
    requires NoBlockAnswers(antecedents, consequents) && !Contains(consequents, "Komplikasi_Yes")
    ensures FirstMatch(CorrectedCascade, antecedents, consequents)
         == if Contains(antecedents, "Age_>65") && Contains(consequents, "With Complications")
            then "Prioritaskan penanganan komplikasi untuk pasien di atas 65 tahun."
            else ClosingAdvice(antecedents, consequents)
  {
    var a, c := antecedents, consequents;
    var rest := CorrectedComplicationRows + ClosingRows;
    assert CorrectedCascade == LeadingRows + rest;
    LeadingRowsPass(rest, a, c);
    NoBlockAnswersShadow(a, c);
    StepThrough(rest, a, c);
    assert !Fires(rest[0], a, c) && !Fires(rest[1], a, c) && !Fires(rest[3], a, c);
  }

  /** When no block answers, no rule pairs type 1, type 2 or Male with "With Complications". */
  lemma NoBlockAnswersShadow(antecedents: string, consequents: string)
    requires NoBlockAnswers(antecedents, consequents)
    ensures !(Contains(antecedents, "E10 Type 1 diabetes mellitus") && Contains(consequents, "With Complications"))
    ensures !(Contains(antecedents, "E11 Type 2 diabetes mellitus") && Contains(consequents, "With Complications"))
    ensures !(Contains(antecedents, "Male") && Contains(consequents, "With Complications"))
  {
  }

  /** When some block answers, the corrected table answers as the cascade does. */
  lemma CorrectedWhenBlockAnswers(antecedents: string, consequents: string)
    requires !NoBlockAnswers(antecedents, consequents)
    ensures FirstMatch(CorrectedCascade, antecedents, consequents) == RecommendFor(antecedents, consequents)
  {
    var a, c := antecedents, consequents;
    var rest := CorrectedComplicationRows + ClosingRows;
    assert CorrectedCascade == LeadingRows + rest;
    LeadingRowsSilent(a, c);
    CascadeIsFirstMatch(a, c);
    assert Cascade == LeadingRows + (ComplicationRows + ClosingRows);
    FirstMatchAppend(LeadingRows, ComplicationRows + ClosingRows, a, c);
    FirstMatchAppend(LeadingRows, rest, a, c);
  }

  /** The sentence the rule page shows: "Jika <antecedents> maka cenderung <consequents> (<confidence>)". */
  function RuleSentence(antecedents: seq<string>, consequents: seq<string>, confidence: string): (sentence: string)
    ensures |sentence| >= |"Jika "| + |confidence| + 3
    ensures sentence[..|"Jika "|] == "Jika "
    ensures sentence[|sentence| - |confidence| - 3..] == " (" + confidence + ")"
    ensures Contains(sentence, Join(antecedents, ", ")) && Contains(sentence, Join(consequents, ", "))
  {
    var a, c := Join(antecedents, ", "), Join(consequents, ", ");
    var closing := " (" + confidence + ")";
    var lead := "Jika " + a + " maka cenderung ";
    ContainsPrefix(a, " maka cenderung " + c + closing);
    ContainsAfter("Jika ", a + (" maka cenderung " + c + closing), a);
    assert "Jika " + (a + (" maka cenderung " + c + closing)) == lead + c + closing;
    ContainsPrefix(c, closing);
    ContainsAfter(lead, c + closing, c);
    assert lead + (c + closing) == lead + c + closing;
    assert (lead + c + closing)[..5] == lead[..5] == "Jika ";
    lead + c + closing
  }

}
