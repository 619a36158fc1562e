# Diabetes association-rule explorer: a verified model of its core

The application reads patient records for a diabetes clinic and turns them into
features, and an association-rule miner runs over those features. The
application then lets the user filter the mined rules and attaches a care
recommendation, in Indonesian, to each rule. This project models the parts of
`app.py` that decide things and proves properties about them:

- **Age bands** (`age_bins.dfy`, module `AgeBins`): `create_age_bins` puts an
  age into one of five bands. The bands are delimited by the inclusive cut
  points 18, 34, 54 and 64.
- **Feature names** (`features.dfy`, module `Features`): one-hot encoding names
  each dummy column `<column>_<value>`. The fixed rename table then shortens
  these names ("Gender_LAKI-LAKI" becomes "Male", and so on). A name the table
  does not list is kept.
- **Rule filtering** (`rules.dfy`, module `Rules`): `filter_rules` first keeps
  the rules whose antecedent set has the chosen size. Then, for each of the
  four categories (gender, age, diabetes type, complication) where the user
  chose something, it keeps the rules that mention one of the chosen values on
  either side. The itemset page keeps the frequent itemsets that hold one
  feature.
- **Recommendations** (`recommendation.dfy`, module `Recommendation`):
  `generate_recommendation` is a fixed-priority cascade. Every test in it is a
  substring test on the rule's antecedents or consequents after they are joined
  by `", "`, not a set-membership test. The model has the cascade as written.
  It also has the same decision as a priority table, where the first row whose
  tests hold wins, and a proof that the two agree. The module also models the
  sentence the rule page shows.
- **Support modules**:
  - `seqs.dfy` holds order-preserving selection, which is the shape of a pandas
    boolean mask.
  - `text.dfy` holds the substring test and `", ".join`.
  - `wrappers.dfy` holds `Option`.

A set of feature names (a `frozenset` in the application) is a list without
repeated names, taken in the order the set is iterated.

The age band of 65: the label `Umur_>65` and the messages written for it
("di atas 65 tahun", above 65, app.py:150 and 214) suggest that 65 lies
outside the last band, but the cascade at app.py:16-19 sends 65 there,
because the test before it is `age <= 64`. The model follows the code (see
`AgeBins.BandEdges`).

## Model

| member | source | states |
|---|---|---|
| AgeBins.CreateAgeBins | app.py:9-19 | every age receives one of the five band labels |
| AgeBins.CascadeMatchesCutPoints | app.py:9-19 | the comparison cascade returns the label whose position is the number of cut points 18, 34, 54, 64 lying strictly below the age |
| AgeBins.BandCharacterisation | app.py:9-19 | label i is returned if and only if the age is above the previous cut point (if any) and at most its own cut point (if any) |
| AgeBins.BandIndexMonotone | app.py:9-19 | an older patient never falls into a younger band |
| AgeBins.BandEdges | app.py:10-19 | 18/19, 34/35, 54/55 and 64/65 fall on either side of a cut, and 65 is in `Umur_>65` |
| Features.DummyName | app.py:26-29 | the `get_dummies` name `<column>_<value>`; `Features.SplitDummyName` proves it splits back into the column and the value |
| Features.Rename | app.py:32-46 | a listed name is replaced by one the backward table maps back to it, and the replacement no longer reads as a dummy name of any column; an unlisted name is kept |
| Features.FeatureName | app.py:26-46 | the dummy name passed through the rename table; `Features.ParseFeatureName` and `Features.FeatureNameInjective` prove it recovers its column and value and never collides |
| Features.Encode | app.py:26-46 | a record yields exactly one feature name per expanded column |
| Features.EncodeOnePerColumn | app.py:26-46 | the i-th feature of a record parses back to the i-th column and the record's value there, and the four features are pairwise distinct |
| Features.ParseFeatureName | app.py:29-46 | from a feature name after the rename, the column and the value it came from can be recovered |
| Features.FeatureNameInjective | app.py:29-46 | distinct (column, value) pairs never share a feature name |
| Features.RenameTableInjective | app.py:32-45 | the rename table sends distinct dummy names to distinct names |
| Features.OriginalNamesInvertRename | app.py:32-45 | reading the rename table backwards returns the dummy name |
| Features.RenamedAreNotDummies | app.py:32-46 | no renamed name starts with a column prefix, so renamed and unrenamed names cannot be confused |
| Rules.FilterRules | app.py:115-131 | the size mask followed by the four optional category masks returns exactly the rules that have the chosen size and mention, for every non-empty choice, one chosen value on either side |
| Rules.ApplyStagesIsSelect | app.py:118-129 | applying the category masks one after another equals one mask by "passes every non-empty choice" |
| Rules.FilterOrderIrrelevant | app.py:116-129 | the category masks may be applied in any order with the same result |
| Rules.FilterCharacterised | app.py:116-129 | a rule is returned if and only if it is an input rule meeting the acceptance condition |
| Rules.FilterIsSubsequence | app.py:115-131 | the filter only deletes rows: it keeps the input order and leaves rules unaltered, and every returned rule has the chosen antecedent size |
| Rules.FilterWithoutSelections | app.py:116-129 | with no category chosen, the result is exactly the rules of the chosen size |
| Rules.FilterIdempotent | app.py:115-131 | filtering the filtered rules again with the same choices changes nothing |
| Rules.SingleItemsets | app.py:77 | the mask `len(itemsets) == 1` over the frequent itemsets; `Rules.SingleItemsetsSpec` proves it keeps exactly the one-feature itemsets, in order and unaltered |
| Rules.ItemsetText | app.py:80 | an itemset shown as its names joined by `", "`; `Rules.SingleItemsetsSpec` proves a one-feature itemset is shown as its bare name |
| Rules.SingleItemsetsSpec | app.py:77-80 | the single-item page keeps exactly the itemsets with one feature, in input order and with support unchanged, each shown as its bare feature name |
| Text.Join | app.py:142-143 | Python's `sep.join`; `Text.JoinContainsItems` and `Text.JoinAvoidsChar` state what the joined text contains and lacks |
| Text.Contains | app.py:146-217 | Python's substring test `needle in hay`, as every test of the cascade uses it; `Text.ContainsPrefix`, `Text.ContainsAfter` and `Text.MissingCharNotContained` give when it holds and when it fails |
| Text.JoinContainsItems | app.py:142-143 | every name of a list is a substring of the list joined by `", "` |
| Text.JoinAvoidsChar | app.py:142-143 | a character found neither in the names nor in the separator is not in the joined text |
| Recommendation.GenerateRecommendation | app.py:141-220 | the recommendation for a rule is the first-match answer of the 29-row priority table on the names joined by `", "` |
| Recommendation.RecommendFor | app.py:146-220 | the cascade as written over the joined texts, block by block; `Recommendation.CascadeIsFirstMatch` proves it equals the first-match answer of the priority table |
| Recommendation.MaleAdvice | app.py:146-154 | the Male block: the message of its first consequent test that holds, or no answer; `Recommendation.MaleRowsAgree` proves the Male rows tabulate it |
| Recommendation.FemaleAdvice | app.py:156-164 | the Female block, tabulated by `Recommendation.FemaleRowsAgree` |
| Recommendation.Age35To54Advice | app.py:167-175 | the Age_35-54 block, tabulated by `Recommendation.Age35To54RowsAgree` |
| Recommendation.Age55To64Advice | app.py:177-185 | the Age_55-64 block, tabulated by `Recommendation.Age55To64RowsAgree` |
| Recommendation.Over65Advice | app.py:187-195 | the Age_>65 block, tabulated by `Recommendation.Over65RowsAgree` |
| Recommendation.Type1Advice | app.py:197-201 | the type 1 diabetes block, tabulated by `Recommendation.Type1RowsAgree` |
| Recommendation.Type2Advice | app.py:203-207 | the type 2 diabetes block, tabulated by `Recommendation.Type2RowsAgree` |
| Recommendation.ClosingAdvice | app.py:209-220 | the tests after the blocks: the `Komplikasi_Yes` pairs, then "No Complications", then the default; tabulated by `Recommendation.ClosingRowsAgree` |
| Recommendation.FirstMatch | app.py:141-220 | the priority table answers either the default message or the message of a row whose tests hold |
| Recommendation.MaleRowsAgree | app.py:146-154 | the Male block is silent exactly when its function has no answer, and otherwise the rows give that answer |
| Recommendation.FemaleRowsAgree | app.py:156-164 | the same for the Female block |
| Recommendation.Age35To54RowsAgree | app.py:167-175 | the same for the Age_35-54 block |
| Recommendation.Age55To64RowsAgree | app.py:177-185 | the same for the Age_55-64 block |
| Recommendation.Over65RowsAgree | app.py:187-195 | the same for the Age_>65 block |
| Recommendation.Type1RowsAgree | app.py:197-201 | the same for the type 1 diabetes block |
| Recommendation.Type2RowsAgree | app.py:203-207 | the same for the type 2 diabetes block |
| Recommendation.ClosingRowsAgree | app.py:209-220 | the closing rows give what the final if/elif/else chain gives |
| Recommendation.CascadeIsFirstMatch | app.py:141-220 | the cascade as written returns exactly the message of the first row of the priority table that fires, or the default |
| Recommendation.LeadingRowsSilent | app.py:146-207 | no row of the seven blocks fires if and only if none of the seven blocks has an answer |
| Recommendation.RecommendationPriority | app.py:141-220 | when row i is the first row that fires on the joined names, the recommendation is row i's message |
| Recommendation.RecommendationDefault | app.py:219-220 | when no row fires, the recommendation is the default message |
| Recommendation.MaleWithAge55To64 | app.py:146-148 | a rule with Male among its antecedents and Age_55-64 among its consequents gets the first message of the cascade |
| Recommendation.KomplikasiYesNeverFound | app.py:209-216 | over names produced by the rename table, the `Komplikasi_Yes` test never holds |
| Recommendation.ComplicationRowsDead | app.py:209-216 | over renamed consequents, the four `Komplikasi_Yes` rows never fire, and removing them from the table changes no recommendation |
| Recommendation.NoComplicationsFallback | app.py:217-220 | over renamed consequents, when no leading row fires, the answer is the "No Complications" message if the consequents contain that name and the default message otherwise |
| Recommendation.ComplicatedOver65AsWritten | app.py:213-214 | as written, the rule Age_>65 ⇒ With Complications gets the default message, and no block answers it |
| Recommendation.CorrectedRecommendation | app.py:209-216 | the corrected cascade, with the four complication tests looking for "With Complications"; when the consequents contain neither complication test string it answers as the application does |
| Recommendation.ComplicatedOver65Corrected | app.py:213-214 | with the corrected test, such a rule, if no block answers it and it has no diabetes-type antecedent, gets the message written for it |
| Recommendation.CorrectionChangesOnlyOver65 | app.py:209-216 | over renamed consequents, the correction changes an answer only for Age_>65 with "With Complications", and then to the Age_>65 complication message |
| Recommendation.RuleSentence | app.py:138 | the rule sentence starts with "Jika ", ends with the bracketed confidence, and contains both joined name lists |

## Left out

- The Streamlit interface is not modelled. This covers the sidebar, the menu, the multiselect widgets, the tables shown and the download buttons. They are user I/O. The chosen values reach the model as `Rules.Selections`, and the chosen size reaches it as an integer.
- The `int(itemset_size)` conversion of the selected string is not modelled. The choices "1", "2" and "3" are fixed, so the size is taken as an already-converted integer.
- Reading the Excel file (app.py:24-25) is not modelled. It is file I/O. A record is `Features.Record` with a whole-number age. Missing cells and fractional ages are not modelled.
- The `pd.get_dummies` table as a whole is not modelled. Its set of columns depends on which values occur in the data. The model encodes one record at a time as the names of its true dummy columns.
- The rule miner (`apriori` and `association_rules`, app.py:50 and 53) and its thresholds 0.02 and 0.05 are not modelled. They are calls into a library that is not part of this model. The rule and frequent-itemset tables are inputs, and their support, confidence and lift are carried unchanged as reals.
- The percentage formatting of support and confidence (app.py:81, 136-137) is not modelled. It is floating-point rounding and number-to-text conversion. `RuleSentence` takes the confidence as already-formatted text.
- The in-place DataFrame updates (app.py:26, 46, 80 and 136-138, and the recommendation column after the function) are modelled as values returned by functions.
- The order in which a `frozenset` is iterated is not fixed by the model. A set of names is a list without repeats, and the joined text follows whatever order that list has.
- The visualisation page (plots) is not modelled. It is display only.
- RuleSentence: the contract states the sentence's frame and that both joined lists occur in it. It does not state the exact text between them.
- Text.Contains: only one direction is used. A name in a list is a substring of the joined list. The converse is not claimed, because a joined list can contain a test string that spans two names or sits inside a longer name.

## Findings

| source | as written | input that shows it | evidently intended | confidence | as-written member | corrected member |
|---|---|---|---|---|---|---|
| app.py:209-216 | the four closing pair tests look for `Komplikasi_Yes` in the consequents, but app.py:44 has already renamed that column to "With Complications", so on the renamed names these tests never hold | antecedents ["Age_>65"], consequents ["With Complications"]: the cascade returns the default message | test "With Complications"; the rule above then gets "Prioritaskan penanganan komplikasi untuk pasien di atas 65 tahun." (the other three corrected rows stay shadowed by the Male, type 1 and type 2 blocks) | not executed; high that the test is dead, medium on intent | Recommendation.ComplicatedOver65AsWritten | Recommendation.ComplicatedOver65Corrected |

The priority table `Recommendation.Cascade` models the application as written. The corrected table `Recommendation.CorrectedCascade` and `Recommendation.CorrectedRecommendation` replace only the four complication rows. `Recommendation.CorrectionChangesOnlyOver65` proves that, on renamed names, this changes only the rule above.
