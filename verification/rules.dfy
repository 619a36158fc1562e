/**
  The association rules as the application receives them from the rule
  miner, and what it does with them: `filter_rules` (keep the rules of the
  chosen antecedent size that mention the chosen category values) and the
  selection of one-item frequent itemsets for the itemset page.
 */
module Rules {
  import opened Seqs
  import opened Text

  /** No name occurs twice. */
  predicate NoDuplicates(s: seq<string>) {
    forall i, j :: 0 <= i < j < |s| ==> s[i] != s[j]
  }

  /**
    The members of a `frozenset` of feature names, listed in its iteration
    order; `len` of the set is the length of the list.
   */
  type ItemList = s: seq<string> | NoDuplicates(s)

  /**
    One row of the rule table. The metrics are carried unchanged from the
    rule miner; nothing here computes them.
   */
  datatype Rule = Rule(antecedents: ItemList, consequents: ItemList, support: real, confidence: real, lift: real)

  /** One row of the frequent-itemset table. */
  datatype FrequentItemset = FrequentItemset(itemsets: ItemList, support: real)

  /** The four multiselect choices, one list of feature names per category. */
  datatype Selections = Selections(gender: seq<string>, age: seq<string>, diabetesType: seq<string>, complication: seq<string>)

  /** The category choices in the order `filter_rules` applies them. */
  function Categories(sel: Selections): seq<seq<string>> {
    [sel.gender, sel.age, sel.diabetesType, sel.complication]
  }

  /** Some chosen value is an antecedent or a consequent of the rule. */
  predicate Mentions(r: Rule, values: seq<string>) {
    exists v :: v in values && (v in r.antecedents || v in r.consequents)
  }

  /** The rule passes every non-empty choice in `choices`. */
  predicate PassesAll(r: Rule, choices: seq<seq<string>>) {
    forall values :: values in choices && values != [] ==> Mentions(r, values)
  }

  /** The rule's antecedent set has `itemsetSize` members. */
  predicate HasSize(r: Rule, itemsetSize: int) {
    |r.antecedents| == itemsetSize
  }

  /**
    The filter's acceptance condition: the antecedent has the chosen size and,
    for each category with something chosen, the rule mentions one of the
    chosen values on either side.
   */
  predicate Kept(r: Rule, itemsetSize: int, sel: Selections) {
    HasSize(r, itemsetSize) && PassesAll(r, Categories(sel))
  }

  /** The rules `filter_rules` returns, described in one step. */
  function FilterSpec(rules: seq<Rule>, itemsetSize: int, sel: Selections): seq<Rule> {
    Select(rules, r => Kept(r, itemsetSize, sel))
  }

  /** The first mask of `filter_rules`: antecedents of the chosen size. */
  function BySize(rules: seq<Rule>, itemsetSize: int): seq<Rule> {
    Select(rules, r => HasSize(r, itemsetSize))
  }

  /** One category step: an empty choice leaves the rules alone, otherwise they must mention it. */
  function Stage(rules: seq<Rule>, values: seq<string>): seq<Rule> {
    if values == [] then rules else Select(rules, r => Mentions(r, values))
  }

  /** The category steps applied one after another, first to last. */
  function ApplyStages(rules: seq<Rule>, choices: seq<seq<string>>): seq<Rule>
    decreases |choices|
  {
    if choices == [] then rules
    else Stage(ApplyStages(rules, choices[..|choices| - 1]), choices[|choices| - 1])
  }

  /** Applying category steps is one selection by "passes every step". */
  lemma {:induction false} ApplyStagesIsSelect(rules: seq<Rule>, choices: seq<seq<string>>)
    ensures ApplyStages(rules, choices) == Select(rules, r => PassesAll(r, choices))
    decreases |choices|
  {
    if choices == [] {
      SelectAll(rules, r => PassesAll(r, choices));
    } else {
      var init := choices[..|choices| - 1];
      var last := choices[|choices| - 1];
      ApplyStagesIsSelect(rules, init);
      var before := ApplyStages(rules, init);
      assert forall x :: x in choices <==> x in init || x == last by {
        assert choices == init + [last];
      }
      if last == [] {
        SelectExt(rules, r => PassesAll(r, init), r => PassesAll(r, choices));
      } else {
        SelectSelect(rules, r => PassesAll(r, init), r => Mentions(r, last), r => PassesAll(r, choices));
      }
    }
  }

  /**
    The filter is the size mask followed by the category steps; the steps may
    be taken in any order (any rearrangement of the four choices gives the
    same rules), because each only removes rows the conjunction removes.
   */
  lemma FilterOrderIrrelevant(rules: seq<Rule>, itemsetSize: int, sel: Selections, choices: seq<seq<string>>)
    requires multiset(choices) == multiset(Categories(sel))
    ensures ApplyStages(BySize(rules, itemsetSize), choices) == FilterSpec(rules, itemsetSize, sel)
  {
    ApplyStagesIsSelect(BySize(rules, itemsetSize), choices);
    assert forall x :: x in choices <==> x in Categories(sel) by {
      forall x ensures x in choices <==> x in Categories(sel) {
        assert x in choices <==> x in multiset(choices);
        assert x in Categories(sel) <==> x in multiset(Categories(sel));
      }
    }
    SelectSelect(rules, r => HasSize(r, itemsetSize), r => PassesAll(r, choices), r => Kept(r, itemsetSize, sel));
  }

  /**
    `filter_rules`: the size mask, then one mask per category that has a
    selection, each rebinding the working table.
   */
  method FilterRules(rules: seq<Rule>, itemsetSize: int, sel: Selections) returns (filtered: seq<Rule>)
    ensures filtered == FilterSpec(rules, itemsetSize, sel)
  {
    filtered := Select(rules, r => HasSize(r, itemsetSize));
    ghost var sized := filtered;
    if sel.gender != [] {
      filtered := Select(filtered, r => Mentions(r, sel.gender));
    }
    assert Categories(sel)[..1][..0] == [];
    assert filtered == ApplyStages(sized, Categories(sel)[..1]);
    if sel.age != [] {
      filtered := Select(filtered, r => Mentions(r, sel.age));
    }
    assert Categories(sel)[..2][..1] == Categories(sel)[..1];
    assert filtered == ApplyStages(sized, Categories(sel)[..2]);
    if sel.diabetesType != [] {
      filtered := Select(filtered, r => Mentions(r, sel.diabetesType));
    }
    assert Categories(sel)[..3][..2] == Categories(sel)[..2];
    assert filtered == ApplyStages(sized, Categories(sel)[..3]);
    if sel.complication != [] {
      filtered := Select(filtered, r => Mentions(r, sel.complication));
    }
    assert Categories(sel)[..4][..3] == Categories(sel)[..3];
    assert filtered == ApplyStages(sized, Categories(sel)[..4]);
    assert Categories(sel)[..4] == Categories(sel);
    FilterOrderIrrelevant(rules, itemsetSize, sel, Categories(sel));
  }

  /** A rule is returned iff it is an input rule that meets the acceptance condition. */
  lemma FilterCharacterised(rules: seq<Rule>, itemsetSize: int, sel: Selections)
    ensures forall r :: r in FilterSpec(rules, itemsetSize, sel) <==> r in rules && Kept(r, itemsetSize, sel)
  {
    SelectMembers(rules, r => Kept(r, itemsetSize, sel));
  }

  /**
    The filter only deletes rows: what it returns is a subsequence of its
    input, in the input's order, each rule with its own antecedents,
    consequents and metrics; and every returned rule has the chosen size.
   */
  lemma FilterIsSubsequence(rules: seq<Rule>, itemsetSize: int, sel: Selections)
    ensures IsSubsequence(FilterSpec(rules, itemsetSize, sel), rules)
    ensures forall r :: r in FilterSpec(rules, itemsetSize, sel) ==> |r.antecedents| == itemsetSize
  {
    SelectIsSubsequence(rules, r => Kept(r, itemsetSize, sel));
    FilterCharacterised(rules, itemsetSize, sel);
  }

  /** With nothing chosen in any category, the filter returns exactly the rules of the chosen size. */
  lemma FilterWithoutSelections(rules: seq<Rule>, itemsetSize: int)
    ensures FilterSpec(rules, itemsetSize, Selections([], [], [], [])) == BySize(rules, itemsetSize)
  {
    var none := Selections([], [], [], []);
    SelectExt(rules, r => Kept(r, itemsetSize, none), r => HasSize(r, itemsetSize));
  }

  /** Filtering the filtered rules again with the same choices changes nothing. */
  lemma FilterIdempotent(rules: seq<Rule>, itemsetSize: int, sel: Selections)
    ensures FilterSpec(FilterSpec(rules, itemsetSize, sel), itemsetSize, sel) == FilterSpec(rules, itemsetSize, sel)
  {
    SelectIdempotent(rules, r => Kept(r, itemsetSize, sel));
  }

  /** The itemset holds exactly one feature. */
  predicate IsSingle(f: FrequentItemset) {
    |f.itemsets| == 1
  }

  /** The itemset page keeps the frequent itemsets that hold a single feature. */
  function SingleItemsets(frequent: seq<FrequentItemset>): seq<FrequentItemset> {
    Select(frequent, f => IsSingle(f))
  }

  /** How the itemset page shows an itemset: its names joined by `", "`. */
  function ItemsetText(f: FrequentItemset): string {
    Join(f.itemsets, ", ")
  }

  /**
    The one-item itemsets are exactly the input rows with one feature, in the
    input's order and with their support unchanged, and each is shown as the
    bare feature name.
   */
  lemma SingleItemsetsSpec(frequent: seq<FrequentItemset>)
    ensures IsSubsequence(SingleItemsets(frequent), frequent)
    ensures forall f :: f in SingleItemsets(frequent) <==> f in frequent && |f.itemsets| == 1
    ensures forall f :: f in SingleItemsets(frequent) ==> ItemsetText(f) == f.itemsets[0]
  {
    SelectIsSubsequence(frequent, f => IsSingle(f));
    SelectMembers(frequent, f => IsSingle(f));
  }
}
