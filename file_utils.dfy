/**
 * getStartingRow of lib/utils/file-utils.ts: the first rule of the table whose
 * pattern matches the filename decides the row from which that file's rows are
 * merged; the DEFAULT entry is skipped by key and supplies the fallback.
 */
module FileUtils {
  import opened Wrappers
  import opened FilePatterns

  /** A rule the loop actually tests (not the DEFAULT key) and whose pattern matches. */
  predicate Selects(rule: Rule, filename: string)
  {
    rule.key != DEFAULT && Matches(rule, filename)
  }

  /** The `for ... of Object.entries(...)` loop with its early return. */
  function FirstMatch(rules: seq<Rule>, filename: string): Option<int>
  {
    if rules == [] then None
    else if rules[0].key == DEFAULT then FirstMatch(rules[1..], filename)
    else if Matches(rules[0], filename) then Some(rules[0].startRow)
    else FirstMatch(rules[1..], filename)
  }

  /**
   * The search finds nothing exactly when no rule is selected, and otherwise
   * returns the start row of the first selected rule.
   */
  lemma {:induction false} FirstMatchSpec(rules: seq<Rule>, filename: string)
    ensures FirstMatch(rules, filename).None? <==> forall i :: 0 <= i < |rules| ==> !Selects(rules[i], filename)
    ensures FirstMatch(rules, filename).Some? ==>
              exists i :: 0 <= i < |rules| && Selects(rules[i], filename)
                       && FirstMatch(rules, filename).value == rules[i].startRow
                       && forall j :: 0 <= j < i ==> !Selects(rules[j], filename)
  {
    if rules != [] {
      FirstMatchSpec(rules[1..], filename);
      if FirstMatch(rules, filename).Some? && !Selects(rules[0], filename) {
        var k :| 0 <= k < |rules[1..]| && Selects(rules[1..][k], filename)
                 && FirstMatch(rules, filename).value == rules[1..][k].startRow
                 && forall j :: 0 <= j < k ==> !Selects(rules[1..][j], filename);
        assert Selects(rules[k + 1], filename);
      }
      if !Selects(rules[0], filename) && FirstMatch(rules, filename).None? {
        forall i | 0 <= i < |rules| ensures !Selects(rules[i], filename) {
          if i > 0 { assert rules[i] == rules[1..][i - 1]; }
        }
      }
    }
  }

  /** getStartingRow: total, and always one of the table's start rows. */
  function GetStartingRow(filename: string): (r: int)
    ensures r in {7, 8, 9, 12}
    ensures r >= 1
  {
    FirstMatchSpec(Table, filename);
    match FirstMatch(Table, filename)
    case Some(row) => row
    case None => Default.startRow
  }

  /** An independent statement of the classifier as a decision list over substrings. */
  lemma GetStartingRowCases(filename: string)
    ensures GetStartingRow(filename) ==
              if ContainsIgnoringCase(filename, "MDS") then 9
              else if ContainsIgnoringCase(filename, "DAH") then 9
              else if ContainsIgnoringCase(filename, "TB1") then 7
              else if ContainsIgnoringCase(filename, "TB4") then 12
              else 8
  {
    var t := Table;
    TestPatternSpec("MDS", filename);
    TestPatternSpec("DAH", filename);
    TestPatternSpec("TB1", filename);
    TestPatternSpec("TB4", filename);
    assert Matches(Mds, filename) == ContainsIgnoringCase(filename, "MDS");
    assert Matches(Dah, filename) == ContainsIgnoringCase(filename, "DAH");
    assert Matches(Tb1, filename) == ContainsIgnoringCase(filename, "TB1");
    assert Matches(Tb4, filename) == ContainsIgnoringCase(filename, "TB4");
    assert t[1..] == [Dah, Tb1, Tb4, Default];
    assert t[2..] == [Tb1, Tb4, Default];
    assert t[3..] == [Tb4, Default];
    assert t[4..] == [Default];
    assert FirstMatch(t[4..], filename) == None;
    assert FirstMatch(t[3..], filename) == if ContainsIgnoringCase(filename, "TB4") then Some(12) else None;
    assert FirstMatch(t[2..], filename) == if ContainsIgnoringCase(filename, "TB1") then Some(7) else FirstMatch(t[3..], filename);
    assert FirstMatch(t[1..], filename) == if ContainsIgnoringCase(filename, "DAH") then Some(9) else FirstMatch(t[2..], filename);
    assert FirstMatch(t, filename) == if ContainsIgnoringCase(filename, "MDS") then Some(9) else FirstMatch(t[1..], filename);
  }

  /** No matching rule: the DEFAULT start row, 8. */
  lemma NoMatchGivesDefault(filename: string)
    requires forall i :: 0 <= i < |Table| ==> !Selects(Table[i], filename)
    ensures GetStartingRow(filename) == Default.startRow == 8
  {
    FirstMatchSpec(Table, filename);
  }

  /** A matching rule: the start row of the first matching rule in table order. */
  lemma MatchGivesFirstRule(filename: string, i: nat)
    requires i < |Table| && Selects(Table[i], filename)
    requires forall j :: 0 <= j < i ==> !Selects(Table[j], filename)
    ensures GetStartingRow(filename) == Table[i].startRow
  {
    FirstMatchSpec(Table, filename);
    var r := FirstMatch(Table, filename);
    var k :| 0 <= k < |Table| && Selects(Table[k], filename)
             && r.value == Table[k].startRow
             && forall j :: 0 <= j < k ==> !Selects(Table[j], filename);
    assert k == i;
  }

  /** Overlapping names resolve by table order: TB1 is tried before TB4. */
  lemma Tb1BeforeTb4(filename: string)
    requires ContainsIgnoringCase(filename, "TB1") && ContainsIgnoringCase(filename, "TB4")
    requires !ContainsIgnoringCase(filename, "MDS") && !ContainsIgnoringCase(filename, "DAH")
    ensures GetStartingRow(filename) == 7
  {
    GetStartingRowCases(filename);
  }

  /** Overlapping names resolve by table order: MDS is tried before TB4. */
  lemma MdsBeforeTb4(filename: string)
    requires ContainsIgnoringCase(filename, "MDS") && ContainsIgnoringCase(filename, "TB4")
    ensures GetStartingRow(filename) == 9
  {
    GetStartingRowCases(filename);
  }

  /**
   * The DEFAULT entry is never tested: an entry with that key, whatever
   * pattern it might carry, can be removed from any rule list without
   * changing the outcome of the search.
   */
  lemma {:induction false} DefaultNeverTested(pre: seq<Rule>, d: Rule, post: seq<Rule>, filename: string)
    requires d.key == DEFAULT
    ensures FirstMatch(pre + [d] + post, filename) == FirstMatch(pre + post, filename)
  {
    if pre == [] {
      assert (pre + [d] + post)[1..] == post;
      assert pre + post == post;
    } else {
      assert (pre + [d] + post)[0] == pre[0] && (pre + post)[0] == pre[0];
      assert (pre + [d] + post)[1..] == pre[1..] + [d] + post;
      assert (pre + post)[1..] == pre[1..] + post;
      DefaultNeverTested(pre[1..], d, post, filename);
    }
  }

  /** Giving the DEFAULT entry a pattern would not change getStartingRow. */
  lemma DefaultPatternIrrelevant(p: string, filename: string)
    ensures FirstMatch(Table[4 := Rule(DEFAULT, Some(p), 8)], filename)
         == FirstMatch(Table, filename)
  {
    var pre := Table[..4];
    assert Table[4 := Rule(DEFAULT, Some(p), 8)] == pre + [Rule(DEFAULT, Some(p), 8)] + [];
    assert Table == pre + [Default] + [];
    DefaultNeverTested(pre, Rule(DEFAULT, Some(p), 8), [], filename);
    DefaultNeverTested(pre, Default, [], filename);
  }

  /** Matching ignores ASCII case. */
  lemma CaseInsensitive(a: string, b: string)
    requires Lower(a) == Lower(b)
    ensures GetStartingRow(a) == GetStartingRow(b)
  {
    FirstMatchLower(Table, a, b);
  }

  lemma {:induction false} FirstMatchLower(rules: seq<Rule>, a: string, b: string)
    requires Lower(a) == Lower(b)
    ensures FirstMatch(rules, a) == FirstMatch(rules, b)
  {
    if rules != [] {
      FirstMatchLower(rules[1..], a, b);
    }
  }
}
