/**
 * The filename rule table of lib/constants/file-patterns.ts.
 *
 * Each entry pairs a key with a case-insensitive regular expression and the
 * 1-based row from which a secondary file's rows are merged.  Every pattern in
 * the table is a literal of ASCII letters and digits with the `i` flag and no
 * anchors, no `g` flag and no `u` flag, so `pattern.test(name)` is exactly
 * "the ASCII-lower-cased pattern occurs somewhere in the ASCII-lower-cased
 * name" (without `u`, a regular expression never folds a non-ASCII
 * character onto an ASCII one).
 */
module FilePatterns {
  import opened Wrappers

  /** The keys of FILE_PATTERNS. */
  datatype Key = MDS | DAH | TB1 | TB4 | DEFAULT

  /** One table entry; `pattern` is None for the entry that has no `pattern` field. */
  datatype Rule = Rule(key: Key, pattern: Option<string>, startRow: int)

  /** Case folding of a non-unicode `/i` regular expression, restricted to ASCII. */
  function ToLowerAscii(c: char): char
  {
    if 'A' <= c <= 'Z' then (c as int + 32) as char else c
  }

  function Lower(s: string): string
  {
    seq(|s|, i requires 0 <= i < |s| => ToLowerAscii(s[i]))
  }

  /** `p` occurs in `s` starting at position `k`. */
  predicate OccursAt(p: string, s: string, k: int)
  {
    0 <= k && k + |p| <= |s| && s[k..k + |p|] == p
  }

  /** `p` is a substring of `s`. */
  ghost predicate Contains(s: string, p: string)
  {
    exists k :: 0 <= k <= |s| && OccursAt(p, s, k)
  }

  /** `p` is a substring of `name` when ASCII case is ignored. */
  ghost predicate ContainsIgnoringCase(name: string, p: string)
  {
    Contains(Lower(name), Lower(p))
  }

  /**
   * The left-to-right search a regular expression without the `g` flag does
   * (lastIndex stays 0): try every start position from `k` up to the end.
   */
  function ScanFrom(p: string, s: string, k: nat): bool
    requires k <= |s|
    decreases |s| - k
  {
    if OccursAt(p, s, k) then true
    else if k == |s| then false
    else ScanFrom(p, s, k + 1)
  }

  /** The scan from `k` succeeds exactly when `p` occurs at some position from `k` on. */
  lemma {:induction false} ScanFromSpec(p: string, s: string, k: nat)
    requires k <= |s|
    ensures ScanFrom(p, s, k) <==> exists j :: k <= j <= |s| && OccursAt(p, s, j)
    decreases |s| - k
  {
    if !OccursAt(p, s, k) && k < |s| {
      ScanFromSpec(p, s, k + 1);
      if exists j :: k <= j <= |s| && OccursAt(p, s, j) {
        var j :| k <= j <= |s| && OccursAt(p, s, j);
        assert j != k;
      }
    }
  }

  /** `/pattern/i.test(name)` for a literal pattern. */
  function TestPattern(pattern: string, name: string): bool
  {
    ScanFrom(Lower(pattern), Lower(name), 0)
  }

  /** A pattern test is exactly a substring test after ASCII lower-casing. */
  lemma TestPatternSpec(pattern: string, name: string)
    ensures TestPattern(pattern, name) <==> ContainsIgnoringCase(name, pattern)
  {
    ScanFromSpec(Lower(pattern), Lower(name), 0);
  }

  /** The `'pattern' in value && value.pattern.test(filename)` test of one entry. */
  predicate Matches(rule: Rule, filename: string)
  {
    rule.pattern.Some? && TestPattern(rule.pattern.value, filename)
  }

  const Mds: Rule := Rule(MDS, Some("MDS"), 9)
  const Dah: Rule := Rule(DAH, Some("DAH"), 9)
  const Tb1: Rule := Rule(TB1, Some("TB1"), 7)
  const Tb4: Rule := Rule(TB4, Some("TB4"), 12)
  const Default: Rule := Rule(DEFAULT, None, 8)

  /** FILE_PATTERNS in the order `Object.entries` visits its string keys. */
  const Table: seq<Rule> := [Mds, Dah, Tb1, Tb4, Default]

  /** The shape of the table: its order, its start rows, and which entry has no pattern. */
  lemma FilePatternsTable()
    ensures [Table[0].key, Table[1].key, Table[2].key, Table[3].key, Table[4].key]
            == [MDS, DAH, TB1, TB4, DEFAULT]
    ensures [Table[0].startRow, Table[1].startRow, Table[2].startRow,
             Table[3].startRow, Table[4].startRow] == [9, 9, 7, 12, 8]
    ensures forall i :: 0 <= i < |Table| ==>
              (Table[i].pattern.None? <==> Table[i].key == DEFAULT)
    ensures [Table[0].pattern, Table[1].pattern, Table[2].pattern, Table[3].pattern]
            == [Some("MDS"), Some("DAH"), Some("TB1"), Some("TB4")]
  {
  }
}
