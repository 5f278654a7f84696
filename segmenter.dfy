/** Segment names (main.py:98-111). Each key of the segment map is a regular expression of
    two atoms, each a character class such as [1-2] or a single digit; the score-code
    column is rewritten by replacing, rule after rule, every match of a rule's pattern
    with the rule's segment name. A rule is applied to the rows whose ORIGINAL code
    matches it (pandas works out the match masks of all rules before substituting), and
    the substitution acts on the row's current text. */
module Segmenter {
  import opened Scorer

  /** A character class [lo-hi]; a single character c is the class [c-c]. */
  datatype CharClass = CharClass(lo: char, hi: char)

  /** A two-atom pattern. */
  datatype Pattern = Pattern(first: CharClass, second: CharClass)

  datatype Rule = Rule(pattern: Pattern, segment: string)

  /** The segment map, in its order in the source. */
  const SEG_MAP: seq<Rule> := [
    Rule(Pattern(CharClass('1', '2'), CharClass('1', '2')), "hibernating"),
    Rule(Pattern(CharClass('1', '2'), CharClass('3', '4')), "at_Risk"),
    Rule(Pattern(CharClass('1', '2'), CharClass('5', '5')), "cant_loose"),
    Rule(Pattern(CharClass('3', '3'), CharClass('1', '2')), "about_to_sleep"),
    Rule(Pattern(CharClass('3', '3'), CharClass('3', '3')), "need_attention"),
    Rule(Pattern(CharClass('3', '4'), CharClass('4', '5')), "loyal_customers"),
    Rule(Pattern(CharClass('4', '4'), CharClass('1', '1')), "promising"),
    Rule(Pattern(CharClass('5', '5'), CharClass('1', '1')), "new_customers"),
    Rule(Pattern(CharClass('4', '5'), CharClass('2', '3')), "potential_loyalists"),
    Rule(Pattern(CharClass('5', '5'), CharClass('4', '5')), "champions")
  ]

  predicate InClass(k: CharClass, c: char)
  {
    k.lo <= c <= k.hi
  }

  predicate MatchesAt(p: Pattern, s: string, i: int)
    requires 0 <= i && i + 1 < |s|
  {
    InClass(p.first, s[i]) && InClass(p.second, s[i + 1])
  }

  /** The pattern matches somewhere in `s` (an unanchored search). */
  predicate Search(p: Pattern, s: string)
  {
    |s| >= 2 && (MatchesAt(p, s, 0) || Search(p, s[1..]))
  }

  /** Replaces every match of `p` in `s` by `repl`, scanning left to right without
      overlaps. */
  function Sub(p: Pattern, repl: string, s: string): (r: string)
    ensures !Search(p, s) ==> r == s
  {
    if |s| < 2 then s
    else if MatchesAt(p, s, 0) then repl + Sub(p, repl, s[2..])
    else [s[0]] + Sub(p, repl, s[1..])
  }

  /** Rules applied as pandas applies them: a rule rewrites the current text when the
      original text matches it. Rules none of which matches the original leave the text
      alone. */
  function ReplaceMasked(rules: seq<Rule>, original: string, current: string): (r: string)
    ensures (forall j :: 0 <= j < |rules| ==> !Search(rules[j].pattern, original)) ==> r == current
  {
    if rules == [] then current
    else
      var next := if Search(rules[0].pattern, original)
        then Sub(rules[0].pattern, rules[0].segment, current) else current;
      assert forall j :: 0 <= j < |rules| - 1 ==> rules[1..][j] == rules[j + 1];
      ReplaceMasked(rules[1..], original, next)
  }

  /** Rules applied as a plain chain of substitutions, each on the previous one's output.
      Rules none of which matches the text leave it alone. */
  function ReplaceChained(rules: seq<Rule>, current: string): (r: string)
    ensures (forall j :: 0 <= j < |rules| ==> !Search(rules[j].pattern, current)) ==> r == current
  {
    if rules == [] then current
    else
      assert forall j :: 0 <= j < |rules| - 1 ==> rules[1..][j] == rules[j + 1];
      ReplaceChained(rules[1..], Sub(rules[0].pattern, rules[0].segment, current))
  }

  /** The segment of a score code (main.py:111): a code of two score digits becomes the
      name the grid gives those scores. */
  function Segment(code: string): (s: string)
    ensures |code| == 2 && '1' <= code[0] <= '5' && '1' <= code[1] <= '5' ==>
      s == SegmentOf(code[0] as int - '0' as int, code[1] as int - '0' as int)
  {
    if |code| == 2 && '1' <= code[0] <= '5' && '1' <= code[1] <= '5' then
      var r, f := code[0] as int - '0' as int, code[1] as int - '0' as int;
      assert code == ScoreCode(r, f);
      SegmentIsTable(r, f);
      ReplaceMasked(SEG_MAP, code, code)
    else
      ReplaceMasked(SEG_MAP, code, code)
  }

  /** The index of the rule that the segment grid assigns to a pair of scores: recency
      1-2 splits frequency into 1-2, 3-4 and 5; recency 3 into 1-2, 3 and 4-5; recency 4
      into 1, 2-3 and 4-5; recency 5 into 1, 2-3 and 4-5. */
  function RuleFor(recencyScore: int, frequencyScore: int): (i: int)
    requires 1 <= recencyScore <= 5 && 1 <= frequencyScore <= 5
    ensures 0 <= i < |SEG_MAP|
  {
    var r, f := recencyScore, frequencyScore;
    if r <= 2 then (if f <= 2 then 0 else if f <= 4 then 1 else 2)
    else if r == 3 then (if f <= 2 then 3 else if f == 3 then 4 else 5)
    else if r == 4 then (if f == 1 then 6 else if f <= 3 then 8 else 5)
    else (if f == 1 then 7 else if f <= 3 then 8 else 9)
  }

  /** The segment the grid gives a pair of scores. */
  function SegmentOf(recencyScore: int, frequencyScore: int): string
    requires 1 <= recencyScore <= 5 && 1 <= frequencyScore <= 5
  {
    SEG_MAP[RuleFor(recencyScore, frequencyScore)].segment
  }

  /** A two-character text matches a pattern exactly when both characters lie in the
      pattern's classes; a match then rewrites the whole text to the replacement. */
  lemma TwoCharMatch(p: Pattern, repl: string, s: string)
    requires |s| == 2
    ensures Search(p, s) <==> InClass(p.first, s[0]) && InClass(p.second, s[1])
    ensures Search(p, s) ==> Sub(p, repl, s) == repl
  {
    assert !Search(p, s[1..]);
    if Search(p, s) {
      assert s[2..] == [];
      assert repl + [] == repl;
    }
  }

  predicate NoDigit(s: string)
  {
    forall i :: 0 <= i < |s| ==> !('0' <= s[i] <= '9')
  }

  predicate DigitClass(k: CharClass)
  {
    '0' <= k.lo && k.hi <= '9'
  }

  /** A text without digits holds no match of a pattern over digits. */
  lemma {:induction false} NoDigitNoMatch(p: Pattern, s: string)
    requires DigitClass(p.first) && NoDigit(s)
    ensures !Search(p, s)
  {
    if |s| >= 2 {
      NoDigitNoMatch(p, s[1..]);
    }
  }

  /** Every pattern of the map starts with a class of digits. */
  lemma SegMapPatterns()
    ensures forall i :: 0 <= i < |SEG_MAP| ==> DigitClass(SEG_MAP[i].pattern.first)
  {
  }

  /** No segment name contains a digit. The ten names are checked in four groups,
      which keeps each proof small. */
  lemma SegMapNames()
    ensures forall i :: 0 <= i < |SEG_MAP| ==> NoDigit(SEG_MAP[i].segment)
  {
    forall i | 0 <= i < |SEG_MAP| ensures NoDigit(SEG_MAP[i].segment) {
      if i < 3 {
        SegMapNamesA();
      } else if i < 5 {
        SegMapNamesB();
      } else if i < 8 {
        SegMapNamesC();
      } else {
        SegMapNamesD();
      }
    }
  }

  lemma SegMapNamesA()
    ensures forall i :: 0 <= i < 3 ==> NoDigit(SEG_MAP[i].segment)
  {
  }

  lemma SegMapNamesB()
    ensures forall i :: 3 <= i < 5 ==> NoDigit(SEG_MAP[i].segment)
  {
  }

  lemma SegMapNamesC()
    ensures forall i :: 5 <= i < 8 ==> NoDigit(SEG_MAP[i].segment)
  {
  }

  lemma SegMapNamesD()
    ensures forall i :: 8 <= i < |SEG_MAP| ==> NoDigit(SEG_MAP[i].segment)
  {
  }

  /** A two-character code matched by exactly one rule of a list becomes that rule's
      segment name, under both ways of applying the rules, provided no pattern can match
      inside a segment name. */
  lemma {:induction false} UniqueRule(rules: seq<Rule>, code: string, i: int)
    requires |code| == 2 && 0 <= i < |rules|
    requires Search(rules[i].pattern, code)
    requires forall j :: 0 <= j < |rules| && j != i ==> !Search(rules[j].pattern, code)
    requires forall j :: 0 <= j < |rules| ==> DigitClass(rules[j].pattern.first)
    requires NoDigit(rules[i].segment)
    ensures ReplaceMasked(rules, code, code) == rules[i].segment
    ensures ReplaceChained(rules, code) == rules[i].segment
  {
    var rest := rules[1..];
    forall j | 0 <= j < |rest| ensures DigitClass(rest[j].pattern.first) {
      assert rest[j] == rules[j + 1];
    }
    if i == 0 {
      TwoCharMatch(rules[0].pattern, rules[0].segment, code);
      forall j | 0 <= j < |rest| ensures !Search(rest[j].pattern, code) {
        assert rest[j] == rules[j + 1];
      }
      forall j | 0 <= j < |rest| ensures !Search(rest[j].pattern, rules[0].segment) {
        NoDigitNoMatch(rest[j].pattern, rules[0].segment);
      }
    } else {
      forall j | 0 <= j < |rest| && j != i - 1 ensures !Search(rest[j].pattern, code) {
        assert rest[j] == rules[j + 1];
      }
      assert rest[i - 1] == rules[i];
      UniqueRule(rest, code, i - 1);
    }
  }

  /** The classes of rule j hold the two score digits exactly when j is the grid's
      rule for the scores. */
  lemma RuleHit(recencyScore: int, frequencyScore: int, j: int)
    requires 1 <= recencyScore <= 5 && 1 <= frequencyScore <= 5 && 0 <= j < |SEG_MAP|
    ensures var p := SEG_MAP[j].pattern;
            InClass(p.first, DigitChar(recencyScore)) && InClass(p.second, DigitChar(frequencyScore))
            <==> j == RuleFor(recencyScore, frequencyScore)
  {
  }

  /** The patterns of the map partition the 25 score codes: the code of a pair of scores
      is matched by the rule the grid names and by no other. */
  lemma ExactlyOneRule(recencyScore: int, frequencyScore: int)
    requires 1 <= recencyScore <= 5 && 1 <= frequencyScore <= 5
    ensures var code := ScoreCode(recencyScore, frequencyScore);
            forall j :: 0 <= j < |SEG_MAP| ==>
              (Search(SEG_MAP[j].pattern, code) <==> j == RuleFor(recencyScore, frequencyScore))
  {
    var code := ScoreCode(recencyScore, frequencyScore);
    forall j | 0 <= j < |SEG_MAP|
      ensures Search(SEG_MAP[j].pattern, code) <==> j == RuleFor(recencyScore, frequencyScore)
    {
      TwoCharMatch(SEG_MAP[j].pattern, "", code);
      RuleHit(recencyScore, frequencyScore, j);
    }
  }

  /** Every score code gets the segment the grid gives it, whether the rules are applied
      with pandas' masks or as a plain chain of substitutions. */
  lemma SegmentIsTable(recencyScore: int, frequencyScore: int)
    requires 1 <= recencyScore <= 5 && 1 <= frequencyScore <= 5
    ensures var code := ScoreCode(recencyScore, frequencyScore);
            ReplaceMasked(SEG_MAP, code, code) == SegmentOf(recencyScore, frequencyScore)
    ensures ReplaceChained(SEG_MAP, ScoreCode(recencyScore, frequencyScore)) ==
      SegmentOf(recencyScore, frequencyScore)
  {
    var code := ScoreCode(recencyScore, frequencyScore);
    var i := RuleFor(recencyScore, frequencyScore);
    ExactlyOneRule(recencyScore, frequencyScore);
    SegMapPatterns();
    SegMapNames();
    UniqueRule(SEG_MAP, code, i);
  }

  /** Examples of the grid: "55" champions, "33" need attention, "21" hibernating,
      "15" can't lose. */
  lemma SegmentExamples()
    ensures Segment("55") == "champions"
    ensures Segment("33") == "need_attention"
    ensures Segment("21") == "hibernating"
    ensures Segment("15") == "cant_loose"
  {
    assert "55"[0] == '5' && "55"[1] == '5' && SegmentOf(5, 5) == "champions";
    assert "33"[0] == '3' && "33"[1] == '3' && SegmentOf(3, 3) == "need_attention";
    assert "21"[0] == '2' && "21"[1] == '1' && SegmentOf(2, 1) == "hibernating";
    assert "15"[0] == '1' && "15"[1] == '5' && SegmentOf(1, 5) == "cant_loose";
  }
}
