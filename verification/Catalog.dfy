/** The shipped book order: catalog position, or 1000 plus the sum of the letters for an unknown code. */
module Catalog {

  const CODES: seq<string> := [
    "GEN", "EXO", "LEV", "NUM", "DEU", "JOS", "JDG", "RUT", "1SA", "2SA", "1KI", "2KI", "1CH", "2CH",
    "EZR", "NEH", "EST", "JOB", "PSA", "PRO", "ECC", "SNG", "ISA", "JER", "LAM", "EZK", "DAN", "HOS",
    "JOL", "AMO", "OBA", "JON", "MIC", "NAM", "HAB", "ZEP", "HAG", "ZEC", "MAL", "MAT", "MRK", "LUK",
    "JHN", "ACT", "ROM", "1CO", "2CO", "GAL", "EPH", "PHP", "COL", "1TH", "2TH", "1TI", "2TI", "TIT",
    "PHM", "HEB", "JAS", "1PE", "2PE", "1JN", "2JN", "3JN", "JUD", "REV", "TOB", "JDT", "ESG", "WIS",
    "SIR", "BAR", "LJE", "S3Y", "SUS", "BEL", "1MA", "2MA", "3MA", "4MA", "1ES", "2ES", "MAN", "PS2",
    "ODA", "PSS", "EZA", "5EZ", "6EZ", "DAG", "PS3", "2BA", "LBA", "JUB", "ENO", "1MQ", "2MQ", "3MQ",
    "REP", "4BA", "LAO"
  ]

  /** Position of the first occurrence, or the length of the list. */
  function IndexIn(codes: seq<string>, code: string): (i: nat)
    ensures i <= |codes|
    ensures i < |codes| ==> codes[i] == code
    ensures i == |codes| <==> code !in codes
  {
    if codes == [] then 0
    else if codes[0] == code then 0
    else 1 + IndexIn(codes[1..], code)
  }

  function CharSum(s: string): nat {
    if s == "" then 0 else s[0] as nat + CharSum(s[1..])
  }

  predicate Known(code: string) {
    code in CODES
  }

  function BookOrder(code: string): nat {
    if Known(code) then IndexIn(CODES, code) else 1000 + CharSum(code)
  }

  lemma {:induction false} CharSumConcat(s: string, t: string)
    ensures CharSum(s + t) == CharSum(s) + CharSum(t)
  {
    if s == "" {
      assert s + t == t;
    } else {
      CharSumConcat(s[1..], t);
      assert (s + t)[1..] == s[1..] + t;
    }
  }

  /** One letter taken out of two rearrangements leaves rearrangements. */
  lemma LetterOut(c: char, s: string, before: string, after: string)
    requires multiset([c] + s) == multiset(before + [c] + after)
    ensures multiset(s) == multiset(before + after)
  {
    var whole := multiset([c] + s);
    assert whole == multiset{c} + multiset(s);
    assert whole == multiset(before) + multiset{c} + multiset(after);
    forall d ensures multiset(s)[d] == multiset(before + after)[d] {
      assert whole[d] == multiset{c}[d] + multiset(s)[d];
    }
  }

  lemma CharSumInsert(before: string, c: char, after: string)
    ensures CharSum(before + [c] + after) == c as nat + CharSum(before + after)
  {
    assert before + [c] + after == before + ([c] + after);
    assert ([c] + after)[1..] == after;
    CharSumConcat(before, after);
    CharSumConcat(before, [c] + after);
  }

  lemma {:induction false} CharSumOfRearranged(s: string, t: string)
    requires multiset(s) == multiset(t)
    ensures CharSum(s) == CharSum(t)
  {
    if s == "" {
      assert t == "";
    } else {
      assert s[0] in multiset(t);
      var i :| 0 <= i < |t| && t[i] == s[0];
      var before, after := t[..i], t[i + 1..];
      assert s == [s[0]] + s[1..] && t == before + [s[0]] + after;
      LetterOut(s[0], s[1..], before, after);
      CharSumOfRearranged(s[1..], before + after);
      CharSumInsert(before, s[0], after);
    }
  }

  /** Unknown codes made of the same letters always tie, in whatever order the letters stand. */
  lemma RearrangedCodesTie(c: string, d: string)
    requires !Known(c) && !Known(d) && multiset(c) == multiset(d)
    ensures BookOrder(c) == BookOrder(d)
  {
    CharSumOfRearranged(c, d);
  }
}
