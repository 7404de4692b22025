/** The reference grammar `BOOK C:V` and `BOOK C:V-V`, its printer, and the key of an index row. */
module References {
  import opened Options
  import opened Coordinates

  predicate Digit(c: char) {
    '0' <= c <= '9'
  }

  predicate BookChar(c: char) {
    'A' <= c <= 'Z' || '1' <= c <= '6'
  }

  predicate AllDigits(s: string) {
    s != "" && forall i :: 0 <= i < |s| ==> Digit(s[i])
  }

  predicate BookCode(s: string) {
    |s| == 3 && BookChar(s[0]) && BookChar(s[1]) && BookChar(s[2])
  }

  // ----- numbers -----

  function DigitValue(c: char): nat {
    if Digit(c) then c as int - '0' as int else 0
  }

  function DigitChar(n: nat): (c: char)
    requires n < 10
    ensures Digit(c) && DigitValue(c) == n
  {
    ('0' as int + n) as char
  }

  function Number(s: string): nat {
    if s == "" then 0 else 10 * Number(s[..|s| - 1]) + DigitValue(s[|s| - 1])
  }

  function Digits(n: nat): (s: string)
    ensures AllDigits(s)
    ensures Number(s) == n
  {
    if n < 10 then [DigitChar(n)]
    else
      DigitsSnoc(Digits(n / 10), n);
      Digits(n / 10) + [DigitChar(n % 10)]
  }

  lemma DigitsSnoc(init: string, n: nat)
    requires AllDigits(init) && Number(init) == n / 10
    ensures AllDigits(init + [DigitChar(n % 10)]) && Number(init + [DigitChar(n % 10)]) == n
  {
    var s := init + [DigitChar(n % 10)];
    assert s[..|s| - 1] == init && s[|s| - 1] == DigitChar(n % 10);
  }

  // ----- grammar -----

  /** The pieces of a reference; `end` is empty for a single verse. */
  datatype Fields = Fields(book: string, chapter: string, start: string, end: string)

  function VersesText(f: Fields): string {
    f.start + (if f.end == "" then "" else "-" + f.end)
  }

  function ChapterText(f: Fields): string {
    f.chapter + (":" + VersesText(f))
  }

  /** The string a set of pieces spells. */
  function Spell(f: Fields): string {
    f.book + (" " + ChapterText(f))
  }

  predicate Grammatical(f: Fields) {
    BookCode(f.book) && AllDigits(f.chapter) && AllDigits(f.start) && (f.end == "" || AllDigits(f.end))
  }

  /** How many leading characters are digits. */
  function DigitRun(s: string): (n: nat)
    ensures n <= |s|
    ensures forall i :: 0 <= i < n ==> Digit(s[i])
    ensures n < |s| ==> !Digit(s[n])
  {
    if s == "" || !Digit(s[0]) then 0 else 1 + DigitRun(s[1..])
  }

  function MatchVerses(book: string, chapter: string, s: string): Option<Fields> {
    var n := DigitRun(s);
    if n == 0 then None
    else if n == |s| then Some(Fields(book, chapter, s, ""))
    else if s[n] != '-' || n + 1 == |s| || DigitRun(s[n + 1..]) != |s| - n - 1 then None
    else Some(Fields(book, chapter, s[..n], s[n + 1..]))
  }

  function MatchChapter(book: string, s: string): Option<Fields> {
    var n := DigitRun(s);
    if n == 0 || n == |s| || s[n] != ':' then None else MatchVerses(book, s[..n], s[n + 1..])
  }

  /** Full match of the reference pattern. */
  function Match(s: string): Option<Fields> {
    if |s| < 4 || !BookCode(s[..3]) || s[3] != ' ' then None else MatchChapter(s[..3], s[4..])
  }

  function FormatBcv(v: VerseId): string {
    v.book + " " + Digits(v.chapter) + ":" + Digits(v.verse)
  }

  // ----- the matcher is the grammar -----

  lemma {:induction false} RunOf(d: string, rest: string)
    requires forall i :: 0 <= i < |d| ==> Digit(d[i])
    requires rest == "" || !Digit(rest[0])
    ensures DigitRun(d + rest) == |d|
  {
    if d == "" {
      assert d + rest == rest;
    } else {
      RunOf(d[1..], rest);
      assert (d + rest)[1..] == d[1..] + rest;
    }
  }

  /** Cutting `d + mark + rest` at the end of its digits gives the two parts back. */
  lemma CutAtMark(d: string, mark: char, rest: string)
    requires AllDigits(d) && !Digit(mark)
    ensures var s := d + ([mark] + rest);
            var n := DigitRun(s);
            n == |d| && s[n] == mark && s[..n] == d && s[n + 1..] == rest
  {
    RunOf(d, [mark] + rest);
    var s := d + ([mark] + rest);
    assert s[..|d|] == d;
    assert s[|d| + 1..] == rest;
  }

  lemma AllRun(d: string)
    requires AllDigits(d)
    ensures DigitRun(d) == |d|
  {
    RunOf(d, "");
    assert d + "" == d;
  }

  lemma VersesComplete(f: Fields)
    requires Grammatical(f)
    ensures MatchVerses(f.book, f.chapter, VersesText(f)) == Some(f)
  {
    if f.end == "" {
      AllRun(f.start);
      assert VersesText(f) == f.start;
    } else {
      CutAtMark(f.start, '-', f.end);
      AllRun(f.end);
      assert "-" + f.end == ['-'] + f.end;
    }
  }

  lemma ChapterComplete(f: Fields)
    requires Grammatical(f)
    ensures MatchChapter(f.book, ChapterText(f)) == Some(f)
  {
    CutAtMark(f.chapter, ':', VersesText(f));
    assert ":" + VersesText(f) == [':'] + VersesText(f);
    VersesComplete(f);
  }

  lemma MatchComplete(f: Fields)
    requires Grammatical(f)
    ensures Match(Spell(f)) == Some(f)
  {
    var s := Spell(f);
    assert s[..3] == f.book;
    assert s[3] == ' ';
    assert s[4..] == ChapterText(f);
    ChapterComplete(f);
  }

  lemma VersesSound(book: string, chapter: string, s: string)
    requires BookCode(book) && AllDigits(chapter) && MatchVerses(book, chapter, s).Some?
    ensures var f := MatchVerses(book, chapter, s).value;
            Grammatical(f) && f.book == book && f.chapter == chapter && VersesText(f) == s
  {
    var n := DigitRun(s);
    if n < |s| {
      assert s == s[..n] + ("-" + s[n + 1..]);
    }
  }

  lemma ChapterSound(book: string, s: string)
    requires BookCode(book) && MatchChapter(book, s).Some?
    ensures var f := MatchChapter(book, s).value; Grammatical(f) && f.book == book && ChapterText(f) == s
  {
    var n := DigitRun(s);
    VersesSound(book, s[..n], s[n + 1..]);
    assert s == s[..n] + (":" + s[n + 1..]);
  }

  lemma MatchSound(s: string)
    requires Match(s).Some?
    ensures Grammatical(Match(s).value) && Spell(Match(s).value) == s
  {
    ChapterSound(s[..3], s[4..]);
    assert s == s[..3] + (" " + s[4..]);
  }

  /** The matcher accepts exactly the grammar, and a string has at most one reading. */
  lemma MatchIff(s: string, f: Fields)
    ensures Match(s) == Some(f) <==> Grammatical(f) && Spell(f) == s
  {
    if Grammatical(f) {
      MatchComplete(f);
    }
    if Match(s).Some? {
      MatchSound(s);
    }
  }

  function Denotes(f: Fields): Option<RefRange> {
    var first := Number(f.start);
    var last := if f.end == "" then first else Number(f.end);
    if last < first then None else Some(RefRange(f.book, Number(f.chapter), first, last - first))
  }

  function ParseRef(s: string): Option<RefRange> {
    match Match(s)
    case None => None
    case Some(f) => Denotes(f)
  }

  /** What a reference string denotes: its grammatical reading, when the end is not before the start. */
  lemma ParseIff(s: string, r: RefRange)
    ensures ParseRef(s) == Some(r) <==> exists f :: Grammatical(f) && Spell(f) == s && Denotes(f) == Some(r)
  {
    if Match(s).Some? {
      MatchSound(s);
    }
    forall f | Grammatical(f) && Spell(f) == s ensures Match(s) == Some(f) {
      MatchComplete(f);
    }
  }

  // ----- printing -----

  predicate SingleVerse(r: RefRange) {
    r.more == 0
  }

  /** Parsing a printed single verse gives it back. */
  lemma PrintParse(v: VerseId)
    requires BookCode(v.book)
    ensures ParseRef(FormatBcv(v)) == Some(RefRange(v.book, v.chapter, v.verse, 0))
  {
    var f := Fields(v.book, Digits(v.chapter), Digits(v.verse), "");
    assert Spell(f) == FormatBcv(v);
    MatchComplete(f);
    DigitsDenote(v);
  }

  lemma DigitsDenote(v: VerseId)
    ensures Denotes(Fields(v.book, Digits(v.chapter), Digits(v.verse), "")) == Some(RefRange(v.book, v.chapter, v.verse, 0))
  {
  }

  /** Same-coordinate comparison of printed verses is comparison of coordinates, whatever the book code. */
  lemma PrintInjective(v: VerseId, w: VerseId)
    ensures FormatBcv(v) == FormatBcv(w) <==> v.book == w.book && v.chapter == w.chapter && v.verse == w.verse
  {
    if FormatBcv(v) == FormatBcv(w) {
      TailsAgree(v.book + " " + Digits(v.chapter), Digits(v.verse), w.book + " " + Digits(w.chapter), Digits(w.verse), ':');
      TailsAgree(v.book, Digits(v.chapter), w.book, Digits(w.chapter), ' ');
      assert Number(Digits(v.verse)) == Number(Digits(w.verse));
      assert Number(Digits(v.chapter)) == Number(Digits(w.chapter));
    }
  }

  /** Position of the last character that is not a digit, or -1. */
  function LastMark(s: string): int {
    if s == "" then -1 else if Digit(s[|s| - 1]) then LastMark(s[..|s| - 1]) else |s| - 1
  }

  lemma {:induction false} LastMarkOf(a: string, mark: char, d: string)
    requires !Digit(mark) && forall i :: 0 <= i < |d| ==> Digit(d[i])
    ensures LastMark(a + [mark] + d) == |a|
  {
    var s := a + [mark] + d;
    if d != "" {
      LastMarkOf(a, mark, d[..|d| - 1]);
      assert s[..|s| - 1] == a + [mark] + d[..|d| - 1];
    }
  }

  lemma TailsAgree(a: string, d: string, b: string, e: string, mark: char)
    requires AllDigits(d) && AllDigits(e) && !Digit(mark)
    requires a + [mark] + d == b + [mark] + e
    ensures a == b && d == e
  {
    LastMarkOf(a, mark, d);
    LastMarkOf(b, mark, e);
    var s, t := a + [mark] + d, b + [mark] + e;
    assert s[..|a|] == a && t[..|b|] == b;
    assert s[|a| + 1..] == d && t[|b| + 1..] == e;
  }

  // ----- index keys -----

  /** The characters Python's `str.strip` removes. */
  predicate Space(c: char) {
    || '\t' <= c <= '\r' || '\U{1C}' <= c <= ' ' || c == '\U{85}' || c == '\U{A0}' || c == '\U{1680}'
    || '\U{2000}' <= c <= '\U{200A}' || c == '\U{2028}' || c == '\U{2029}' || c == '\U{202F}'
    || c == '\U{205F}' || c == '\U{3000}'
  }

  function StripLeft(s: string): string {
    if s != "" && Space(s[0]) then StripLeft(s[1..]) else s
  }

  function StripRight(s: string): string {
    if s != "" && Space(s[|s| - 1]) then StripRight(s[..|s| - 1]) else s
  }

  function Strip(s: string): string {
    StripRight(StripLeft(s))
  }

  /** The key an index stores a reference under: the printed verse, or none for ranges and unparseable strings. */
  function IndexKey(ref: string): Option<string> {
    match ParseRef(Strip(ref))
    case None => None
    case Some(r) => if SingleVerse(r) then Some(FormatBcv(Whole(r, r.first))) else None
  }

  lemma ParsedBook(s: string)
    requires ParseRef(s).Some?
    ensures BookCode(ParseRef(s).value.book)
  {
    MatchSound(s);
  }

  lemma PrintedStrips(v: VerseId)
    requires BookCode(v.book)
    ensures Strip(FormatBcv(v)) == FormatBcv(v)
  {
    var s := FormatBcv(v);
    assert s[0] == v.book[0] && s[|s| - 1] == Digits(v.verse)[|Digits(v.verse)| - 1];
  }

  /** A key is its own key. */
  lemma KeyIdempotent(ref: string)
    requires IndexKey(ref).Some?
    ensures IndexKey(IndexKey(ref).value) == IndexKey(ref)
  {
    var r := ParseRef(Strip(ref)).value;
    var v := Whole(r, r.first);
    ParsedBook(Strip(ref));
    PrintedStrips(v);
    PrintParse(v);
  }

  /** Two references share a key exactly when, trimmed, they parse to the same single verse. */
  lemma SharedKey(x: string, y: string)
    ensures IndexKey(x).Some? && IndexKey(x) == IndexKey(y) <==>
            ParseRef(Strip(x)).Some? && SingleVerse(ParseRef(Strip(x)).value) && ParseRef(Strip(x)) == ParseRef(Strip(y))
  {
    if IndexKey(x).Some? && IndexKey(x) == IndexKey(y) {
      var r, q := ParseRef(Strip(x)).value, ParseRef(Strip(y)).value;
      PrintInjective(Whole(r, r.first), Whole(q, q.first));
    }
  }
}
