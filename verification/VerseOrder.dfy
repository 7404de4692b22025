/** The emission order of verses, and sorted lists without repetition. */
module VerseOrder {
  import opened Coordinates

  /** Text in code-point order. */
  predicate TextLe(s: string, t: string) {
    if s == "" then true
    else if t == "" then false
    else s[0] < t[0] || (s[0] == t[0] && TextLe(s[1..], t[1..]))
  }

  lemma {:induction false} TextLeOrder(s: string, t: string)
    ensures TextLe(s, t) || TextLe(t, s)
    ensures TextLe(s, t) && TextLe(t, s) ==> s == t
    ensures TextLe(s, s)
  {
    if s != "" {
      TextLeOrder(s[1..], s[1..]);
    }
    if s != "" && t != "" && s[0] == t[0] {
      TextLeOrder(s[1..], t[1..]);
      assert s == [s[0]] + s[1..] && t == [t[0]] + t[1..];
    }
  }

  lemma {:induction false} TextLeTrans(s: string, t: string, u: string)
    requires TextLe(s, t) && TextLe(t, u)
    ensures TextLe(s, u)
  {
    if s != "" && s[0] == t[0] && t[0] == u[0] {
      TextLeTrans(s[1..], t[1..], u[1..]);
    }
  }

  function PartText(v: VerseId): string {
    if v.part.Some? then v.part.value else ""
  }

  /** Book, chapter, verse, part; a whole verse stands before a verse whose part is the empty text. */
  predicate VerseLe(v: VerseId, w: VerseId) {
    if v.book != w.book then TextLe(v.book, w.book)
    else if v.chapter != w.chapter then v.chapter < w.chapter
    else if v.verse != w.verse then v.verse < w.verse
    else if PartText(v) != PartText(w) then TextLe(PartText(v), PartText(w))
    else v.part.Some? ==> w.part.Some?
  }

  lemma VerseLeOrder(v: VerseId, w: VerseId)
    ensures VerseLe(v, w) || VerseLe(w, v)
    ensures VerseLe(v, w) && VerseLe(w, v) ==> v == w
  {
    TextLeOrder(v.book, w.book);
    TextLeOrder(PartText(v), PartText(w));
  }

  lemma VerseLeTrans(v: VerseId, w: VerseId, u: VerseId)
    requires VerseLe(v, w) && VerseLe(w, u)
    ensures VerseLe(v, u)
  {
    if v.book != w.book || w.book != u.book {
      TextLeOrder(v.book, w.book);
      if v.book == w.book || w.book == u.book {
      } else {
        TextLeTrans(v.book, w.book, u.book);
      }
    } else if v.chapter == w.chapter == u.chapter && v.verse == w.verse == u.verse {
      TextLeOrder(PartText(v), PartText(w));
      if PartText(v) != PartText(w) && PartText(w) != PartText(u) {
        TextLeTrans(PartText(v), PartText(w), PartText(u));
      }
    }
  }

  ghost predicate Ordered(vs: seq<VerseId>) {
    forall i, j :: 0 <= i < j < |vs| ==> VerseLe(vs[i], vs[j]) && vs[i] != vs[j]
  }

  function InsertVerse(v: VerseId, vs: seq<VerseId>): (r: seq<VerseId>)
    ensures forall w :: w in r <==> w == v || w in vs
  {
    if vs == [] then [v]
    else if v == vs[0] then vs
    else if VerseLe(v, vs[0]) then [v] + vs
    else [vs[0]] + InsertVerse(v, vs[1..])
  }

  /** The distinct verses of a list in emission order. */
  function SortVerses(vs: seq<VerseId>): (r: seq<VerseId>)
    ensures forall w :: w in r <==> w in vs
  {
    if vs == [] then [] else InsertVerse(vs[|vs| - 1], SortVerses(vs[..|vs| - 1]))
  }

  lemma {:induction false} InsertOrdered(v: VerseId, vs: seq<VerseId>)
    requires Ordered(vs)
    ensures Ordered(InsertVerse(v, vs))
  {
    if vs != [] && v != vs[0] {
      VerseLeOrder(v, vs[0]);
      if VerseLe(v, vs[0]) {
        forall j | 0 <= j < |vs| ensures VerseLe(v, vs[j]) && v != vs[j] {
          if j > 0 {
            VerseLeTrans(v, vs[0], vs[j]);
            VerseLeOrder(vs[0], vs[j]);
          }
        }
      } else {
        InsertOrdered(v, vs[1..]);
        var t := InsertVerse(v, vs[1..]);
        forall j | 0 <= j < |t| ensures VerseLe(vs[0], t[j]) && vs[0] != t[j] {
          assert t[j] in t;
        }
      }
    }
  }

  lemma {:induction false} SortOrdered(vs: seq<VerseId>)
    ensures Ordered(SortVerses(vs))
  {
    if vs != [] {
      SortOrdered(vs[..|vs| - 1]);
      InsertOrdered(vs[|vs| - 1], SortVerses(vs[..|vs| - 1]));
    }
  }

  /** The sorted list depends on the set of verses only. */
  lemma {:induction false} OrderedUnique(vs: seq<VerseId>, ws: seq<VerseId>)
    requires Ordered(vs) && Ordered(ws) && forall v :: v in vs <==> v in ws
    ensures vs == ws
  {
    if vs != [] {
      assert vs[0] in vs;
    }
    if ws != [] {
      assert ws[0] in ws;
    }
    if vs != [] && ws != [] {
      HeadIsLeast(vs, ws[0]);
      HeadIsLeast(ws, vs[0]);
      VerseLeOrder(vs[0], ws[0]);
      forall v ensures v in vs[1..] <==> v in ws[1..] {
        TailMembers(vs, v);
        TailMembers(ws, v);
      }
      OrderedUnique(vs[1..], ws[1..]);
      assert vs == [vs[0]] + vs[1..] && ws == [ws[0]] + ws[1..];
    }
  }

  lemma HeadIsLeast(vs: seq<VerseId>, v: VerseId)
    requires Ordered(vs) && v in vs
    ensures VerseLe(vs[0], v)
  {
    VerseLeOrder(vs[0], vs[0]);
  }

  lemma TailMembers(vs: seq<VerseId>, v: VerseId)
    requires Ordered(vs) && vs != []
    ensures v in vs[1..] <==> v in vs && v != vs[0]
  {
  }

  /** List a set in emission order. */
  method SortSet(s: set<VerseId>) returns (vs: seq<VerseId>)
    ensures Ordered(vs) && forall v :: v in vs <==> v in s
  {
    vs := [];
    var rest := s;
    while rest != {}
      invariant rest <= s && Ordered(vs)
      invariant forall v :: v in vs <==> v in s && v !in rest
      decreases rest
    {
      var v :| v in rest;
      rest := rest - {v};
      InsertOrdered(v, vs);
      vs := InsertVerse(v, vs);
    }
  }
}
