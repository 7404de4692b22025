/** Batch resolve: a stored payload where there is one, live resolve everywhere else. */
module BatchAnswers {
  import opened Options
  import opened Coordinates
  import opened References
  import opened IndexStores
  import opened IndexProtocol
  import opened IndexCoherence

  /** Resolve on parsed references; none stands for an error entry. */
  type Resolver<!A> = (Inputs, Inputs, RefRange) -> Option<A>

  /** The live path parses the reference as it was sent. */
  function Live<A>(resolve: Resolver<A>, source: Inputs, target: Inputs, ref: string): Option<A> {
    match ParseRef(ref)
    case None => None
    case Some(r) => resolve(source, target, r)
  }

  /** What a mapping row holds: the answer for its key, resolved from the inputs it is stamped with. */
  function Payload<A>(resolve: Resolver<A>, stamp: Stamp, key: string): Option<A> {
    Live(resolve, stamp.source, stamp.target, key)
  }

  /** The usable payload of pair `i`, `j` under a key. */
  function Stored<A>(st: Store, resolve: Resolver<A>, i: nat, j: nat, key: string): Option<A> {
    if MapKey(i, j, key) in st.mappings then Payload(resolve, st.mappings[MapKey(i, j, key)], key) else None
  }

  /** A stored payload wins; without one the reference is resolved live. */
  function Entry<A>(stored: string -> Option<A>, live: string -> Option<A>, ref: string): Option<A> {
    match IndexKey(ref)
    case None => live(ref)
    case Some(key) => if stored(key).Some? then stored(key) else live(ref)
  }

  function Answer<A>(st: Store, resolve: Resolver<A>, source: Inputs, target: Inputs, pair: Option<(nat, nat)>, ref: string): Option<A> {
    Entry(if pair.None? then (key: string) => None
          else (key: string) => Stored(st, resolve, pair.value.0, pair.value.1, key),
          (r: string) => Live(resolve, source, target, r), ref)
  }

  function KeysOf(refs: seq<string>): seq<string> {
    if refs == [] then []
    else
      var key := IndexKey(refs[|refs| - 1]);
      KeysOf(refs[..|refs| - 1]) + (if key.Some? then [key.value] else [])
  }

  lemma {:induction false} KeyListed(refs: seq<string>, n: nat, key: string)
    requires n < |refs| && IndexKey(refs[n]) == Some(key)
    ensures key in KeysOf(refs)
  {
    if n < |refs| - 1 {
      KeyListed(refs[..|refs| - 1], n, key);
    }
  }

  method Keys(refs: seq<string>) returns (keys: seq<string>)
    ensures keys == KeysOf(refs)
  {
    keys := [];
    for n := 0 to |refs|
      invariant keys == KeysOf(refs[..n])
    {
      assert refs[..n + 1][..n] == refs[..n];
      var key := IndexKey(refs[n]);
      if key.Some? {
        keys := keys + [key.value];
      }
    }
    assert refs[..|refs|] == refs;
  }

  /** `payloads` holds the usable payloads of `keys`. */
  ghost predicate Loaded<A>(payloads: map<string, A>, stored: string -> Option<A>, keys: seq<string>) {
    && (forall key :: key in payloads <==> key in keys && stored(key).Some?)
    && (forall key :: key in payloads ==> stored(key) == Some(payloads[key]))
  }

  /** Bulk-load the usable payloads under the given keys. */
  method LoadPayloads<A>(stored: string -> Option<A>, keys: seq<string>) returns (loaded: map<string, A>)
    ensures Loaded(loaded, stored, keys)
  {
    loaded := map[];
    for n := 0 to |keys|
      invariant Loaded(loaded, stored, keys[..n])
    {
      assert keys[..n + 1] == keys[..n] + [keys[n]];
      var payload := stored(keys[n]);
      if payload.Some? {
        loaded := loaded[keys[n] := payload.value];
      }
    }
    assert keys[..|keys|] == keys;
  }

  method ResolveEntry<A>(payloads: map<string, A>, stored: string -> Option<A>, live: string -> Option<A>,
                         ghost refs: seq<string>, ghost n: nat, ref: string) returns (entry: Option<A>)
    requires n < |refs| && ref == refs[n] && Loaded(payloads, stored, KeysOf(refs))
    ensures entry == Entry(stored, live, ref)
  {
    var key := IndexKey(ref);
    if key.Some? {
      KeyListed(refs, n, key.value);
      if key.value in payloads {
        return Some(payloads[key.value]);
      }
    }
    entry := live(ref);
  }

  method ResolveEntries<A>(stored: string -> Option<A>, live: string -> Option<A>, refs: seq<string>)
    returns (entries: seq<Option<A>>)
    ensures |entries| == |refs|
    ensures forall n :: 0 <= n < |refs| ==> entries[n] == Entry(stored, live, refs[n])
  {
    var keys := Keys(refs);
    var payloads := LoadPayloads(stored, keys);
    entries := [];
    for n := 0 to |refs|
      invariant |entries| == n
      invariant forall m :: 0 <= m < n ==> entries[m] == Entry(stored, live, refs[m])
    {
      var entry := ResolveEntry(payloads, stored, live, refs, n, refs[n]);
      entries := entries + [entry];
    }
  }

  // ----- agreement -----

  lemma {:induction false} StripChanges(s: string)
    ensures Strip(s) != s ==> s != "" && (Space(s[0]) || Space(s[|s| - 1]))
  {
  }

  lemma SpellEnds(f: Fields)
    requires Grammatical(f)
    ensures var s := Spell(f); s != "" && !Space(s[0]) && !Space(s[|s| - 1])
  {
    var s := Spell(f);
    var last := if f.end == "" then f.start else f.end;
    assert s[0] == f.book[0];
    assert s[|s| - 1] == VersesText(f)[|VersesText(f)| - 1] == last[|last| - 1];
    assert Digit(last[|last| - 1]) && BookChar(f.book[0]);
  }

  /** A reference with surrounding whitespace is not in the grammar. */
  lemma ParsedIsStripped(ref: string)
    requires ParseRef(ref).Some?
    ensures Strip(ref) == ref
  {
    MatchSound(ref);
    SpellEnds(Match(ref).value);
    StripChanges(ref);
  }

  /** The stored key parses to what the trimmed reference parses to. */
  lemma KeyParses(ref: string)
    requires IndexKey(ref).Some?
    ensures ParseRef(IndexKey(ref).value) == ParseRef(Strip(ref)) && ParseRef(Strip(ref)).Some?
  {
    var r := ParseRef(Strip(ref)).value;
    ParsedBook(Strip(ref));
    PrintParse(Whole(r, r.first));
  }

  /**
   * Against an up-to-date row the answer with the index equals the answer without it exactly when the
   * reference has no surrounding whitespace: the lookup trims, the live path does not.
   */
  lemma IndexedAnswerIff<A>(st: Store, resolve: Resolver<A>, source: Inputs, target: Inputs, i: nat, j: nat, ref: string)
    requires IndexKey(ref).Some? && MapKey(i, j, IndexKey(ref).value) in st.mappings
    requires st.mappings[MapKey(i, j, IndexKey(ref).value)] == Stamp(source, target)
    requires Stored(st, resolve, i, j, IndexKey(ref).value).Some?
    ensures Answer(st, resolve, source, target, Some((i, j)), ref) == Answer(st, resolve, source, target, None, ref)
            <==> Strip(ref) == ref
  {
    KeyParses(ref);
    if ParseRef(ref).Some? {
      ParsedIsStripped(ref);
    }
  }

  /** Where no payload is stored the index changes nothing. */
  lemma NoRowNoChange<A>(st: Store, resolve: Resolver<A>, source: Inputs, target: Inputs, i: nat, j: nat, ref: string)
    requires IndexKey(ref).Some? ==> Stored(st, resolve, i, j, IndexKey(ref).value).None?
    ensures Answer(st, resolve, source, target, Some((i, j)), ref) == Answer(st, resolve, source, target, None, ref)
  {
  }

  predicate Ready(w: World, i: nat) {
    i in w.store.rows && w.store.rows[i].status == IndexStores.Ready
  }

  /**
   * In every run whose input changes are hooked, a batch answer with a ready pair equals the answer without
   * it exactly when no payload is stored for the reference or the reference has no surrounding whitespace.
   */
  lemma {:induction false} BatchAgreesWithLive<A>(es: seq<Event>, resolve: Resolver<A>, i: nat, j: nat, ref: string)
    requires HookedRun(es) && Ready(Run(Fresh(), es), i) && Ready(Run(Fresh(), es), j)
    ensures var w := Run(Fresh(), es);
            var source, target := Current(w, w.store.rows[i].pair), Current(w, w.store.rows[j].pair);
            Answer(w.store, resolve, source, target, Some((i, j)), ref) == Answer(w.store, resolve, source, target, None, ref)
            <==> (IndexKey(ref).Some? && Stored(w.store, resolve, i, j, IndexKey(ref).value).Some? ==> Strip(ref) == ref)
  {
    var w := Run(Fresh(), es);
    var source, target := Current(w, w.store.rows[i].pair), Current(w, w.store.rows[j].pair);
    if IndexKey(ref).Some? && Stored(w.store, resolve, i, j, IndexKey(ref).value).Some? {
      assert Served(w, i, j, IndexKey(ref).value);
      CacheAgreesWithLive(es, i, j, IndexKey(ref).value);
      IndexedAnswerIff(w.store, resolve, source, target, i, j, ref);
    } else {
      NoRowNoChange(w.store, resolve, source, target, i, j, ref);
    }
  }
}
