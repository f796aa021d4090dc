/**
 The clean-up of the text that TextToSpeech/impl/TTSURLConstructer.cpp sends to the speech
 endpoint: six replacement passes and one over successive punctuation, all in place.
 Characters are classified as in the C locale.
 */
module Sanitizer {

  import opened Wrappers

  predicate IsPunct(c: char) {
    33 <= c as int <= 47 || 58 <= c as int <= 64 || 91 <= c as int <= 96 || 123 <= c as int <= 126
  }

  predicate IsSpace(c: char) { 9 <= c as int <= 13 || c == ' ' }

  predicate IsSilentPunctuation(c: char) { c in "?!:;-()" }

  /** The character classes of the C locale, and the silent punctuation, one by one. */
  lemma Classes(c: char)
    ensures IsPunct(c) <==> c in "!\"#$%&'()*+,-./:;<=>?@[\\]^_`{|}~"
    ensures IsSpace(c) <==> c as int in {9, 10, 11, 12, 13, 32}
    ensures IsSilentPunctuation(c) <==> c in {'?', '!', ':', ';', '-', '(', ')'}
  {
  }

  // ---------------------------------------------------------------------------------
  // Replacement
  // ---------------------------------------------------------------------------------

  // A neighbour that isolates: punctuation, white space, or the end of the text.
  predicate Edge(c: Option<char>) {
    c == None || IsPunct(c.value) || IsSpace(c.value)
  }

  function First(t: string): Option<char> { if t == "" then None else Some(t[0]) }

  function Last(t: string): Option<char> { if t == "" then None else Some(t[|t| - 1]) }

  predicate IsolatedHere(prev: Option<char>, t: string)
    requires t != ""
  {
    Edge(prev) && Edge(First(t[1..]))
  }

  // The rest of a text after prev, with what is found replaced. prev may itself be new.
  function Swap(prev: Option<char>, t: string, search: string, word: string, always: bool): string
    requires search != ""
    decreases |t|
  {
    if t == "" then ""
    else if search <= t then
      var put := if always || IsolatedHere(prev, t) then word else search;
      put + Swap(Last(put), t[|search|..], search, word, always)
    else [t[0]] + Swap(Some(t[0]), t[1..], search, word, always)
  }

  const SCHEME := "://"
  const SYMBOLS := "$#&|/"

  function WordFor(c: char): string
    requires c in SYMBOLS
  {
    if c == '$' then "dollar"
    else if c == '#' then "pound"
    else if c == '&' then "and"
    else if c == '|' then "bar"
    else "or"
  }

  function SpellScheme(t: string): string { Swap(None, t, SCHEME, " colon slash slash ", true) }

  function SpellSymbol(t: string, c: char): string
    requires c in SYMBOLS
  {
    Swap(None, t, [c], WordFor(c), false)
  }

  function SixPasses(t: string): string {
    SpellSymbol(SpellSymbol(SpellSymbol(SpellSymbol(SpellSymbol(SpellScheme(t), '$'), '#'), '&'), '|'), '/')
  }

  // c stands alone somewhere in t, which comes after prev.
  predicate Isolated(prev: Option<char>, t: string, c: char)
    decreases |t|
  {
    t != "" && ((t[0] == c && IsolatedHere(prev, t)) || Isolated(Some(t[0]), t[1..], c))
  }

  predicate Contains(t: string, search: string) {
    search <= t || (t != "" && Contains(t[1..], search))
  }

  predicate Plain(word: string) {
    word != "" && forall i :: 0 <= i < |word| ==> !IsPunct(word[i]) && !IsSpace(word[i])
  }

  lemma WordsArePlain(c: char)
    requires c in SYMBOLS
    ensures Plain(WordFor(c)) && IsPunct(c) && !IsSpace(c)
  {
  }

  // The pass for one symbol, letter by letter.
  function Spelled(prev: Option<char>, t: string, c: char, word: string): string
    decreases |t|
  {
    if t == "" then ""
    else if t[0] == c && IsolatedHere(prev, t) then word + Spelled(Last(word), t[1..], c, word)
    else [t[0]] + Spelled(Some(t[0]), t[1..], c, word)
  }

  lemma {:induction false} SwapIsSpelled(prev: Option<char>, t: string, c: char, word: string)
    ensures Swap(prev, t, [c], word, false) == Spelled(prev, t, c, word)
    decreases |t|
  {
    if t != "" {
      assert [c] <= t <==> t[0] == c;
      if t[0] == c {
        var put := if IsolatedHere(prev, t) then word else [c];
        SwapIsSpelled(Last(put), t[1..], c, word);
      } else {
        SwapIsSpelled(Some(t[0]), t[1..], c, word);
      }
    }
  }

  lemma SpelledFirst(prev: Option<char>, t: string, c: char, word: string)
    requires Plain(word)
    ensures Edge(First(Spelled(prev, t, c, word))) ==> Edge(First(t))
  {
  }

  // Going over a word of letters.
  lemma {:induction false} OverWord(prev: Option<char>, word: string, rest: string, d: char)
    requires IsPunct(d) && Plain(word)
    ensures Isolated(prev, word + rest, d) <==> Isolated(Last(word), rest, d)
    decreases |word|
  {
    var t := word + rest;
    assert t[0] == word[0] && t[1..] == word[1..] + rest;
    if |word| > 1 {
      OverWord(Some(word[0]), word[1..], rest, d);
      assert Last(word[1..]) == Last(word);
    } else {
      assert word[1..] + rest == rest;
    }
  }

  /**
   After its pass a symbol is nowhere isolated in the new text, though the pass judged it on the
   half-rewritten one.
   */
  lemma {:induction false} NoneLeft(prev: Option<char>, t: string, c: char, word: string)
    requires Plain(word) && IsPunct(c)
    ensures !Isolated(prev, Spelled(prev, t, c, word), c)
    decreases |t|
  {
    if t != "" {
      var out := Spelled(prev, t, c, word);
      if t[0] == c && IsolatedHere(prev, t) {
        var rest := Spelled(Last(word), t[1..], c, word);
        NoneLeft(Last(word), t[1..], c, word);
        OverWord(prev, word, rest, c);
      } else {
        var rest := Spelled(Some(t[0]), t[1..], c, word);
        NoneLeft(Some(t[0]), t[1..], c, word);
        SpelledFirst(Some(t[0]), t[1..], c, word);
        assert out == [t[0]] + rest && out[1..] == rest;
      }
    }
  }

  // A pass isolates nothing that was not isolated. p precedes the new text and q the old one.
  lemma {:induction false} IsolatesNothing(p: Option<char>, q: Option<char>, t: string, c: char, word: string, d: char)
    requires Plain(word) && IsPunct(d) && (Edge(p) ==> Edge(q))
    ensures Isolated(p, Spelled(p, t, c, word), d) ==> Isolated(q, t, d)
    decreases |t|
  {
    if t != "" {
      var out := Spelled(p, t, c, word);
      if t[0] == c && IsolatedHere(p, t) {
        var rest := Spelled(Last(word), t[1..], c, word);
        IsolatesNothing(Last(word), Some(t[0]), t[1..], c, word, d);
        OverWord(p, word, rest, d);
      } else {
        var rest := Spelled(Some(t[0]), t[1..], c, word);
        IsolatesNothing(Some(t[0]), Some(t[0]), t[1..], c, word, d);
        SpelledFirst(Some(t[0]), t[1..], c, word);
        assert out == [t[0]] + rest && out[1..] == rest;
      }
    }
  }

  // Without an isolated symbol there is nothing to do.
  lemma {:induction false} NothingToSpell(prev: Option<char>, t: string, c: char, word: string)
    requires !Isolated(prev, t, c)
    ensures Spelled(prev, t, c, word) == t
    decreases |t|
  {
    if t != "" {
      NothingToSpell(Some(t[0]), t[1..], c, word);
    }
  }

  // "://" has an isolated slash.
  lemma {:induction false} SchemeHasIsolatedSlash(prev: Option<char>, t: string)
    requires Contains(t, SCHEME)
    ensures Isolated(prev, t, '/')
    decreases |t|
  {
    if SCHEME <= t {
      assert t[0] == ':' && t[1] == '/' && t[2] == '/';
      assert t[1..][0] == '/' && t[1..][1..][0] == '/';
      assert IsolatedHere(Some(t[0]), t[1..]);
    } else {
      SchemeHasIsolatedSlash(Some(t[0]), t[1..]);
    }
  }

  lemma {:induction false} NoSchemeNoChange(prev: Option<char>, t: string, word: string)
    requires !Contains(t, SCHEME)
    ensures Swap(prev, t, SCHEME, word, true) == t
    decreases |t|
  {
    if t != "" {
      NoSchemeNoChange(Some(t[0]), t[1..], word);
    }
  }

  predicate NoneIsolated(t: string) {
    forall c :: c in SYMBOLS ==> !Isolated(None, t, c)
  }

  lemma SymbolPass(t: string, c: char)
    requires c in SYMBOLS
    ensures var u := SpellSymbol(t, c);
      !Isolated(None, u, c) && forall d :: d in SYMBOLS && !Isolated(None, t, d) ==> !Isolated(None, u, d)
  {
    WordsArePlain(c);
    SwapIsSpelled(None, t, c, WordFor(c));
    NoneLeft(None, t, c, WordFor(c));
    forall d | d in SYMBOLS && !Isolated(None, t, d) ensures !Isolated(None, SpellSymbol(t, c), d) {
      WordsArePlain(d);
      IsolatesNothing(None, None, t, c, WordFor(c), d);
    }
  }

  lemma SymbolPassIdle(t: string, c: char)
    requires c in SYMBOLS && !Isolated(None, t, c)
    ensures SpellSymbol(t, c) == t
  {
    SwapIsSpelled(None, t, c, WordFor(c));
    NothingToSpell(None, t, c, WordFor(c));
  }

  // ---------------------------------------------------------------------------------
  // What is read out
  // ---------------------------------------------------------------------------------

  lemma {:induction false} NotThereNotIsolated(prev: Option<char>, t: string, c: char)
    requires c !in t
    ensures !Isolated(prev, t, c)
    decreases |t|
  {
    if t != "" {
      assert t[0] in t && forall x :: x in t[1..] ==> x in t;
      NotThereNotIsolated(Some(t[0]), t[1..], c);
    }
  }

  lemma Behind(a: string, mid: string, b: string)
    requires a != ""
    ensures (a + mid + b)[0] == a[0] && (a + mid + b)[1..] == a[1..] + mid + b
    ensures [a[0]] + (a[1..] + mid + b) == a + mid + b
    ensures forall x :: x in a[1..] ==> x in a
  {
  }

  lemma {:induction false} SpelledAfter(prev: Option<char>, a: string, b: string, c: char, word: string)
    requires c !in a && c !in b && Plain(word) && IsPunct(c)
    requires Edge(if a == "" then prev else Last(a)) && Edge(First(b))
    ensures Spelled(prev, a + [c] + b, c, word) == a + word + b
    decreases |a|
  {
    var t := a + [c] + b;
    if a == "" {
      assert t[1..] == b && "" + word + b == word + b;
      NotThereNotIsolated(Last(word), b, c);
      NothingToSpell(Last(word), b, c, word);
    } else {
      Behind(a, [c], b);
      Behind(a, word, b);
      SpelledAfter(Some(a[0]), a[1..], b, c, word);
    }
  }

  /** A symbol that stands alone is read as its word, and nothing else is touched. */
  lemma SymbolsReadAs(a: string, b: string, c: char)
    requires c in SYMBOLS && c !in a && c !in b && Edge(Last(a)) && Edge(First(b))
    ensures c == '$' ==> SpellSymbol(a + [c] + b, c) == a + "dollar" + b
    ensures c == '#' ==> SpellSymbol(a + [c] + b, c) == a + "pound" + b
    ensures c == '&' ==> SpellSymbol(a + [c] + b, c) == a + "and" + b
    ensures c == '|' ==> SpellSymbol(a + [c] + b, c) == a + "bar" + b
    ensures c == '/' ==> SpellSymbol(a + [c] + b, c) == a + "or" + b
  {
    WordsArePlain(c);
    SwapIsSpelled(None, a + [c] + b, c, WordFor(c));
    SpelledAfter(None, a, b, c, WordFor(c));
  }

  lemma {:induction false} SchemeAfter(prev: Option<char>, a: string, b: string, word: string)
    requires ':' !in a && ':' !in b
    ensures Swap(prev, a + "://" + b, SCHEME, word, true) == a + word + b
    decreases |a|
  {
    var t := a + "://" + b;
    if a == "" {
      assert t[..3] == SCHEME && SCHEME <= t && t[3..] == b && "" + word + b == word + b;
      NoColonNoScheme(b);
      NoSchemeNoChange(Last(word), b, word);
    } else {
      Behind(a, "://", b);
      Behind(a, word, b);
      SchemeAfter(Some(a[0]), a[1..], b, word);
    }
  }

  lemma {:induction false} NoColonNoScheme(t: string)
    requires ':' !in t
    ensures !Contains(t, SCHEME)
  {
    if t != "" {
      assert t[0] in t && forall x :: x in t[1..] ==> x in t;
      NoColonNoScheme(t[1..]);
    }
  }

  /** A "://" is read as colon slash slash, wherever it stands. */
  lemma SchemeReadAs(a: string, b: string)
    requires ':' !in a && ':' !in b
    ensures SpellScheme(a + "://" + b) == a + " colon slash slash " + b
  {
    SchemeAfter(None, a, b, " colon slash slash ");
  }

  // One pass over symbol i and then symbol j, or over what the pass for i has made of them.
  lemma PassOverTwo(i: nat, j: nat, k: nat, back: bool)
    requires i < j < |SYMBOLS| && k < |SYMBOLS|
    ensures var word := WordFor(SYMBOLS[i]);
      var both := if back then [SYMBOLS[j], SYMBOLS[i]] else [SYMBOLS[i], SYMBOLS[j]];
      var done := if back then [SYMBOLS[j]] + word else word + [SYMBOLS[j]];
      && (k < i ==> SpellSymbol(both, SYMBOLS[k]) == both)
      && (k == i ==> SpellSymbol(both, SYMBOLS[k]) == done)
      && (k > i ==> SpellSymbol(done, SYMBOLS[k]) == done)
  {
    var c, d, e := SYMBOLS[i], SYMBOLS[j], SYMBOLS[k];
    var word := WordFor(c);
    WordsArePlain(c);
    WordsArePlain(d);
    WordsArePlain(e);
    if k < i {
      var both := if back then [d, c] else [c, d];
      NotThereNotIsolated(None, both, e);
      SymbolPassIdle(both, e);
    } else if k == i {
      if back {
        assert [d] + [c] + "" == [d, c] && [d] + word + "" == [d] + word;
        SymbolsReadAs([d], "", c);
      } else {
        assert "" + [c] + [d] == [c, d] && "" + word + [d] == word + [d];
        SymbolsReadAs("", [d], c);
      }
    } else {
      NextToAWord(word, d, e, back);
      SymbolPassIdle(if back then [d] + word else word + [d], e);
    }
  }

  // A symbol next to a word is not isolated.
  lemma NextToAWord(word: string, d: char, e: char, back: bool)
    requires Plain(word) && IsPunct(d) && IsPunct(e)
    ensures !Isolated(None, if back then [d] + word else word + [d], e)
  {
    assert word + "" == word && !Edge(Last(word)) && !Edge(First(word));
    OverWord(Some(d), word, "", e);
    OverWord(None, word, [d], e);
    assert ([d] + word)[1..] == word && [d][1..] == "";
  }

  /** Of two symbols side by side only the one whose pass comes first is read out, whichever stands first. */
  lemma EarlierPassWins(i: nat, j: nat)
    requires i < j < |SYMBOLS|
    ensures SixPasses([SYMBOLS[i], SYMBOLS[j]]) == WordFor(SYMBOLS[i]) + [SYMBOLS[j]]
    ensures SixPasses([SYMBOLS[j], SYMBOLS[i]]) == [SYMBOLS[j]] + WordFor(SYMBOLS[i])
  {
    TwoSymbols(i, j, false);
    TwoSymbols(i, j, true);
  }

  lemma TwoSymbols(i: nat, j: nat, back: bool)
    requires i < j < |SYMBOLS|
    ensures SixPasses(if back then [SYMBOLS[j], SYMBOLS[i]] else [SYMBOLS[i], SYMBOLS[j]])
         == if back then [SYMBOLS[j]] + WordFor(SYMBOLS[i]) else WordFor(SYMBOLS[i]) + [SYMBOLS[j]]
  {
    var both := if back then [SYMBOLS[j], SYMBOLS[i]] else [SYMBOLS[i], SYMBOLS[j]];
    assert |SCHEME| == 3 && both[1..][1..] == "" && !Contains(both[1..][1..], SCHEME);
    assert !Contains(both[1..], SCHEME) && !Contains(both, SCHEME);
    NoSchemeNoChange(None, both, " colon slash slash ");
    PassOverTwo(i, j, 0, back);
    PassOverTwo(i, j, 1, back);
    PassOverTwo(i, j, 2, back);
    PassOverTwo(i, j, 3, back);
    PassOverTwo(i, j, 4, back);
  }

  lemma NoSchemeLeft(t: string)
    requires NoneIsolated(t)
    ensures !Contains(t, SCHEME)
  {
    assert '/' in SYMBOLS;
    if Contains(t, SCHEME) {
      SchemeHasIsolatedSlash(None, t);
    }
  }

  /** After the six passes no "://" is left and none of $ # & | / is isolated in the text that results. */
  lemma SixPassesClean(t: string)
    ensures NoneIsolated(SixPasses(t)) && !Contains(SixPasses(t), SCHEME)
  {
    var t0 := SpellScheme(t);
    var t1 := SpellSymbol(t0, '$');
    var t2 := SpellSymbol(t1, '#');
    var t3 := SpellSymbol(t2, '&');
    var t4 := SpellSymbol(t3, '|');
    SymbolPass(t0, '$');
    SymbolPass(t1, '#');
    SymbolPass(t2, '&');
    SymbolPass(t3, '|');
    SymbolPass(t4, '/');
    forall c | c in SYMBOLS ensures !Isolated(None, SixPasses(t), c) {
      assert c == '$' || c == '#' || c == '&' || c == '|' || c == '/';
    }
    NoSchemeLeft(SixPasses(t));
  }

  /** The six passes leave a text as it is exactly when no symbol is isolated in it. */
  lemma SixPassesIdle(t: string)
    ensures SixPasses(t) == t <==> NoneIsolated(t)
  {
    SixPassesClean(t);
    if NoneIsolated(t) {
      NoSchemeLeft(t);
      NoSchemeNoChange(None, t, " colon slash slash ");
      SymbolPassIdle(t, '$');
      SymbolPassIdle(t, '#');
      SymbolPassIdle(t, '&');
      SymbolPassIdle(t, '|');
      SymbolPassIdle(t, '/');
    }
  }

  /** Running the six passes again changes nothing. */
  lemma SixPassesTwice(t: string)
    ensures SixPasses(SixPasses(t)) == SixPasses(t)
  {
    SixPassesClean(t);
    SixPassesIdle(SixPasses(t));
  }

  // ---------------------------------------------------------------------------------
  // Successive punctuation
  // ---------------------------------------------------------------------------------

  function Before(done: string, rest: Option<string>): Option<string> {
    if rest == None then None else Some(done + rest.value)
  }

  // The outer loop on what lies ahead of it; None where it reads past the end.
  function Clean(t: string): Option<string>
    decreases |t|, 0
  {
    if t == "" then Some("")
    else if t[0] == '\"' then
      if |t| == 1 then None
      else if |t| == 2 then Some(t[1..])
      else Before(t[1..3], if IsPunct(t[2]) then Skip(t[3..]) else Clean(t[3..]))
    else Before(t[..1], if IsPunct(t[0]) then Skip(t[1..]) else Clean(t[1..]))
  }

  // The inner loop, after punctuation.
  function Skip(t: string): Option<string>
    decreases |t|, 1
  {
    if t != "" && IsSilentPunctuation(t[0]) then Skip(t[1..])
    else if t != "" && IsSpace(t[0]) then Before(t[..1], Skip(t[1..]))
    else Clean(t)
  }

  // Where the outer loop is: at a character it looks at, at the one that follows a quote it
  // has erased and that it passes over, or at the one after that.
  datatype Place = Top | PassedOver | Following

  function NextPlace(p: Place, c: char): Place {
    match p
    case Top => if c == '\"' then PassedOver else Top
    case PassedOver => Following
    case Following => Top
  }

  function PlaceAfter(p: Place, t: string): Place
    decreases |t|
  {
    if t == "" then p else PlaceAfter(NextPlace(p, t[0]), t[1..])
  }

  // A quote that the loop looks at is the last character.
  predicate Overruns(t: string) { PlaceAfter(Top, t) == PassedOver }

  lemma {:induction false} PlaceIn(p: Place, t: string, n: nat)
    requires n <= |t|
    ensures PlaceAfter(p, t) == PlaceAfter(PlaceAfter(p, t[..n]), t[n..])
    decreases n
  {
    if n > 0 {
      PlaceIn(NextPlace(p, t[0]), t[1..], n - 1);
      assert t[..n][1..] == t[1..][..n - 1] && t[1..][n - 1..] == t[n..];
    } else {
      assert t[..0] == "" && t[0..] == t;
    }
  }

  lemma {:induction false} SkipDefined(t: string)
    ensures Skip(t).Some? <==> !Overruns(t)
    decreases |t|, 1
  {
    if t != "" && (IsSilentPunctuation(t[0]) || IsSpace(t[0])) {
      SkipDefined(t[1..]);
    } else {
      CleanDefined(t);
    }
  }

  /** The loop reads past the end exactly when it reaches a double quote in the last place. */
  lemma {:induction false} CleanDefined(t: string)
    ensures Clean(t).Some? <==> !Overruns(t)
    decreases |t|, 0
  {
    if t != "" && t[0] == '\"' && |t| > 2 {
      assert t[1..][1..][1..] == t[3..] && t[1..][1..][0] == t[2];
      assert PlaceAfter(Top, t) == PlaceAfter(PassedOver, t[1..]);
      assert PlaceAfter(PassedOver, t[1..]) == PlaceAfter(Following, t[1..][1..]);
      assert PlaceAfter(Following, t[1..][1..]) == PlaceAfter(Top, t[3..]);
      SkipDefined(t[3..]);
      CleanDefined(t[3..]);
    } else if t != "" && t[0] != '\"' {
      SkipDefined(t[1..]);
      CleanDefined(t[1..]);
    } else if t != "" {
      assert PlaceAfter(Top, t) == PlaceAfter(PassedOver, t[1..]);
      if |t| == 2 {
        assert t[1..][1..] == "" && PlaceAfter(PassedOver, t[1..]) == PlaceAfter(Following, "");
      } else {
        assert t[1..] == "";
      }
    }
  }

  /** It does not when the text does not end in a double quote. */
  lemma OverrunsOnlyAtAQuote(t: string)
    requires t == "" || t[|t| - 1] != '\"'
    ensures Clean(t).Some?
  {
    CleanDefined(t);
    if t != "" {
      var n := |t| - 1;
      PlaceIn(Top, t, n);
      assert t[n..][0] == t[n] && t[n..][1..] == "";
    }
  }

  // u is t without some of its quotes and silent punctuation.
  predicate Deleted(t: string, u: string)
    decreases |t|
  {
    if t == "" then u == ""
    else (
      || (u != "" && u[0] == t[0] && Deleted(t[1..], u[1..]))
      || ((t[0] == '\"' || IsSilentPunctuation(t[0])) && Deleted(t[1..], u)))
  }

  lemma {:induction false} SameDeleted(t: string)
    ensures Deleted(t, t)
  {
    if t != "" {
      SameDeleted(t[1..]);
    }
  }

  lemma KeepOne(t: string, u: string)
    requires t != "" && Deleted(t[1..], u)
    ensures Deleted(t, t[..1] + u)
  {
    assert (t[..1] + u)[1..] == u;
  }

  lemma {:induction false} SkipDeletes(t: string)
    requires Skip(t).Some?
    ensures Deleted(t, Skip(t).value)
    decreases |t|, 1
  {
    if t != "" && IsSilentPunctuation(t[0]) {
      SkipDeletes(t[1..]);
    } else if t != "" && IsSpace(t[0]) {
      SkipDeletes(t[1..]);
      KeepOne(t, Skip(t[1..]).value);
    } else {
      CleanDeletes(t);
    }
  }

  /** Only quotes and silent punctuation are deleted; the rest stays, in order. */
  lemma {:induction false} CleanDeletes(t: string)
    requires Clean(t).Some?
    ensures Deleted(t, Clean(t).value)
    decreases |t|, 0
  {
    if t != "" && t[0] == '\"' {
      if |t| == 2 {
        SameDeleted(t[1..]);
      } else {
        var rest := if IsPunct(t[2]) then Skip(t[3..]) else Clean(t[3..]);
        if IsPunct(t[2]) {
          SkipDeletes(t[3..]);
        } else {
          CleanDeletes(t[3..]);
        }
        assert t[1..][1..][1..] == t[3..] && t[1..][1..][..1] == [t[2]];
        KeepOne(t[1..][1..], rest.value);
        KeepOne(t[1..], [t[2]] + rest.value);
        assert t[1..][..1] + ([t[2]] + rest.value) == t[1..3] + rest.value;
      }
    } else if t != "" {
      if IsPunct(t[0]) {
        SkipDeletes(t[1..]);
      } else {
        CleanDeletes(t[1..]);
      }
      KeepOne(t, (if IsPunct(t[0]) then Skip(t[1..]) else Clean(t[1..])).value);
    }
  }

  // No silent punctuation follows punctuation, with only white space between; `after`: punctuation came before.
  predicate Settled(after: bool, t: string)
    decreases |t|
  {
    t == ""
    || (if IsSpace(t[0]) then Settled(after, t[1..])
        else if IsPunct(t[0]) then !(after && IsSilentPunctuation(t[0])) && Settled(true, t[1..])
        else Settled(false, t[1..]))
  }

  predicate NoQuotes(t: string) { '\"' !in t }

  lemma SettledStep(after: bool, t: string, u: string)
    requires t != "" && !(after && IsSilentPunctuation(t[0]))
    requires Settled(if IsSpace(t[0]) then after else IsPunct(t[0]), u)
    ensures Settled(after, t[..1] + u)
  {
    assert (t[..1] + u)[1..] == u;
  }

  lemma {:induction false} SkipSettles(t: string)
    requires NoQuotes(t)
    ensures Skip(t).Some? && Settled(true, Skip(t).value) && NoQuotes(Skip(t).value)
    decreases |t|, 1
  {
    if t != "" && IsSilentPunctuation(t[0]) {
      SkipSettles(t[1..]);
    } else if t != "" && IsSpace(t[0]) {
      SkipSettles(t[1..]);
      SettledStep(true, t, Skip(t[1..]).value);
    } else {
      CleanSettles(t, true);
    }
  }

  /** Of a text without quotes, what results has no silent punctuation after punctuation. */
  lemma {:induction false} CleanSettles(t: string, after: bool)
    requires NoQuotes(t) && (after ==> t == "" || (!IsSpace(t[0]) && !IsSilentPunctuation(t[0])))
    ensures Clean(t).Some? && Settled(after, Clean(t).value) && NoQuotes(Clean(t).value)
    decreases |t|, 0
  {
    if t != "" {
      if IsPunct(t[0]) {
        SkipSettles(t[1..]);
        SettledStep(after, t, Skip(t[1..]).value);
      } else {
        CleanSettles(t[1..], false);
        SettledStep(after, t, Clean(t[1..]).value);
      }
    }
  }

  /**
   The same by positions: between punctuation and later silent punctuation there is a character that
   is not white space.
   */
  lemma {:induction false} SettledMeans(after: bool, t: string, i: nat, j: nat)
    requires Settled(after, t) && i < j < |t| && IsPunct(t[i]) && IsSilentPunctuation(t[j])
    ensures exists k :: i < k < j && !IsSpace(t[k])
    decreases |t|
  {
    if i > 0 {
      SettledMeans(if IsSpace(t[0]) then after else IsPunct(t[0]), t[1..], i - 1, j - 1);
      var k :| i - 1 < k < j - 1 && !IsSpace(t[1..][k]);
      assert t[k + 1] == t[1..][k];
    } else {
      AfterPunct(t[1..], j - 1);
      var k :| 0 <= k < j - 1 && !IsSpace(t[1..][k]);
      assert t[k + 1] == t[1..][k];
    }
  }

  lemma {:induction false} AfterPunct(t: string, j: nat)
    requires Settled(true, t) && j < |t| && IsSilentPunctuation(t[j])
    ensures exists k :: 0 <= k < j && !IsSpace(t[k])
    decreases |t|
  {
    if IsSpace(t[0]) {
      AfterPunct(t[1..], j - 1);
      var k :| 0 <= k < j - 1 && !IsSpace(t[1..][k]);
      assert t[k + 1] == t[1..][k];
    } else {
      assert !IsSilentPunctuation(t[0]);
      assert !IsSpace(t[0]) && 0 <= 0 < j;
    }
  }

  lemma {:induction false} SkipIdle(t: string)
    requires NoQuotes(t) && Settled(true, t)
    ensures Skip(t) == Some(t)
    decreases |t|, 1
  {
    if t != "" && IsSpace(t[0]) {
      SkipIdle(t[1..]);
      assert t[..1] + t[1..] == t;
    } else {
      CleanIdle(t, true);
    }
  }

  lemma {:induction false} CleanIdle(t: string, after: bool)
    requires NoQuotes(t) && Settled(after, t)
    ensures Clean(t) == Some(t)
    decreases |t|, 0
  {
    if t != "" {
      assert t[..1] + t[1..] == t;
      if IsPunct(t[0]) {
        SkipIdle(t[1..]);
      } else {
        CleanIdle(t[1..], IsSpace(t[0]) && after);
      }
    }
  }

  lemma {:induction false} DeletedShorter(t: string, u: string)
    requires Deleted(t, u)
    ensures |u| <= |t| && (|u| == |t| ==> u == t)
    decreases |t|
  {
    if t != "" {
      if u != "" && u[0] == t[0] && Deleted(t[1..], u[1..]) {
        DeletedShorter(t[1..], u[1..]);
        assert |u| == |t| ==> u == [u[0]] + u[1..] && t == [t[0]] + t[1..];
      } else {
        DeletedShorter(t[1..], u);
      }
    }
  }

  // After punctuation silent punctuation goes, so what Skip leaves as it was had none.
  lemma {:induction false} SkipKept(t: string)
    requires Skip(t) == Some(t)
    ensures NoQuotes(t) && Settled(true, t)
    decreases |t|, 1
  {
    if t != "" && IsSilentPunctuation(t[0]) {
      SkipDeletes(t[1..]);
      DeletedShorter(t[1..], t);
    } else if t != "" && IsSpace(t[0]) {
      assert Skip(t).value[1..] == Skip(t[1..]).value;
      SkipKept(t[1..]);
      assert t == [t[0]] + t[1..];
    } else {
      CleanKept(t, true);
    }
  }

  lemma {:induction false} CleanKept(t: string, after: bool)
    requires Clean(t) == Some(t) && (after ==> t == "" || (!IsSpace(t[0]) && !IsSilentPunctuation(t[0])))
    ensures NoQuotes(t) && Settled(after, t)
    decreases |t|, 0
  {
    if t != "" {
      if t[0] == '\"' {
        QuoteGoes(t);
      } else {
        var rest := if IsPunct(t[0]) then Skip(t[1..]) else Clean(t[1..]);
        assert Clean(t).value[1..] == rest.value;
        if IsPunct(t[0]) {
          SkipKept(t[1..]);
        } else {
          CleanKept(t[1..], false);
          SettledMore(t[1..], IsSpace(t[0]) && after);
        }
        assert t == [t[0]] + t[1..];
      }
    }
  }

  // A text that starts with neither white space nor silent punctuation does not care what came before.
  lemma SettledMore(t: string, after: bool)
    requires Settled(false, t) && (after ==> t == "" || (!IsSpace(t[0]) && !IsSilentPunctuation(t[0])))
    ensures Settled(after, t)
  {
  }

  lemma QuoteGoes(t: string)
    requires t != "" && t[0] == '\"' && Clean(t).Some?
    ensures |Clean(t).value| < |t|
  {
    if |t| > 2 {
      var rest := if IsPunct(t[2]) then Skip(t[3..]) else Clean(t[3..]);
      if IsPunct(t[2]) {
        SkipDeletes(t[3..]);
      } else {
        CleanDeletes(t[3..]);
      }
      DeletedShorter(t[3..], rest.value);
    }
  }

  /** The clean-up leaves a text as it is exactly when it has no quotes and no silent punctuation after punctuation. */
  lemma CleanFixesExactly(t: string)
    ensures Clean(t) == Some(t) <==> NoQuotes(t) && Settled(false, t)
  {
    if NoQuotes(t) && Settled(false, t) {
      CleanIdle(t, false);
    }
    if Clean(t) == Some(t) {
      CleanKept(t, false);
    }
  }

  /** A second run on a text that had no quotes changes nothing. */
  lemma CleanTwice(t: string)
    requires NoQuotes(t)
    ensures Clean(t).Some? && Clean(Clean(t).value) == Clean(t)
  {
    CleanSettles(t, false);
    CleanIdle(Clean(t).value, false);
  }

  // ---------------------------------------------------------------------------------
  // Texts with quotes
  // ---------------------------------------------------------------------------------

  // Does character c end up where it should not be? `after`: punctuation came before it in what is kept.
  predicate Amiss(after: bool, c: char) {
    c == '\"' || (after && IsSilentPunctuation(c))
  }

  function AfterOne(after: bool, c: char): bool {
    if IsSpace(c) then after else IsPunct(c)
  }

  // Reading the text once from left to right: is something kept that should not be? `inner`:
  // the inner loop is at work, which silent punctuation does not pass.
  predicate Spoils(p: Place, inner: bool, after: bool, t: string)
    decreases |t|
  {
    t != "" &&
    match p
    case Top =>
      if inner && IsSilentPunctuation(t[0]) then Spoils(Top, true, after, t[1..])
      else if inner && IsSpace(t[0]) then Spoils(Top, true, after, t[1..])
      else if t[0] == '\"' then Spoils(PassedOver, false, after, t[1..])
      else Amiss(after, t[0]) || Spoils(Top, IsPunct(t[0]), AfterOne(after, t[0]), t[1..])
    case PassedOver => Amiss(after, t[0]) || Spoils(Following, false, AfterOne(after, t[0]), t[1..])
    case Following => Amiss(after, t[0]) || Spoils(Top, IsPunct(t[0]), AfterOne(after, t[0]), t[1..])
  }

  // Without quotes, and without silent punctuation after punctuation.
  predicate Sound(after: bool, u: string) { NoQuotes(u) && Settled(after, u) }

  lemma SoundStep(after: bool, c: char, u: string)
    ensures Sound(after, [c] + u) <==> !Amiss(after, c) && Sound(AfterOne(after, c), u)
  {
    assert ([c] + u)[1..] == u;
    assert c in [c] + u && forall d :: d in u ==> d in [c] + u;
  }

  lemma {:induction false} SkipSpoils(t: string)
    requires Skip(t).Some?
    ensures Sound(true, Skip(t).value) <==> !Spoils(Top, true, true, t)
    decreases |t|, 2
  {
    if t != "" && IsSilentPunctuation(t[0]) {
      SkipSpoils(t[1..]);
    } else if t != "" && IsSpace(t[0]) {
      SkipSpoils(t[1..]);
      SoundStep(true, t[0], Skip(t[1..]).value);
      assert t[..1] == [t[0]];
    } else {
      CleanSpoils(t, true);
      assert t != "" ==> Spoils(Top, true, true, t) == Spoils(Top, false, true, t);
    }
  }

  lemma {:induction false} CleanSpoils(t: string, after: bool)
    requires Clean(t).Some?
    ensures Sound(after, Clean(t).value) <==> !Spoils(Top, false, after, t)
    decreases |t|, 1
  {
    if t != "" && t[0] == '\"' {
      QuoteSpoils(t, after);
    } else if t != "" {
      assert t[..1] == [t[0]];
      RestSpoils(t[0], t[1..], after);
    }
  }

  // The character t[0] is kept, and the loops go on behind it.
  lemma {:induction false} RestSpoils(c: char, t: string, after: bool)
    requires (if IsPunct(c) then Skip(t) else Clean(t)).Some?
    ensures var rest := if IsPunct(c) then Skip(t) else Clean(t);
      Sound(after, [c] + rest.value) <==> !(Amiss(after, c) || Spoils(Top, IsPunct(c), AfterOne(after, c), t))
    decreases |t|, 3
  {
    var rest := if IsPunct(c) then Skip(t) else Clean(t);
    SoundStep(after, c, rest.value);
    if IsPunct(c) {
      SkipSpoils(t);
    } else {
      CleanSpoils(t, AfterOne(after, c));
    }
  }

  lemma {:induction false} QuoteSpoils(t: string, after: bool)
    requires t != "" && t[0] == '\"' && Clean(t).Some?
    ensures Sound(after, Clean(t).value) <==> !Spoils(PassedOver, false, after, t[1..])
    decreases |t|, 0
  {
    var a := t[1];
    if |t| == 2 {
      SoundStep(after, a, "");
      assert t[1..] == [a] + "" && t[1..][1..] == "";
    } else {
      var b, next := t[2], AfterOne(after, a);
      var rest := if IsPunct(b) then Skip(t[3..]) else Clean(t[3..]);
      RestSpoils(b, t[3..], next);
      SoundStep(after, a, [b] + rest.value);
      assert t[1..3] + rest.value == [a] + ([b] + rest.value);
      assert t[1..][0] == a && t[1..][1..][0] == b && t[1..][1..][1..] == t[3..];
    }
  }

  /**
   For any text that gets through: what results has no quotes and no silent punctuation after
   punctuation, and a second run changes nothing, if and only if no such character is passed
   over behind an erased quote.
   */
  lemma CleanSoundExactly(t: string)
    requires Clean(t).Some?
    ensures var u := Clean(t).value;
      && (NoQuotes(u) && Settled(false, u) <==> !Spoils(Top, false, false, t))
      && (Clean(u) == Some(u) <==> !Spoils(Top, false, false, t))
  {
    CleanSpoils(t, false);
    CleanFixesExactly(Clean(t).value);
  }

  /** With quotes it can fail: the character behind an erased quote is passed over. */
  lemma QuotesSpoilIt()
    ensures Clean("a\"!?") == Some("a!?") && Spoils(Top, false, false, "a\"!?") && Clean("a!?") == Some("a!")
  {
    var t := "a\"!?";
    assert t[1..] == "\"!?" && "\"!?"[3..] == "" && "\"!?"[1..3] == "!?";
    assert Skip("") == Some("") && Clean("\"!?") == Some("!?" + "") && "!?" + "" == "!?";
    assert t[..1] == "a" && "a" + "!?" == "a!?";
    var u := "a!?";
    assert u[..1] == "a" && u[1..] == "!?" && "!?"[..1] == "!" && "!?"[1..] == "?" && "?"[1..] == "";
    assert Skip("?") == Some("") && Clean("!?") == Some("!" + "") && "!" + "" == "!" && "a" + "!" == "a!";
    assert u[2] == '?' && Clean(u) != Some(u);
    CleanSoundExactly(t);
  }

  // ---------------------------------------------------------------------------------
  // All of sanitizeString but the escaping
  // ---------------------------------------------------------------------------------

  function Sanitized(t: string): Option<string> { Clean(SixPasses(t)) }

  lemma DeletedFirst(t: string, u: string)
    requires Deleted(t, u)
    ensures Edge(First(u)) ==> Edge(First(t))
  {
  }

  // Deleting punctuation isolates nothing. p precedes the new text and q the old one.
  lemma {:induction false} DeletingIsolatesNothing(p: Option<char>, q: Option<char>, t: string, u: string, d: char)
    requires Deleted(t, u) && d in SYMBOLS && (Edge(p) ==> Edge(q))
    ensures Isolated(p, u, d) ==> Isolated(q, t, d)
    decreases |t|
  {
    if t != "" {
      if u != "" && u[0] == t[0] && Deleted(t[1..], u[1..]) {
        DeletingIsolatesNothing(Some(u[0]), Some(t[0]), t[1..], u[1..], d);
        DeletedFirst(t[1..], u[1..]);
      } else {
        DeletingIsolatesNothing(p, Some(t[0]), t[1..], u, d);
      }
    }
  }

  /** The sanitised text, if the clean-up gets through, has no isolated symbol and no "://". */
  lemma SanitizedIsClean(t: string)
    requires Sanitized(t).Some?
    ensures NoneIsolated(Sanitized(t).value) && !Contains(Sanitized(t).value, SCHEME)
  {
    var s, u := SixPasses(t), Sanitized(t).value;
    SixPassesClean(t);
    CleanDeletes(s);
    forall d | d in SYMBOLS ensures !Isolated(None, u, d) {
      DeletingIsolatesNothing(None, None, s, u, d);
    }
    NoSchemeLeft(u);
  }

  lemma {:induction false} SwapNoQuotes(prev: Option<char>, t: string, search: string, word: string, always: bool)
    requires search != "" && NoQuotes(t) && NoQuotes(word) && NoQuotes(search)
    ensures NoQuotes(Swap(prev, t, search, word, always))
    decreases |t|
  {
    if t != "" {
      if search <= t {
        var put := if always || IsolatedHere(prev, t) then word else search;
        SwapNoQuotes(Last(put), t[|search|..], search, word, always);
      } else {
        SwapNoQuotes(Some(t[0]), t[1..], search, word, always);
      }
    }
  }

  lemma SixPassesNoQuotes(t: string)
    requires NoQuotes(t)
    ensures NoQuotes(SixPasses(t))
  {
    var t0 := SpellScheme(t);
    SwapNoQuotes(None, t, SCHEME, " colon slash slash ", true);
    var t1 := SpellSymbol(t0, '$');
    SwapNoQuotes(None, t0, "$", "dollar", false);
    var t2 := SpellSymbol(t1, '#');
    SwapNoQuotes(None, t1, "#", "pound", false);
    var t3 := SpellSymbol(t2, '&');
    SwapNoQuotes(None, t2, "&", "and", false);
    var t4 := SpellSymbol(t3, '|');
    SwapNoQuotes(None, t3, "|", "bar", false);
    SwapNoQuotes(None, t4, "/", "or", false);
  }

  /** Sanitising what was sanitised changes nothing if and only if the clean-up passed nothing over. */
  lemma SanitizedTwiceExactly(t: string)
    requires Sanitized(t).Some?
    ensures Sanitized(Sanitized(t).value) == Sanitized(t) <==> !Spoils(Top, false, false, SixPasses(t))
  {
    var u := Sanitized(t).value;
    SanitizedIsClean(t);
    SixPassesIdle(u);
    CleanSoundExactly(SixPasses(t));
  }

  /** Sanitising a text without quotes always gets through, and sanitising the result again changes nothing. */
  lemma SanitizedTwice(t: string)
    requires NoQuotes(t)
    ensures Sanitized(t).Some? && Sanitized(Sanitized(t).value) == Sanitized(t)
  {
    SixPassesNoQuotes(t);
    CleanSettles(SixPasses(t), false);
    SanitizedIsClean(t);
    var u := Sanitized(t).value;
    SixPassesIdle(u);
    CleanIdle(u, false);
  }
}
