/**
 The loops of TextToSpeech/impl/TTSURLConstructer.cpp: find and replace from a moving
 position, and the two nested loops that erase in place.
 */
module SanitizerCode {

  import opened Wrappers
  import opened Sanitizer

  // The first occurrence at pos or later, |text| if there is none.
  method Find(text: string, search: string, pos: nat) returns (at: nat)
    requires search != "" && pos <= |text|
    ensures pos <= at <= |text| && (at < |text| ==> search <= text[at..])
    ensures forall k :: pos <= k < at ==> !(search <= text[k..])
  {
    at := pos;
    while at < |text|
      invariant pos <= at <= |text| && forall k :: pos <= k < at ==> !(search <= text[k..])
    {
      if search <= text[at..] {
        return;
      }
      at := at + 1;
    }
  }

  predicate Absent(t: string, search: string, n: nat)
    requires n <= |t|
  {
    forall k :: 0 <= k < n ==> !(search <= t[k..])
  }

  lemma {:induction false} SkipAhead(prev: Option<char>, t: string, n: nat, search: string, word: string, always: bool)
    requires search != "" && 0 < n <= |t| && Absent(t, search, n)
    ensures Swap(prev, t, search, word, always) == t[..n] + Swap(Some(t[n - 1]), t[n..], search, word, always)
    decreases n
  {
    assert t[0..] == t;
    var rest := Swap(Some(t[n - 1]), t[n..], search, word, always);
    if n > 1 {
      AbsentBehind(t, search, n);
      SkipAhead(Some(t[0]), t[1..], n - 1, search, word, always);
      assert t[1..][n - 1..] == t[n..] && t[1..][n - 2] == t[n - 1];
      JoinOne(t, n, rest);
    } else {
      assert [t[0]] == t[..1];
    }
  }

  lemma AbsentBehind(t: string, search: string, n: nat)
    requires 0 < n <= |t| && Absent(t, search, n)
    ensures Absent(t[1..], search, n - 1)
  {
    forall k | 0 <= k < n - 1 ensures !(search <= t[1..][k..]) {
      assert t[1..][k..] == t[k + 1..];
    }
  }

  lemma JoinOne(t: string, n: nat, rest: string)
    requires 0 < n <= |t|
    ensures [t[0]] + (t[1..][..n - 1] + rest) == t[..n] + rest
  {
    assert [t[0]] + t[1..][..n - 1] == t[..n];
  }

  // The loop has dealt with text[..pos].
  ghost predicate Underway(input: string, text: string, pos: nat, search: string, word: string, always: bool)
    requires search != "" && pos <= |text|
  {
    text[..pos] + Swap(Last(text[..pos]), text[pos..], search, word, always) == Swap(None, input, search, word, always)
  }

  lemma ToTheNext(input: string, text: string, pos: nat, at: nat, search: string, word: string, always: bool)
    requires search != "" && pos <= at <= |text| && Underway(input, text, pos, search, word, always)
    requires forall k :: pos <= k < at ==> !(search <= text[k..])
    ensures Underway(input, text, at, search, word, always)
  {
    if pos < at {
      var t, n := text[pos..], at - pos;
      forall k | 0 <= k < n ensures !(search <= t[k..]) {
        assert t[k..] == text[pos + k..];
      }
      SkipAhead(Last(text[..pos]), t, n, search, word, always);
      JoinMany(text, pos, at, Swap(Some(text[at - 1]), text[at..], search, word, always));
    }
  }

  lemma JoinMany(text: string, pos: nat, at: nat, rest: string)
    requires pos < at <= |text|
    ensures var t := text[pos..];
      t[at - pos..] == text[at..] && t[at - pos - 1] == text[at - 1] && Last(text[..at]) == Some(text[at - 1])
      && text[..pos] + (t[..at - pos] + rest) == text[..at] + rest
  {
    assert text[..pos] + text[pos..][..at - pos] == text[..at];
  }

  lemma OneFound(input: string, text: string, pos: nat, search: string, word: string, always: bool, put: string)
    requires search != "" && pos < |text| && search <= text[pos..] && Underway(input, text, pos, search, word, always)
    requires put == (if always || IsolatedHere(Last(text[..pos]), text[pos..]) then word else search) && put != ""
    ensures Underway(input, text[..pos] + put + text[pos + |search|..], pos + |put|, search, word, always)
  {
    var next := text[..pos] + put + text[pos + |search|..];
    assert next[..pos + |put|] == text[..pos] + put && next[pos + |put|..] == text[pos + |search|..];
    assert text[pos..][|search|..] == text[pos + |search|..];
    assert Last(text[..pos] + put) == Last(put);
    var rest := Swap(Last(put), text[pos + |search|..], search, word, always);
    assert text[..pos] + (put + rest) == (text[..pos] + put) + rest;
  }

  method ReplaceIfIsolated(input: string, search: string, replace: string, skipIsolationCheck: bool)
      returns (text: string)
    requires search != "" && replace != ""
    ensures text == Swap(None, input, search, replace, skipIsolationCheck)
  {
    text := input;
    var pos := 0;
    assert text[..0] == "" && text[0..] == text;
    pos := Find(text, search, pos);
    ToTheNext(input, text, 0, pos, search, replace, skipIsolationCheck);
    while pos < |text|
      invariant 0 <= pos <= |text| && Underway(input, text, pos, search, replace, skipIsolationCheck)
      invariant pos < |text| ==> search <= text[pos..]
      decreases |text| - pos
    {
      var punctBefore := pos == 0 || IsPunct(text[pos - 1]) || IsSpace(text[pos - 1]);
      var punctAfter := pos + 1 == |text| || IsPunct(text[pos + 1]) || IsSpace(text[pos + 1]);
      var put := if (punctBefore && punctAfter) || skipIsolationCheck then replace else search;
      assert text[pos..][1..] == text[pos + 1..] && (pos > 0 ==> Last(text[..pos]) == Some(text[pos - 1]));
      OneFound(input, text, pos, search, replace, skipIsolationCheck, put);
      text := text[..pos] + put + text[pos + |search|..];
      pos := pos + |put|;
      ghost var here := pos;
      pos := Find(text, search, pos);
      ToTheNext(input, text, here, pos, search, replace, skipIsolationCheck);
    }
    assert text[pos..] == "" && text[..pos] == text && text + "" == text;
  }

  lemma BeforeTwice(a: string, b: string, rest: Option<string>)
    ensures Before(a, Before(b, rest)) == Before(a + b, rest)
  {
    if rest.Some? {
      assert a + (b + rest.value) == (a + b) + rest.value;
    }
  }

  // The outer loop has dealt with text[..pos], or, inside it, the inner one has.
  ghost predicate Cleaning(input: string, text: string, pos: nat, inner: bool)
    requires pos <= |text|
  {
    Before(text[..pos], if inner then Skip(text[pos..]) else Clean(text[pos..])) == Clean(input)
  }

  // A character that stays, and the loop that goes on behind it.
  lemma Kept(input: string, text: string, pos: nat, inner: bool)
    requires pos < |text| && Cleaning(input, text, pos, inner)
    requires if inner then IsSpace(text[pos]) && !IsSilentPunctuation(text[pos]) else text[pos] != '\"'
    ensures Cleaning(input, text, pos + 1, inner || IsPunct(text[pos]))
  {
    var t := text[pos..];
    assert text[pos + 1..] == t[1..] && text[..pos + 1] == text[..pos] + t[..1];
    BeforeTwice(text[..pos], t[..1], if inner || IsPunct(t[0]) then Skip(t[1..]) else Clean(t[1..]));
  }

  lemma Erased(input: string, text: string, pos: nat)
    requires pos < |text| && Cleaning(input, text, pos, true) && IsSilentPunctuation(text[pos])
    ensures Cleaning(input, text[..pos] + text[pos + 1..], pos, true)
  {
    var next := text[..pos] + text[pos + 1..];
    assert next[..pos] == text[..pos] && next[pos..] == text[pos..][1..];
  }

  // The inner loop is done.
  lemma InnerEnds(input: string, text: string, pos: nat)
    requires pos <= |text| && Cleaning(input, text, pos, true)
    requires pos < |text| ==> !IsSilentPunctuation(text[pos]) && !IsSpace(text[pos])
    ensures Cleaning(input, text, pos, false)
  {
  }

  // A quote is erased: the end of the text, or two characters that are kept behind it.
  lemma QuoteErased(input: string, text: string, pos: nat)
    requires pos < |text| && Cleaning(input, text, pos, false) && text[pos] == '\"'
    ensures var next := text[..pos] + text[pos + 1..];
      && (pos == |next| ==> Clean(input) == None)
      && (pos + 1 == |next| ==> Clean(input) == Some(next))
      && (pos + 1 < |next| ==> Cleaning(input, next, pos + 2, IsPunct(next[pos + 1])))
  {
    var next, t := text[..pos] + text[pos + 1..], text[pos..];
    if pos + 1 == |next| {
      assert next == text[..pos] + t[1..];
    } else if pos + 1 < |next| {
      assert next[pos + 1] == t[2] && next[pos + 2..] == t[3..] && next[..pos + 2] == text[..pos] + t[1..3];
      BeforeTwice(text[..pos], t[1..3], if IsPunct(t[2]) then Skip(t[3..]) else Clean(t[3..]));
    }
  }

  method ReplaceSuccesivePunctuation(input: string) returns (cleaned: Option<string>)
    ensures cleaned == Clean(input)
  {
    var text := input;
    var pos := 0;
    assert text[..0] == "" && text[0..] == text;
    assert Clean(input).Some? ==> "" + Clean(input).value == Clean(input).value;
    while pos < |text|
      invariant 0 <= pos <= |text| && Cleaning(input, text, pos, false)
      decreases |text| - pos
    {
      if text[pos] == '\"' {
        QuoteErased(input, text, pos);
        text := text[..pos] + text[pos + 1..];
        pos := pos + 1;
        if pos == |text| {
          return Some(text);
        }
        if pos > |text| {
          return None;
        }
      } else {
        Kept(input, text, pos, false);
      }
      if IsPunct(text[pos]) {
        pos := pos + 1;
        while pos < |text| && (IsSilentPunctuation(text[pos]) || IsSpace(text[pos]))
          invariant 0 <= pos <= |text| && Cleaning(input, text, pos, true)
          decreases |text| - pos
        {
          if IsSilentPunctuation(text[pos]) {
            Erased(input, text, pos);
            text := text[..pos] + text[pos + 1..];
          } else {
            Kept(input, text, pos, true);
            pos := pos + 1;
          }
        }
        InnerEnds(input, text, pos);
      } else {
        pos := pos + 1;
      }
    }
    assert text[pos..] == "" && text[..pos] == text && text + "" == text;
    return Some(text);
  }

  method SanitizeString(input: string) returns (sanitized: Option<string>)
    ensures sanitized == Sanitized(input)
  {
    var text := ReplaceIfIsolated(input, "://", " colon slash slash ", true);
    text := ReplaceIfIsolated(text, "$", "dollar", false);
    text := ReplaceIfIsolated(text, "#", "pound", false);
    text := ReplaceIfIsolated(text, "&", "and", false);
    text := ReplaceIfIsolated(text, "|", "bar", false);
    text := ReplaceIfIsolated(text, "/", "or", false);
    sanitized := ReplaceSuccesivePunctuation(text);
  }
}
