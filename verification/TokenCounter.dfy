/** The pseudo-tokenizer used for cost estimates and rate limiting. */
module TokenCounter {
  import opened Types

  predicate IsSpace(c: char) {
    c == ' ' || '\t' <= c <= '\r'
  }

  predicate IsPunct(c: char) {
    '!' <= c <= '/' || ':' <= c <= '@' || '[' <= c <= '`' || '{' <= c <= '~'
  }

  predicate IsWordChar(c: char) {
    !IsSpace(c) && !IsPunct(c)
  }

  /** A word cut into pieces of four characters, the last one possibly shorter. */
  function Chunks(word: string): (r: seq<string>)
    ensures |r| == Ceil4(|word|)
  {
    if |word| > 4 then [word[..4]] + Chunks(word[4..])
    else if word == "" then [] else [word]
  }

  function Ceil4(n: nat): nat {
    (n + 3) / 4
  }

  /** The tokens a separator itself yields. */
  function Mark(c: char): seq<string>
    requires !IsWordChar(c)
  {
    if IsPunct(c) || c == '\n' then [[c]] else []
  }

  /** The tokens still to come when `word` has been read and `text` has not. */
  function Scan(word: string, text: string): seq<string>
    decreases |text|
  {
    if text == "" then Chunks(word)
    else if IsWordChar(text[0]) then Scan(word + [text[0]], text[1..])
    else Chunks(word) + Mark(text[0]) + Scan("", text[1..])
  }

  function Tokens(text: string): seq<string> {
    Scan("", text)
  }

  function Count(text: string): nat {
    |Tokens(text)|
  }

  function CountMessages(ms: seq<Message>): nat {
    if ms == [] then 2 else CountMessages(ms[..|ms| - 1]) + 4 + Count(ms[|ms| - 1].content)
  }

  // ----- The code ---------------------------------------------------------------

  /** Ends the open word, if there is one. */
  method Flush(tokens0: seq<string>, word: string) returns (tokens: seq<string>)
    ensures tokens == tokens0 + Chunks(word)
  {
    tokens := tokens0;
    var current := word;
    while |current| > 4
      invariant tokens + Chunks(current) == tokens0 + Chunks(word)
      decreases |current|
    {
      tokens := tokens + [current[..4]];
      current := current[4..];
    }
    if current != "" {
      tokens := tokens + [current];
    }
  }

  method Tokenize(text: string) returns (tokens: seq<string>)
    ensures tokens == Tokens(text)
  {
    tokens := [];
    var current := "";
    for i := 0 to |text|
      invariant tokens + Scan(current, text[i..]) == Tokens(text)
    {
      var c := text[i];
      ScanAt(tokens, current, text, i);
      if IsSpace(c) {
        tokens := Flush(tokens, current);
        current := "";
        if c == '\n' {
          tokens := tokens + ["\n"];
        }
      } else if IsPunct(c) {
        tokens := Flush(tokens, current);
        current := "";
        tokens := tokens + [[c]];
      } else {
        current := current + [c];
      }
    }
    tokens := Flush(tokens, current);
  }

  /** One character of the scan, with the tokens already made in front. */
  lemma ScanAt(tokens: seq<string>, word: string, text: string, i: nat)
    requires i < |text|
    ensures tokens + Scan(word, text[i..]) ==
      if IsWordChar(text[i]) then tokens + Scan(word + [text[i]], text[i + 1..])
      else tokens + Chunks(word) + Mark(text[i]) + Scan("", text[i + 1..])
  {
    assert text[i..][1..] == text[i + 1..];
  }

  method CountText(text: string) returns (n: nat)
    ensures n == Count(text)
  {
    if text == "" {
      return 0;
    }
    var tokens := Tokenize(text);
    n := |tokens|;
  }

  method CountAll(messages: seq<Message>) returns (total: nat)
    ensures total == CountMessages(messages)
  {
    total := 0;
    for i := 0 to |messages|
      invariant total + 2 == CountMessages(messages[..i])
    {
      assert messages[..i + 1][..i] == messages[..i];
      total := total + 4;
      var n := CountText(messages[i].content);
      total := total + n;
    }
    assert messages[..|messages|] == messages;
    total := total + 2;
  }

  // ----- Scanning words -----------------------------------------------------------

  predicate IsWord(s: string) {
    forall c :: c in s ==> IsWordChar(c)
  }

  lemma {:induction false} ScanWord(word: string, w: string, text: string)
    requires IsWord(w)
    ensures Scan(word, w + text) == Scan(word + w, text)
    decreases |w|
  {
    if w == "" {
      assert w + text == text && word + w == word;
    } else {
      assert w[0] in w && forall c :: c in w[1..] ==> c in w;
      assert (w + text)[1..] == w[1..] + text;
      assert word + [w[0]] + w[1..] == word + w;
      ScanWord(word + [w[0]], w[1..], text);
    }
  }

  // ----- What tokens look like ------------------------------------------------------

  /** A piece of a word, a punctuation mark or a newline. */
  predicate IsToken(t: string) {
    (1 <= |t| <= 4 && IsWord(t)) || (|t| == 1 && (IsPunct(t[0]) || t[0] == '\n'))
  }

  lemma {:induction false} ChunksAreTokens(word: string)
    requires IsWord(word)
    ensures forall t :: t in Chunks(word) ==> IsToken(t)
  {
    if |word| > 4 {
      assert forall c :: c in word[..4] ==> c in word;
      assert forall c :: c in word[4..] ==> c in word;
      ChunksAreTokens(word[4..]);
    }
  }

  lemma {:induction false} ScanYieldsTokens(word: string, text: string)
    requires IsWord(word)
    ensures forall t :: t in Scan(word, text) ==> IsToken(t)
    decreases |text|
  {
    ChunksAreTokens(word);
    if text != "" {
      if IsWordChar(text[0]) {
        ScanYieldsTokens(word + [text[0]], text[1..]);
      } else {
        ScanYieldsTokens("", text[1..]);
      }
    }
  }

  /** Every token is a word piece of one to four characters, a punctuation mark or a newline. */
  lemma TokensAreSmall(text: string)
    ensures forall t :: t in Tokens(text) ==> IsToken(t) && 1 <= |t| <= 4
  {
    ScanYieldsTokens("", text);
  }

  // ----- Nothing is lost but blanks --------------------------------------------------

  function Flat(tokens: seq<string>): string {
    if tokens == [] then "" else tokens[0] + Flat(tokens[1..])
  }

  /** The text without whitespace, newlines kept. */
  function Compact(text: string): string {
    if text == "" then ""
    else (if IsSpace(text[0]) && text[0] != '\n' then "" else [text[0]]) + Compact(text[1..])
  }

  lemma {:induction false} FlatConcat(a: seq<string>, b: seq<string>)
    ensures Flat(a + b) == Flat(a) + Flat(b)
  {
    if a == [] {
      assert a + b == b;
    } else {
      assert (a + b)[0] == a[0] && (a + b)[1..] == a[1..] + b;
      FlatConcat(a[1..], b);
    }
  }

  lemma {:induction false} FlatChunks(word: string)
    ensures Flat(Chunks(word)) == word
  {
    if |word| > 4 {
      FlatChunks(word[4..]);
      assert ([word[..4]] + Chunks(word[4..]))[1..] == Chunks(word[4..]);
      assert word == word[..4] + word[4..];
    }
  }

  lemma Regroup(a: string, b: string, c: string)
    ensures a + b + c == a + (b + c)
  {}

  lemma FlatSeparator(word: string, c: char, rest: seq<string>)
    requires !IsWordChar(c)
    ensures Flat(Chunks(word) + Mark(c) + rest) == word + (if IsSpace(c) && c != '\n' then "" else [c]) + Flat(rest)
  {
    FlatChunks(word);
    FlatConcat(Chunks(word) + Mark(c), rest);
    FlatConcat(Chunks(word), Mark(c));
  }

  lemma {:induction false} FlatScan(word: string, text: string)
    ensures Flat(Scan(word, text)) == word + Compact(text)
    decreases |text|
  {
    FlatChunks(word);
    if text != "" {
      if IsWordChar(text[0]) {
        FlatScan(word + [text[0]], text[1..]);
        Regroup(word, [text[0]], Compact(text[1..]));
      } else {
        FlatScan("", text[1..]);
        FlatSeparator(word, text[0], Scan("", text[1..]));
        Regroup(word, if IsSpace(text[0]) && text[0] != '\n' then "" else [text[0]], Compact(text[1..]));
        assert "" + Compact(text[1..]) == Compact(text[1..]);
      }
    }
  }

  /** Concatenating the tokens gives back the text, less its blanks. */
  lemma TokensCoverText(text: string)
    ensures Flat(Tokens(text)) == Compact(text)
  {
    FlatScan("", text);
  }

  // ----- Round trip -------------------------------------------------------------------

  function Join(tokens: seq<string>): string {
    if tokens == [] then ""
    else if |tokens| == 1 then tokens[0]
    else tokens[0] + " " + Join(tokens[1..])
  }

  lemma ScanToken(t: string)
    requires IsToken(t)
    ensures Scan("", t) == [t]
  {
    if IsWord(t) {
      ScanWord("", t, "");
      assert t + "" == t && "" + t == t;
    } else {
      assert t == [t[0]] && t[1..] == "" && !IsWordChar(t[0]);
      assert [] + [t] + [] == [t];
    }
  }

  lemma ScanTokenThenSpace(t: string, text: string)
    requires IsToken(t)
    ensures Scan("", t + " " + text) == [t] + Scan("", text)
  {
    var rest := " " + text;
    assert t + " " + text == t + rest && rest[1..] == text;
    if IsWord(t) {
      ScanWord("", t, rest);
      assert "" + t == t;
      assert Scan(t, rest) == Chunks(t) + [] + Scan("", text);
    } else {
      assert t == [t[0]] && (t + rest)[1..] == rest && !IsWordChar(t[0]);
      assert Scan("", rest) == [] + [] + Scan("", text);
    }
  }

  lemma {:induction false} JoinRoundTrip(tokens: seq<string>)
    requires forall t :: t in tokens ==> IsToken(t)
    ensures Tokens(Join(tokens)) == tokens
  {
    if |tokens| == 1 {
      ScanToken(tokens[0]);
    } else if tokens != [] {
      assert tokens[0] in tokens && forall t :: t in tokens[1..] ==> t in tokens;
      ScanTokenThenSpace(tokens[0], Join(tokens[1..]));
      JoinRoundTrip(tokens[1..]);
      assert tokens == [tokens[0]] + tokens[1..];
    }
  }

  /** Tokenizing the tokens joined with spaces gives the same tokens again. */
  lemma TokenizeRoundTrip(text: string)
    ensures Tokens(Join(Tokens(text))) == Tokens(text)
  {
    TokensAreSmall(text);
    JoinRoundTrip(Tokens(text));
  }

  // ----- Counting -----------------------------------------------------------------------

  /** Length of the word run the text starts with. */
  function Leading(text: string): (n: nat)
    ensures n <= |text|
  {
    if text == "" || !IsWordChar(text[0]) then 0 else 1 + Leading(text[1..])
  }

  /** Length of the word run the text ends with. */
  function Trailing(text: string): (n: nat)
    ensures n <= |text|
  {
    if text == "" || !IsWordChar(text[|text| - 1]) then 0 else 1 + Trailing(text[..|text| - 1])
  }

  lemma {:induction false} LeadingIsMaximal(text: string)
    ensures var n := Leading(text);
      (forall i :: 0 <= i < n ==> IsWordChar(text[i])) && (n < |text| ==> !IsWordChar(text[n]))
  {
    if text != "" && IsWordChar(text[0]) {
      LeadingIsMaximal(text[1..]);
      assert forall i :: 1 <= i < Leading(text) ==> text[i] == text[1..][i - 1];
    }
  }

  /** The run at the end is all of the word characters there. */
  lemma {:induction false} TrailingIsMaximal(text: string)
    ensures var n, k := Trailing(text), |text| - Trailing(text);
      (forall i :: k <= i < |text| ==> IsWordChar(text[i])) && (n < |text| ==> !IsWordChar(text[k - 1]))
  {
    if text != "" && IsWordChar(text[|text| - 1]) {
      TrailingIsMaximal(text[..|text| - 1]);
    }
  }

  /** The lengths of the maximal word runs, in order. */
  function Runs(text: string): seq<nat>
    decreases |text|
  {
    if text == "" then []
    else if IsWordChar(text[0]) then [Leading(text)] + Runs(text[Leading(text)..])
    else Runs(text[1..])
  }

  function Pieces(runs: seq<nat>): nat {
    if runs == [] then 0 else Ceil4(runs[0]) + Pieces(runs[1..])
  }

  /** Punctuation marks and newlines. */
  function Marks(text: string): nat {
    if text == "" then 0
    else (if IsPunct(text[0]) || text[0] == '\n' then 1 else 0) + Marks(text[1..])
  }

  lemma LeadingRun(text: string)
    ensures Pieces(Runs(text)) == Ceil4(Leading(text)) + Pieces(Runs(text[Leading(text)..]))
  {
    if text == "" || !IsWordChar(text[0]) {
      assert text[0..] == text;
    } else {
      assert Runs(text)[1..] == Runs(text[Leading(text)..]);
    }
  }

  lemma {:induction false} ScanCount(word: string, text: string)
    ensures |Scan(word, text)| == Ceil4(|word| + Leading(text)) + Marks(text) + Pieces(Runs(text[Leading(text)..]))
    decreases |text|
  {
    if text != "" {
      if IsWordChar(text[0]) {
        ScanCount(word + [text[0]], text[1..]);
        assert text[Leading(text)..] == text[1..][Leading(text[1..])..];
      } else {
        ScanCount("", text[1..]);
        LeadingRun(text[1..]);
        assert text[0..] == text;
      }
    }
  }

  /** The count in closed form: marks, plus every maximal word run in pieces of four. */
  lemma CountFormula(text: string)
    ensures Count(text) == Marks(text) + Pieces(Runs(text))
  {
    ScanCount("", text);
    LeadingRun(text);
  }

  /** What is saved when a run of m characters and one of n become a single run. */
  function Merged(m: nat, n: nat): (saved: int)
    ensures 0 <= saved <= 1
  {
    Ceil4(m) + Ceil4(n) - Ceil4(m + n)
  }

  lemma {:induction false} TrailingStep(c: char, text: string)
    ensures Trailing([c] + text) == if Trailing(text) < |text| || !IsWordChar(c) then Trailing(text) else 1 + |text|
  {
    var s := [c] + text;
    if text != "" {
      assert s[..|s| - 1] == [c] + text[..|text| - 1];
      TrailingStep(c, text[..|text| - 1]);
    }
  }

  /** The word still open after `text`, when `word` was open before it. */
  function Tail(word: string, text: string): nat {
    if Trailing(text) == |text| then |word| + |text| else Trailing(text)
  }

  lemma ScanSeam(word: string, b: string)
    ensures |Scan(word, b)| == |Chunks(word)| + |Scan("", b)| - Merged(|word|, Leading(b))
  {
    ScanCount(word, b);
    ScanCount("", b);
  }

  lemma TailStep(word: string, a: string)
    requires a != ""
    ensures Tail(word, a) == Tail(if IsWordChar(a[0]) then word + [a[0]] else "", a[1..])
  {
    assert a == [a[0]] + a[1..];
    TrailingStep(a[0], a[1..]);
  }

  lemma {:induction false} ScanConcat(word: string, a: string, b: string)
    ensures |Scan(word, a + b)| == |Scan(word, a)| + |Scan("", b)| - Merged(Tail(word, a), Leading(b))
    decreases |a|
  {
    if a == "" {
      assert a + b == b;
      ScanSeam(word, b);
    } else {
      assert (a + b)[0] == a[0] && (a + b)[1..] == a[1..] + b;
      TailStep(word, a);
      ScanConcat(if IsWordChar(a[0]) then word + [a[0]] else "", a[1..], b);
    }
  }

  /** Only the word run across the seam can merge, and the saving is exactly that of the merge. */
  lemma CountConcat(a: string, b: string)
    ensures Count(a + b) == Count(a) + Count(b) - Merged(Trailing(a), Leading(b))
    ensures Count(a) + Count(b) - 1 <= Count(a + b) <= Count(a) + Count(b)
  {
    ScanConcat("", a, b);
  }

  /** The estimate of a conversation in closed form: two tokens, and for every message four more than the
      marks and the pieces of the word runs of its content. */
  function Estimate(ms: seq<Message>): nat {
    if ms == [] then 2
    else 4 + Marks(ms[0].content) + Pieces(Runs(ms[0].content)) + Estimate(ms[1..])
  }

  lemma CountOne(m: Message)
    ensures CountMessages([m]) == 6 + Marks(m.content) + Pieces(Runs(m.content))
  {
    CountFormula(m.content);
    assert [m][..0] == [];
    assert CountMessages([]) == 2;
  }

  lemma {:induction false} CountMessagesFormula(ms: seq<Message>)
    ensures CountMessages(ms) == Estimate(ms)
  {
    if ms != [] {
      CountMessagesFormula(ms[1..]);
      CountOne(ms[0]);
      CountMessagesConcat([ms[0]], ms[1..]);
      assert ms == [ms[0]] + ms[1..];
    }
  }

  /** The separators are those of the C locale. */
  lemma SeparatorsAre(c: char)
    ensures IsPunct(c) <==> c in "!\"#$%&'()*+,-./:;<=>?@[\\]^_`{|}~"
    ensures IsSpace(c) <==> c in [' ', '\t', '\n', 11 as char, 12 as char, '\r']
  {}

  /** Message lists are additive up to the priming tokens. */
  lemma {:induction false} CountMessagesConcat(xs: seq<Message>, ys: seq<Message>)
    ensures CountMessages(xs + ys) + 2 == CountMessages(xs) + CountMessages(ys)
  {
    if ys == [] {
      assert xs + ys == xs;
    } else {
      assert (xs + ys)[..|xs + ys| - 1] == xs + ys[..|ys| - 1];
      CountMessagesConcat(xs, ys[..|ys| - 1]);
    }
  }
}
