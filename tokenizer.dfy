/** The tokenizer of sh.c: `count_tokens` and `tokenize` split an input line
    on runs of tab and space.  A line is the content of the C string read by
    the shell (the characters before its terminator); a position `i` in it
    stands for the pointer `buffer + i`. */
module Tokenizer {
  import opened Wrappers

  /** The delimiter set "\t " that both functions hand to the C library. */
  predicate IsDelim(c: char) {
    c == ' ' || c == '\t'
  }

  /** A token: a non-empty run of non-delimiters. */
  predicate IsWord(t: string) {
    |t| > 0 && forall k :: 0 <= k < |t| ==> !IsDelim(t[k])
  }

  /** A (possibly empty) run of delimiters. */
  predicate IsBlank(g: string) {
    forall k :: 0 <= k < |g| ==> IsDelim(g[k])
  }

  /** `strspn(s + i, "\t ")`: the length of the run of delimiters at `i`. */
  function Span(s: string, i: nat): (n: nat)
    requires i <= |s|
    ensures i + n <= |s|
    ensures forall k :: i <= k < i + n ==> IsDelim(s[k])
    ensures i + n < |s| ==> !IsDelim(s[i + n])
    decreases |s| - i
  {
    if i == |s| || !IsDelim(s[i]) then 0 else 1 + Span(s, i + 1)
  }

  /** `strcspn(s + i, "\t ")`: the length of the run of non-delimiters at `i`. */
  function CSpan(s: string, i: nat): (n: nat)
    requires i <= |s|
    ensures i + n <= |s|
    ensures forall k :: i <= k < i + n ==> !IsDelim(s[k])
    ensures i + n < |s| ==> IsDelim(s[i + n])
    decreases |s| - i
  {
    if i == |s| || IsDelim(s[i]) then 0 else 1 + CSpan(s, i + 1)
  }

  /** The tokens of `s` from position `i` on: its maximal runs of
      non-delimiters, in order; delimiters are skipped one at a time. */
  function TokensFrom(s: string, i: nat): (ts: seq<string>)
    requires i <= |s|
    ensures forall k :: 0 <= k < |ts| ==> IsWord(ts[k])
    decreases |s| - i
  {
    if i == |s| then []
    else if IsDelim(s[i]) then TokensFrom(s, i + 1)
    else
      var e := i + CSpan(s, i);
      [s[i..e]] + TokensFrom(s, e)
  }

  /** The tokens of a whole line. */
  function Tokens(s: string): seq<string> {
    TokensFrom(s, 0)
  }

  /** The blank runs of `s` from `i` on: the one before each token and the
      one after the last token. */
  function GapsFrom(s: string, i: nat): (gs: seq<string>)
    requires i <= |s|
    ensures |gs| == |TokensFrom(s, i)| + 1
    decreases |s| - i
  {
    if i == |s| then [""]
    else if IsDelim(s[i]) then
      var r := GapsFrom(s, i + 1);
      [[s[i]] + r[0]] + r[1..]
    else
      [""] + GapsFrom(s, i + CSpan(s, i))
  }

  /** The line rebuilt from tokens and the blank runs around them:
      gaps[0] + words[0] + gaps[1] + ... + words[n-1] + gaps[n]. */
  function Join(gaps: seq<string>, words: seq<string>): string
    requires |gaps| == |words| + 1
  {
    if words == [] then gaps[0] else gaps[0] + words[0] + Join(gaps[1..], words[1..])
  }

  /** `gaps` can separate `words`: blank runs, non-empty between two words
      (the leading and the trailing run may be empty). */
  predicate Separates(gaps: seq<string>, words: seq<string>) {
    && |gaps| == |words| + 1
    && (forall k :: 0 <= k < |gaps| ==> IsBlank(gaps[k]))
    && (forall k :: 0 < k < |words| ==> |gaps[k]| > 0)
    && (forall k :: 0 <= k < |words| ==> IsWord(words[k]))
  }

  /** A run of `n` non-delimiters at `i` that ends at a delimiter or at the
      end of the line is what strcspn measures. */
  lemma CSpanIs(s: string, i: nat, n: nat)
    requires i + n <= |s|
    requires forall k :: i <= k < i + n ==> !IsDelim(s[k])
    requires i + n < |s| ==> IsDelim(s[i + n])
    ensures CSpan(s, i) == n
  {
  }

  /** Growing the first blank run by one delimiter grows the line by it. */
  lemma JoinConsGap(c: char, gaps: seq<string>, words: seq<string>)
    requires |gaps| == |words| + 1
    ensures Join([[c] + gaps[0]] + gaps[1..], words) == [c] + Join(gaps, words)
  {
    var gs := [[c] + gaps[0]] + gaps[1..];
    assert gs[1..] == gaps[1..];
  }

  /** Dropping the leading delimiter of the first blank run keeps the
      runs separating and rebuilds the suffix one position further on. */
  lemma DropGapChar(s: string, i: nat, gaps: seq<string>, words: seq<string>)
    requires Separates(gaps, words) && gaps[0] != []
    requires i <= |s| && s[i..] == Join(gaps, words)
    ensures i < |s| && IsDelim(s[i])
    ensures Separates([gaps[0][1..]] + gaps[1..], words)
    ensures s[i + 1..] == Join([gaps[0][1..]] + gaps[1..], words)
  {
    var g := gaps[0];
    var gaps' := [g[1..]] + gaps[1..];
    assert g == [g[0]] + g[1..];
    JoinConsGap(g[0], gaps', words);
    assert gaps == [[g[0]] + gaps'[0]] + gaps'[1..];
    assert s[i] == s[i..][0] == g[0];
    assert s[i + 1..] == s[i..][1..];
    assert IsBlank(gaps'[0]) by {
      forall k | 0 <= k < |g[1..]| ensures IsDelim(g[1..][k]) {
        assert g[1..][k] == g[k + 1];
      }
    }
    forall k | 0 < k < |gaps'| ensures gaps'[k] == gaps[k] { }
  }

  /** With an empty first blank run the suffix starts with the first word,
      which strcspn measures exactly. */
  lemma TakeWord(s: string, i: nat, gaps: seq<string>, words: seq<string>)
    requires Separates(gaps, words) && gaps[0] == [] && words != []
    requires i <= |s| && s[i..] == Join(gaps, words)
    ensures i < |s| && !IsDelim(s[i]) && CSpan(s, i) == |words[0]|
    ensures s[i..i + |words[0]|] == words[0]
    ensures Separates(gaps[1..], words[1..])
    ensures s[i + |words[0]|..] == Join(gaps[1..], words[1..])
  {
    var w := words[0];
    var rest := Join(gaps[1..], words[1..]);
    assert s[i..] == w + rest;
    var e := i + |w|;
    assert forall k :: i <= k < e ==> s[k] == s[i..][k - i] == w[k - i];
    WordEndsAtDelim(s, i, gaps, words);
    CSpanIs(s, i, |w|);
    assert s[i..e] == w;
    assert s[e..] == rest;
    SeparatesTail(gaps, words);
  }

  /** The character after the first word, if any, is a delimiter. */
  lemma WordEndsAtDelim(s: string, i: nat, gaps: seq<string>, words: seq<string>)
    requires Separates(gaps, words) && gaps[0] == [] && words != []
    requires i <= |s| && s[i..] == Join(gaps, words)
    ensures i + |words[0]| < |s| ==> IsDelim(s[i + |words[0]|])
  {
    var w := words[0];
    var rest := Join(gaps[1..], words[1..]);
    assert s[i..] == w + rest;
    if i + |w| < |s| {
      assert s[i + |w|] == (w + rest)[|w|];
      AfterWordIsBlank(gaps, words);
    }
  }

  /** What follows the first word of separated words starts with a
      delimiter, unless it is empty. */
  lemma AfterWordIsBlank(gaps: seq<string>, words: seq<string>)
    requires Separates(gaps, words) && words != []
    ensures var rest := Join(gaps[1..], words[1..]);
      rest != [] ==> IsDelim(rest[0])
  {
    var rest := Join(gaps[1..], words[1..]);
    if rest != [] {
      if words[1..] == [] {
        assert rest == gaps[1];
      } else {
        assert |gaps[1]| > 0;
        assert rest == gaps[1] + (words[1] + Join(gaps[2..], words[2..]));
        assert rest[0] == gaps[1][0];
      }
    }
  }

  lemma SeparatesTail(gaps: seq<string>, words: seq<string>)
    requires Separates(gaps, words) && words != []
    ensures Separates(gaps[1..], words[1..])
  {
    forall k | 0 < k < |words[1..]| ensures |gaps[1..][k]| > 0 {
      assert gaps[1..][k] == gaps[k + 1];
    }
  }

  /** Splitting a line whose suffix at `i` is rebuilt from separated words
      gives back exactly those words, whatever blank runs surround them. */
  lemma {:induction false} TokensFromJoin(s: string, i: nat, gaps: seq<string>, words: seq<string>)
    requires Separates(gaps, words)
    requires i <= |s| && s[i..] == Join(gaps, words)
    ensures TokensFrom(s, i) == words
    decreases |s| - i
  {
    if gaps[0] != [] {
      DropGapChar(s, i, gaps, words);
      TokensFromJoin(s, i + 1, [gaps[0][1..]] + gaps[1..], words);
    } else if words == [] {
      assert s[i..] == [];
    } else {
      TakeWord(s, i, gaps, words);
      var e := i + |words[0]|;
      TokensFromJoin(s, e, gaps[1..], words[1..]);
      assert TokensFrom(s, i) == [s[i..e]] + TokensFrom(s, e);
    }
  }

  /** A delimiter at `i` joins the first blank run of the suffix after it. */
  lemma JoinDelimStep(s: string, i: nat)
    requires i < |s| && IsDelim(s[i])
    requires Separates(GapsFrom(s, i + 1), TokensFrom(s, i + 1))
    requires Join(GapsFrom(s, i + 1), TokensFrom(s, i + 1)) == s[i + 1..]
    ensures Separates(GapsFrom(s, i), TokensFrom(s, i))
    ensures Join(GapsFrom(s, i), TokensFrom(s, i)) == s[i..]
  {
    var r := GapsFrom(s, i + 1);
    var ts := TokensFrom(s, i + 1);
    JoinConsGap(s[i], r, ts);
    assert s[i..] == [s[i]] + s[i + 1..];
    var gs := GapsFrom(s, i);
    assert gs == [[s[i]] + r[0]] + r[1..];
    assert IsBlank(gs[0]) by {
      forall k | 0 <= k < |gs[0]| ensures IsDelim(gs[0][k]) {
        if k > 0 { assert gs[0][k] == r[0][k - 1]; }
      }
    }
    forall k | 0 < k < |gs| ensures gs[k] == r[k] { }
  }

  /** A word at `i`, ending at `e`, comes after an empty blank run. */
  lemma JoinWordStep(s: string, i: nat, e: nat)
    requires i < |s| && !IsDelim(s[i]) && e == i + CSpan(s, i)
    requires Separates(GapsFrom(s, e), TokensFrom(s, e))
    requires Join(GapsFrom(s, e), TokensFrom(s, e)) == s[e..]
    ensures Separates(GapsFrom(s, i), TokensFrom(s, i))
    ensures Join(GapsFrom(s, i), TokensFrom(s, i)) == s[i..]
  {
    WordSeparates(s, i, e);
    var gs, ts := GapsFrom(s, e), TokensFrom(s, e);
    UnfoldAtWord(s, i, e);
    JoinCons("", s[i..e], gs, ts);
    assert "" + s[i..e] == s[i..e];
    SplitAt(s, i, e);
  }

  /** The runs and the tokens at the start of a word. */
  lemma UnfoldAtWord(s: string, i: nat, e: nat)
    requires i < |s| && !IsDelim(s[i]) && e == i + CSpan(s, i)
    ensures GapsFrom(s, i) == [""] + GapsFrom(s, e)
    ensures TokensFrom(s, i) == [s[i..e]] + TokensFrom(s, e)
  {
    GapsAtWord(s, i);
    TokensAtWord(s, i);
  }

  lemma GapsAtWord(s: string, i: nat)
    requires i < |s| && !IsDelim(s[i])
    ensures GapsFrom(s, i) == [""] + GapsFrom(s, i + CSpan(s, i))
  {
  }

  lemma TokensAtWord(s: string, i: nat)
    requires i < |s| && !IsDelim(s[i])
    ensures TokensFrom(s, i) == [s[i..i + CSpan(s, i)]] + TokensFrom(s, i + CSpan(s, i))
  {
  }

  lemma SplitAt(s: string, i: nat, e: nat)
    requires i <= e <= |s|
    ensures s[i..e] + s[e..] == s[i..]
  {
  }

  lemma JoinCons(g: string, w: string, gs: seq<string>, ws: seq<string>)
    requires |gs| == |ws| + 1
    ensures Join([g] + gs, [w] + ws) == g + w + Join(gs, ws)
  {
    assert ([g] + gs)[1..] == gs;
    assert ([w] + ws)[1..] == ws;
  }

  lemma WordSeparates(s: string, i: nat, e: nat)
    requires i < |s| && !IsDelim(s[i]) && e == i + CSpan(s, i)
    requires Separates(GapsFrom(s, e), TokensFrom(s, e))
    ensures Separates(GapsFrom(s, i), TokensFrom(s, i))
  {
    var gs, ts := GapsFrom(s, i), TokensFrom(s, i);
    assert gs[1..] == GapsFrom(s, e);
    assert ts[1..] == TokensFrom(s, e);
    if |ts| > 1 {
      // the next blank run starts with the delimiter that ended this word
      assert e < |s| && IsDelim(s[e]);
      assert |gs[1]| > 0;
    }
  }

  /** Every suffix of a line is its tokens separated by its blank runs. */
  lemma {:induction false} JoinOfTokensFrom(s: string, i: nat)
    requires i <= |s|
    ensures Separates(GapsFrom(s, i), TokensFrom(s, i))
    ensures Join(GapsFrom(s, i), TokensFrom(s, i)) == s[i..]
    decreases |s| - i
  {
    if i == |s| {
    } else if IsDelim(s[i]) {
      JoinOfTokensFrom(s, i + 1);
      JoinDelimStep(s, i);
    } else {
      var e := i + CSpan(s, i);
      JoinOfTokensFrom(s, e);
      JoinWordStep(s, i, e);
    }
  }

  /** `Tokens` in both directions: the tokens of a line are the words that
      some separating blank runs rebuild into the line, and only those. */
  lemma TokensCharacterized(s: string, gaps: seq<string>, words: seq<string>)
    ensures Separates(GapsFrom(s, 0), Tokens(s)) && Join(GapsFrom(s, 0), Tokens(s)) == s
    ensures Separates(gaps, words) && Join(gaps, words) == s ==> Tokens(s) == words
  {
    JoinOfTokensFrom(s, 0);
    assert s[0..] == s;
    if Separates(gaps, words) && Join(gaps, words) == s {
      TokensFromJoin(s, 0, gaps, words);
    }
  }

  /** A blank suffix has no tokens, any other suffix has some. */
  lemma {:induction false} NoTokensIffBlank(s: string, i: nat)
    requires i <= |s|
    ensures TokensFrom(s, i) == [] <==> IsBlank(s[i..])
    decreases |s| - i
  {
    if i < |s| {
      assert s[i..][0] == s[i];
      if IsDelim(s[i]) {
        NoTokensIffBlank(s, i + 1);
        assert s[i + 1..] == s[i..][1..];
        if IsBlank(s[i + 1..]) {
          forall k | 0 <= k < |s[i..]| ensures IsDelim(s[i..][k]) {
            if k > 0 { assert s[i..][k] == s[i + 1..][k - 1]; }
          }
        }
      }
    }
  }

  /** Leading delimiters do not change the tokens. */
  lemma {:induction false} SkipBlank(s: string, i: nat, j: nat)
    requires i <= |s| && j == i + Span(s, i)
    ensures TokensFrom(s, j) == TokensFrom(s, i)
    decreases |s| - i
  {
    if i < |s| && IsDelim(s[i]) {
      SkipBlank(s, i + 1, j);
    }
  }

  /** One step of both scanning loops: from the start of a word at `i`,
      stepping over the word and the blanks after it reaches `next`, and the
      tokens lose that word. */
  lemma WordStep(s: string, i: nat, next: nat)
    requires i < |s| && !IsDelim(s[i])
    requires next == i + CSpan(s, i) + Span(s, i + CSpan(s, i))
    ensures 0 < CSpan(s, i) && next <= |s|
    ensures next == |s| || !IsDelim(s[next])
    ensures TokensFrom(s, i) == [s[i..i + CSpan(s, i)]] + TokensFrom(s, next)
  {
    var e := i + CSpan(s, i);
    assert TokensFrom(s, i) == [s[i..e]] + TokensFrom(s, e);
    SkipBlank(s, e, next);
  }

  /** One step of `tokenize`'s loop: the word at `here` is the next token
      still to store, and the rest start at `next`. */
  lemma TokenizeStep(s: string, here: nat, next: nat, stored: seq<string>, rest: seq<string>, all: seq<string>)
    requires here < |s| && !IsDelim(s[here])
    requires next == here + CSpan(s, here) + Span(s, here + CSpan(s, here))
    requires rest == TokensFrom(s, here) && all == stored + rest
    ensures next <= |s| && (next == |s| || !IsDelim(s[next]))
    ensures rest != [] && rest[0] == s[here..here + CSpan(s, here)]
    ensures rest[1..] == TokensFrom(s, next) && all == (stored + [rest[0]]) + rest[1..]
  {
    WordStep(s, here, next);
  }

  /** `count_tokens`: skip the leading blanks, then repeatedly step over one
      word and the blanks after it, counting the words. */
  method CountTokens(buffer: string) returns (numTok: nat)
    ensures numTok == |Tokens(buffer)|
  {
    ghost var total := |Tokens(buffer)|;
    var lead := Span(buffer, 0);
    SkipBlank(buffer, 0, lead);
    numTok := 0;
    var i1 := 0;
    ghost var pos := lead;
    ghost var rest := TokensFrom(buffer, pos);
    while CSpan(buffer, lead + i1) != 0
      invariant pos == lead + i1 && pos <= |buffer|
      invariant pos == |buffer| || !IsDelim(buffer[pos])
      invariant rest == TokensFrom(buffer, pos) && numTok + |rest| == total
      decreases |buffer| - pos
    {
      var plus := CSpan(buffer, lead + i1);
      var numDelim := Span(buffer, lead + i1 + plus);
      i1 := i1 + (plus + numDelim);
      numTok := numTok + 1;
      WordStep(buffer, pos, lead + i1);
      pos, rest := lead + i1, rest[1..];
    }
    // a word at pos would have a non-zero strcspn
    assert pos == |buffer|;
    assert rest == [];
  }

  /** `tokenize`: `strtok` hands out the words one after another and each is
      stored in the next slot of `arr`; slots past the last word are not
      touched. */
  method Tokenize(arr: array<Option<string>>, buffer: string)
    requires arr.Length >= |Tokens(buffer)|
    modifies arr
    ensures forall k :: 0 <= k < |Tokens(buffer)| ==> arr[k] == Some(Tokens(buffer)[k])
    ensures arr[|Tokens(buffer)|..] == old(arr[|Tokens(buffer)|..])
  {
    ghost var all := Tokens(buffer);
    var pos := Span(buffer, 0);
    SkipBlank(buffer, 0, pos);
    var i2 := 0;
    ghost var stored, rest := [], all;
    while pos < |buffer|
      invariant pos <= |buffer|
      invariant pos == |buffer| || !IsDelim(buffer[pos])
      invariant rest == TokensFrom(buffer, pos) && all == stored + rest && i2 == |stored|
      invariant forall k :: 0 <= k < i2 ==> arr[k] == Some(stored[k])
      invariant arr[i2..] == old(arr[i2..])
      decreases |buffer| - pos
    {
      ghost var here := pos;
      var w := CSpan(buffer, pos);
      var skip := Span(buffer, pos + w);
      arr[i2] := Some(buffer[pos..pos + w]);
      pos := pos + w + skip;
      TokenizeStep(buffer, here, pos, stored, rest, all);
      stored, rest := stored + [rest[0]], rest[1..];
      i2 := i2 + 1;
    }
    assert rest == [] && stored == all;
  }
}
