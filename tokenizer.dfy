/** `parseCommand` (cpp_shell.cpp:48-56): the trimmed line is read word by word with
    `std::istringstream >> std::string`, which skips and splits on the C `isspace`
    characters. That set is larger than the one `trim` strips: it also holds the
    vertical tab and the form feed. */
module Tokenizer {
  import opened Text

  /** The characters `isspace` accepts in the "C" locale. */
  const StreamSpace: set<char> := {' ', '\t', '\n', '\U{B}', '\U{C}', '\r'}

  /** A token: non-empty and free of stream whitespace. */
  predicate IsWord(w: string) {
    w != [] && NoneIn(w, StreamSpace)
  }

  /** Length of the leading run of non-whitespace characters. */
  function WordLength(s: string): (n: nat)
    ensures n <= |s|
    ensures forall k :: 0 <= k < n ==> s[k] !in StreamSpace
    ensures n < |s| ==> s[n] in StreamSpace
  {
    if s == [] || s[0] in StreamSpace then 0 else 1 + WordLength(s[1..])
  }

  /** The words `>>` extracts from `s`, in order. */
  function Tokens(s: string): seq<string>
    decreases |s|
  {
    if s == [] then []
    else if s[0] in StreamSpace then Tokens(s[1..])
    else
      var n := WordLength(s);
      [s[..n]] + Tokens(s[n..])
  }

  /** `parseCommand`: extract words from the trimmed input until the stream is exhausted. */
  method ParseCommand(input: string) returns (tokens: seq<string>)
    ensures tokens == Tokens(input)
    ensures forall i :: 0 <= i < |tokens| ==> IsWord(tokens[i])
  {
    tokens := ReadWords(Trim(input));
    TokensOfTrim(input);
    TokensAreWords(input);
  }

  /** The `while (iss >> token)` loop: `rest` is what the stream has not yet consumed;
      each round either skips one whitespace character or extracts the next word. */
  method ReadWords(s: string) returns (tokens: seq<string>)
    ensures tokens == Tokens(s)
  {
    tokens := [];
    var rest := s;
    while rest != []
      invariant tokens + Tokens(rest) == Tokens(s)
      decreases |rest|
    {
      if rest[0] in StreamSpace {
        rest := rest[1..];
      } else {
        var n := WordEnd(rest);
        TokensOfWordAt(rest, n);
        AppendAssociative(tokens, [rest[..n]], Tokens(rest[n..]));
        tokens := tokens + [rest[..n]];
        rest := rest[n..];
      }
    }
  }

  /** One `iss >> token` once the leading whitespace is skipped: the length of the run
      of non-whitespace characters at the front of `s`. */
  method WordEnd(s: string) returns (n: nat)
    requires s != [] && s[0] !in StreamSpace
    ensures 0 < n <= |s|
    ensures forall k :: 0 <= k < n ==> s[k] !in StreamSpace
    ensures n < |s| ==> s[n] in StreamSpace
    ensures n == WordLength(s)
  {
    n := 1;
    while n < |s| && s[n] !in StreamSpace
      invariant 1 <= n <= |s|
      invariant forall k :: 0 <= k < n ==> s[k] !in StreamSpace
    {
      n := n + 1;
    }
    WordLengthIs(s, n);
  }

  /** A string whose first `n` characters form a maximal word starts with that token. */
  lemma {:induction false} TokensOfWordAt(t: string, n: nat)
    requires 0 < n <= |t|
    requires forall k :: 0 <= k < n ==> t[k] !in StreamSpace
    requires n < |t| ==> t[n] in StreamSpace
    ensures Tokens(t) == [t[..n]] + Tokens(t[n..])
  {
    WordLengthIs(t, n);
  }

  lemma {:induction false} WordLengthIs(s: string, n: nat)
    requires n <= |s|
    requires forall k :: 0 <= k < n ==> s[k] !in StreamSpace
    requires n < |s| ==> s[n] in StreamSpace
    ensures WordLength(s) == n
  {
  }

  /** Every token is non-empty and holds no whitespace. */
  lemma {:induction false} TokensAreWords(s: string)
    ensures forall i :: 0 <= i < |Tokens(s)| ==> IsWord(Tokens(s)[i])
    decreases |s|
  {
    if s == [] {
    } else if s[0] in StreamSpace {
      TokensAreWords(s[1..]);
    } else {
      var n := WordLength(s);
      TokensAreWords(s[n..]);
    }
  }

  /** The line gives no token exactly when it is whitespace only. */
  lemma {:induction false} TokensEmptyIffBlank(s: string)
    ensures Tokens(s) == [] <==> AllIn(s, StreamSpace)
    decreases |s|
  {
    if s == [] {
    } else if s[0] in StreamSpace {
      TokensEmptyIffBlank(s[1..]);
      assert AllIn(s, StreamSpace) <==> AllIn(s[1..], StreamSpace) by {
        if AllIn(s[1..], StreamSpace) {
          forall k | 0 <= k < |s| ensures s[k] in StreamSpace {
            if k > 0 { assert s[k] == s[1..][k - 1]; }
          }
        }
      }
    } else {
      assert !AllIn(s, StreamSpace);
    }
  }

  /** Leading whitespace does not change the tokens. */
  lemma {:induction false} TokensSkipLeading(lead: string, s: string)
    requires AllIn(lead, StreamSpace)
    ensures Tokens(lead + s) == Tokens(s)
    decreases |lead|
  {
    if lead != [] {
      assert (lead + s)[0] == lead[0] && lead[0] in StreamSpace;
      assert (lead + s)[1..] == lead[1..] + s;
      assert AllIn(lead[1..], StreamSpace) by {
        forall k | 0 <= k < |lead[1..]| ensures lead[1..][k] in StreamSpace {
          assert lead[1..][k] == lead[k + 1];
        }
      }
      TokensSkipLeading(lead[1..], s);
      assert Tokens(lead + s) == Tokens((lead + s)[1..]);
    } else {
      assert lead + s == s;
    }
  }

  /** Trailing whitespace does not change the tokens. */
  lemma {:induction false} TokensSkipTrailing(s: string, trail: string)
    requires AllIn(trail, StreamSpace)
    ensures Tokens(s + trail) == Tokens(s)
    decreases |s|
  {
    if s == [] {
      assert s + trail == trail;
      TokensEmptyIffBlank(trail);
    } else if s[0] in StreamSpace {
      assert (s + trail)[1..] == s[1..] + trail;
      TokensSkipTrailing(s[1..], trail);
    } else {
      var n := WordLength(s);
      WordLengthIs(s + trail, n);
      assert (s + trail)[..n] == s[..n];
      assert (s + trail)[n..] == s[n..] + trail;
      TokensSkipTrailing(s[n..], trail);
    }
  }

  /** A word followed by nothing or by whitespace comes out as one token. */
  lemma {:induction false} WordThenRest(w: string, rest: string)
    requires IsWord(w)
    requires rest == [] || rest[0] in StreamSpace
    ensures Tokens(w + rest) == [w] + Tokens(rest)
  {
    var s := w + rest;
    WordLengthIs(s, |w|);
    assert s[..|w|] == w;
    assert s[|w|..] == rest;
  }

  lemma {:induction false} TrimCharsAreSpace(s: string)
    requires AllIn(s, TrimChars)
    ensures AllIn(s, StreamSpace)
  {
    assert TrimChars <= StreamSpace;
  }

  /** `parseCommand` may trim first: `trim` only strips characters `>>` skips anyway. */
  lemma {:induction false} TokensOfTrim(s: string)
    ensures Tokens(Trim(s)) == Tokens(s)
  {
    var lead, trail := TrimSplit(s);
    TrimCharsAreSpace(lead);
    TrimCharsAreSpace(trail);
    TokensAround(lead, Trim(s), trail);
  }

  /** Whitespace on either side of `t` does not change its tokens. */
  lemma {:induction false} TokensAround(lead: string, t: string, trail: string)
    requires AllIn(lead, StreamSpace) && AllIn(trail, StreamSpace)
    ensures Tokens(lead + t + trail) == Tokens(t)
  {
    assert lead + t + trail == lead + (t + trail);
    TokensSkipLeading(lead, t + trail);
    TokensSkipTrailing(t, trail);
  }

  /** A line laid out as gaps of whitespace around words: gaps[0], words[0], gaps[1], ...,
      words[n-1], gaps[n]. */
  function Interleave(gaps: seq<string>, words: seq<string>): string
    requires |gaps| == |words| + 1
    decreases |words|
  {
    if words == [] then gaps[0] else gaps[0] + words[0] + Interleave(gaps[1..], words[1..])
  }

  /** Gaps are whitespace, the ones between two words are non-empty, words are words. */
  predicate ValidLayout(gaps: seq<string>, words: seq<string>) {
    && |gaps| == |words| + 1
    && (forall i :: 0 <= i < |gaps| ==> AllIn(gaps[i], StreamSpace))
    && (forall i :: 0 < i < |words| ==> gaps[i] != [])
    && (forall i :: 0 <= i < |words| ==> IsWord(words[i]))
  }

  /** Tokenizing a layout gives back its words: the tokens are the maximal runs of
      non-whitespace characters, in order. */
  lemma {:induction false} TokensOfLayout(gaps: seq<string>, words: seq<string>)
    requires ValidLayout(gaps, words)
    ensures Tokens(Interleave(gaps, words)) == words
    decreases |words|
  {
    if words == [] {
      TokensEmptyIffBlank(gaps[0]);
    } else {
      var rest := Interleave(gaps[1..], words[1..]);
      LayoutTail(gaps, words);
      TokensOfLayout(gaps[1..], words[1..]);
      LayoutRestStartsWithSpace(gaps, words);
      WordThenRest(words[0], rest);
      AppendAssociative(gaps[0], words[0], rest);
      TokensSkipLeading(gaps[0], words[0] + rest);
    }
  }

  lemma {:induction false} LayoutTail(gaps: seq<string>, words: seq<string>)
    requires ValidLayout(gaps, words) && words != []
    ensures ValidLayout(gaps[1..], words[1..])
  {
    assert forall i :: 0 <= i < |gaps| - 1 ==> gaps[1..][i] == gaps[i + 1];
    assert forall i :: 0 <= i < |words| - 1 ==> words[1..][i] == words[i + 1];
  }

  /** After the first word of a layout comes a non-empty gap or the end of the line. */
  lemma {:induction false} LayoutRestStartsWithSpace(gaps: seq<string>, words: seq<string>)
    requires ValidLayout(gaps, words) && words != []
    ensures Interleave(gaps[1..], words[1..]) == [] ||
      Interleave(gaps[1..], words[1..])[0] in StreamSpace
  {
    if words[1..] != [] {
      var rest := Interleave(gaps[1..], words[1..]);
      assert gaps[1..][0] == gaps[1] && gaps[1] != [];
      AppendAssociative(gaps[1], words[1], Interleave(gaps[2..], words[2..]));
      assert gaps[1..][1..] == gaps[2..] && words[1..][1..] == words[2..];
      assert rest == gaps[1] + (words[1] + Interleave(gaps[2..], words[2..]));
      assert rest[0] == gaps[1][0];
    }
  }

  /** Every line is a layout of its own tokens, so TokensOfLayout describes all lines. */
  lemma {:induction false} LayoutOfLine(s: string) returns (gaps: seq<string>)
    ensures ValidLayout(gaps, Tokens(s))
    ensures Interleave(gaps, Tokens(s)) == s
    decreases |s|
  {
    if s == [] {
      gaps := [[]];
    } else if s[0] in StreamSpace {
      var g := LayoutOfLine(s[1..]);
      assert [s[0]] + s[1..] == s;
      gaps := PrependSpace(s[0], g, Tokens(s[1..]), s[1..]);
    } else {
      var n := WordLength(s);
      var g := LayoutOfLine(s[n..]);
      assert s[..n] + s[n..] == s;
      gaps := PrependWord(s[..n], g, Tokens(s[n..]), s[n..]);
    }
  }

  /** A whitespace character in front of a layout joins its first gap. */
  lemma {:induction false} PrependSpace(c: char, g: seq<string>, w: seq<string>, t: string) returns (gaps: seq<string>)
    requires c in StreamSpace
    requires ValidLayout(g, w) && Interleave(g, w) == t
    ensures ValidLayout(gaps, w) && Interleave(gaps, w) == [c] + t
  {
    gaps := [[c] + g[0]] + g[1..];
    assert gaps[1..] == g[1..];
    if w != [] {
      calc {
        Interleave(gaps, w);
        gaps[0] + w[0] + Interleave(g[1..], w[1..]);
        [c] + (g[0] + w[0] + Interleave(g[1..], w[1..]));
        [c] + t;
      }
    }
    assert AllIn(g[0], StreamSpace);
    assert AllIn([c] + g[0], StreamSpace);
    forall i | 0 < i < |gaps| ensures gaps[i] == g[i] {
    }
  }

  /** A word in front of a layout whose line is empty or starts with whitespace becomes
      its first word, after an empty gap. */
  lemma {:induction false} PrependWord(word: string, g: seq<string>, w: seq<string>, t: string) returns (gaps: seq<string>)
    requires IsWord(word)
    requires ValidLayout(g, w) && Interleave(g, w) == t
    requires t == [] || t[0] in StreamSpace
    ensures ValidLayout(gaps, [word] + w) && Interleave(gaps, [word] + w) == word + t
  {
    gaps := [[]] + g;
    var w2 := [word] + w;
    assert gaps[1..] == g && w2[0] == word && w2[1..] == w;
    assert Interleave(gaps, w2) == [] + word + Interleave(g, w);
    assert [] + word + t == word + t;
    if w != [] {
      FirstGapAfterWord(t, g, w);
    }
    forall i | 0 < i < |gaps| ensures gaps[i] == g[i - 1] {
    }
    forall i | 0 < i < |w2| ensures gaps[i] != [] {
    }
    forall i | 0 <= i < |w2| ensures IsWord(w2[i]) {
      if i > 0 { assert w2[i] == w[i - 1]; }
    }
  }

  /** In a layout of a line that starts with whitespace, the first gap is not empty. */
  lemma {:induction false} FirstGapAfterWord(t: string, g: seq<string>, w: seq<string>)
    requires ValidLayout(g, w) && Interleave(g, w) == t
    requires w != [] && t[0] in StreamSpace
    ensures g[0] != []
  {
    assert t == g[0] + w[0] + Interleave(g[1..], w[1..]);
    assert IsWord(w[0]);
  }
}
