/**
 * The line tokenizer of the shell (tokenize_line in shell.cpp).
 *
 * The line is split strtok-style on runs of the delimiter set
 * " \t\r\n\a". The tokens are stored in a heap vector that starts with
 * 32 slots and doubles whenever the next token could take the last slot,
 * so that one slot always remains for the null terminator execvp needs.
 *
 * Specification side: NextToken is strtok's search for the next token,
 * LayoutFrom cuts a line into delimiter gaps and tokens, and LayoutUnique
 * shows that every such cut of a line is that one, so the tokens are
 * exactly the maximal runs of non-delimiters, in order.
 * Implementation side: TokenizeLine fills a growable array of slots and
 * is proved to store exactly the tokens of the line up to its first '\0',
 * followed by the terminator.
 */
module Tokenizer {
  import opened Wrappers

  /** A token handed to execvp; the C string is modelled by its characters. */
  type Token = seq<char>

  /** One slot of the argument vector: a token or the null terminator. */
  datatype Slot = Null | Arg(text: Token)

  /** Initial length of the token vector (tokens_list_len). */
  const InitialCapacity: nat := 32

  /** The delimiter set " \t\r\n\a"; '\a' is the bell character, code 7. */
  predicate IsDelim(c: char)
  {
    c == ' ' || c == '\t' || c == '\r' || c == '\n' || c == 7 as char
  }

  predicate AllDelims(s: seq<char>)
  {
    forall k :: 0 <= k < |s| ==> IsDelim(s[k])
  }

  /** A token: non-empty and free of delimiters. */
  predicate IsWord(w: seq<char>)
  {
    w != [] && forall k :: 0 <= k < |w| ==> !IsDelim(w[k])
  }

  // ---------------------------------------------------------------------
  // strtok
  // ---------------------------------------------------------------------

  /** First index at or after i that does not hold a delimiter (|s| if none). */
  function SkipDelims(s: seq<char>, i: nat): (j: nat)
    requires i <= |s|
    ensures i <= j <= |s|
    ensures forall k :: i <= k < j ==> IsDelim(s[k])
    ensures j == |s| || !IsDelim(s[j])
    decreases |s| - i
  {
    if i == |s| || !IsDelim(s[i]) then i else SkipDelims(s, i + 1)
  }

  /** First index at or after i that holds a delimiter (|s| if none). */
  function RunEnd(s: seq<char>, i: nat): (j: nat)
    requires i <= |s|
    ensures i <= j <= |s|
    ensures forall k :: i <= k < j ==> !IsDelim(s[k])
    ensures j == |s| || IsDelim(s[j])
    decreases |s| - i
  {
    if i == |s| || IsDelim(s[i]) then i else RunEnd(s, i + 1)
  }

  /** Where a token lies in the line: s[start..stop]. */
  datatype Span = Span(start: nat, stop: nat)

  /**
   * strtok(p, DELIM) with the scan position at i: the next token is the
   * maximal run of non-delimiters after the delimiters that follow i, and
   * there is none when only delimiters are left.
   */
  function NextToken(s: seq<char>, i: nat): (r: Option<Span>)
    requires i <= |s|
    ensures r.None? <==> forall k :: i <= k < |s| ==> IsDelim(s[k])
    ensures r.Some? ==>
      && i <= r.value.start < r.value.stop <= |s|
      && (forall k :: i <= k < r.value.start ==> IsDelim(s[k]))
      && IsWord(s[r.value.start..r.value.stop])
      && (r.value.stop == |s| || IsDelim(s[r.value.stop]))
  {
    var start := SkipDelims(s, i);
    if start == |s| then None else Some(Span(start, RunEnd(s, start)))
  }

  /**
   * Where strtok resumes after a token: it overwrites the delimiter that
   * ends the token with '\0' and continues after it; a token that ends
   * the line leaves the position at the end.
   */
  function Resume(s: seq<char>, sp: Span): (i: nat)
    requires sp.stop <= |s|
    ensures sp.stop <= i <= |s|
  {
    if sp.stop < |s| then sp.stop + 1 else sp.stop
  }

  // ---------------------------------------------------------------------
  // Specification: a line as delimiter gaps and tokens
  // ---------------------------------------------------------------------

  /** A line cut into gaps of delimiters and the tokens between them. */
  datatype Layout = Layout(gaps: seq<seq<char>>, words: seq<Token>)

  /**
   * gaps[0] + words[0] + gaps[1] + ... + words[n-1] + gaps[n].
   */
  function Interleave(gaps: seq<seq<char>>, words: seq<Token>): seq<char>
    requires |gaps| == |words| + 1
  {
    if words == [] then gaps[0]
    else gaps[0] + words[0] + Interleave(gaps[1..], words[1..])
  }

  /**
   * Gaps hold only delimiters, gaps between two tokens are not empty, and
   * tokens are non-empty and hold no delimiter: the tokens are maximal
   * runs of non-delimiters.
   */
  predicate WellSeparated(l: Layout)
  {
    && |l.gaps| == |l.words| + 1
    && (forall k :: 0 <= k < |l.gaps| ==> AllDelims(l.gaps[k]))
    && (forall k :: 0 < k < |l.words| ==> l.gaps[k] != [])
    && (forall k :: 0 <= k < |l.words| ==> IsWord(l.words[k]))
  }

  /** The layout of s[i..]: the gaps and tokens strtok meets from i on. */
  function LayoutFrom(s: seq<char>, i: nat): (r: Layout)
    requires i <= |s|
    ensures |r.gaps| == |r.words| + 1
    decreases |s| - i
  {
    match NextToken(s, i)
    case None => Layout([s[i..]], [])
    case Some(sp) =>
      var rest := LayoutFrom(s, sp.stop);
      Layout([s[i..sp.start]] + rest.gaps, [s[sp.start..sp.stop]] + rest.words)
  }

  /**
   * The tokens strtok returns once its scan position is i, calling it
   * again after each token until it returns null.
   */
  function TokensFrom(s: seq<char>, i: nat): (r: seq<Token>)
    requires i <= |s|
    ensures |r| <= |s| - i
    decreases |s| - i
  {
    match NextToken(s, i)
    case None => []
    case Some(sp) => [s[sp.start..sp.stop]] + TokensFrom(s, Resume(s, sp))
  }

  /** Unfolds TokensFrom once: the token strtok returns, then the rest. */
  lemma TokensFromStep(s: seq<char>, i: nat)
    requires i <= |s|
    ensures NextToken(s, i).None? ==> TokensFrom(s, i) == []
    ensures NextToken(s, i).Some? ==>
      TokensFrom(s, i) == [s[NextToken(s, i).value.start..NextToken(s, i).value.stop]]
                          + TokensFrom(s, Resume(s, NextToken(s, i).value))
  {
  }

  /** The tokens of the whole line. */
  function Tokens(s: seq<char>): (r: seq<Token>)
    ensures |r| <= |s|
  {
    TokensFrom(s, 0)
  }

  // ---------------------------------------------------------------------
  // Properties of the tokenization
  // ---------------------------------------------------------------------

  /** SkipDelims is determined by its contract. */
  lemma SkipDelimsAt(s: seq<char>, i: nat, j: nat)
    requires i <= j <= |s|
    requires forall k :: i <= k < j ==> IsDelim(s[k])
    requires j == |s| || !IsDelim(s[j])
    ensures SkipDelims(s, i) == j
  {
  }

  /** RunEnd is determined by its contract. */
  lemma RunEndAt(s: seq<char>, i: nat, j: nat)
    requires i <= j <= |s|
    requires forall k :: i <= k < j ==> !IsDelim(s[k])
    requires j == |s| || IsDelim(s[j])
    ensures RunEnd(s, i) == j
  {
  }

  /** Cutting s[i..] at a and b. */
  lemma SliceInThree<T>(s: seq<T>, i: nat, a: nat, b: nat)
    requires i <= a <= b <= |s|
    ensures s[i..] == s[i..a] + s[a..b] + s[b..]
  {
    assert s[i..a] + s[a..b] == s[i..b];
    assert s[i..b] + s[b..] == s[i..];
  }

  /** Where the parts of g0 + w0 + rest lie in s, when it is s[i..]. */
  lemma LayoutParts(s: seq<char>, i: nat, g0: seq<char>, w0: Token, rest: seq<char>)
    requires i <= |s| && s[i..] == g0 + w0 + rest
    ensures i + |g0| + |w0| <= |s|
    ensures s[i..i + |g0|] == g0
    ensures s[i + |g0|..i + |g0| + |w0|] == w0
    ensures s[i + |g0| + |w0|..] == rest
    ensures forall k :: i <= k < i + |g0| ==> s[k] == g0[k - i]
    ensures forall k :: i + |g0| <= k < i + |g0| + |w0| ==> s[k] == w0[k - i - |g0|]
    ensures i + |g0| + |w0| < |s| ==> s[i + |g0| + |w0|] == rest[0]
  {
    var t := g0 + w0 + rest;
    var a, b := |g0|, |g0| + |w0|;
    assert t[..a] == g0;
    assert t[a..b] == w0;
    assert t[b..] == rest;
    assert s[i..i + a] == s[i..][..a];
    assert s[i + a..i + b] == s[i..][a..b];
    assert s[i + b..] == s[i..][b..];
    forall k | i <= k < i + b ensures s[k] == t[k - i] {
      assert s[k] == s[i..][k - i];
    }
    if i + b < |s| {
      assert s[i + b] == s[i..][b];
    }
  }

  /** A delimiter gap followed by a token at i: strtok returns that token. */
  lemma FirstToken(s: seq<char>, i: nat, g0: seq<char>, w0: Token, rest: seq<char>)
    requires i <= |s| && s[i..] == g0 + w0 + rest
    requires AllDelims(g0) && IsWord(w0)
    requires rest == [] || IsDelim(rest[0])
    ensures i + |g0| + |w0| <= |s|
    ensures NextToken(s, i) == Some(Span(i + |g0|, i + |g0| + |w0|))
  {
    LayoutParts(s, i, g0, w0, rest);
    var start := i + |g0|;
    var stop := start + |w0|;
    assert forall k :: i <= k < start ==> IsDelim(s[k]);
    assert forall k :: start <= k < stop ==> !IsDelim(s[k]);
    assert !IsDelim(s[start]);
    assert stop == |s| || IsDelim(s[stop]);
    SkipDelimsAt(s, i, start);
    RunEndAt(s, start, stop);
  }

  /** Dropping the first gap and token keeps a layout well separated. */
  lemma TailWellSeparated(l: Layout)
    requires WellSeparated(l) && l.words != []
    ensures WellSeparated(Layout(l.gaps[1..], l.words[1..]))
    ensures Interleave(l.gaps[1..], l.words[1..]) == [] || IsDelim(Interleave(l.gaps[1..], l.words[1..])[0])
  {
    var tail := Layout(l.gaps[1..], l.words[1..]);
    forall k | 0 <= k < |tail.gaps| ensures AllDelims(tail.gaps[k]) {
      assert tail.gaps[k] == l.gaps[k + 1];
    }
    forall k | 0 < k < |tail.words| ensures tail.gaps[k] != [] {
      assert tail.gaps[k] == l.gaps[k + 1];
    }
    forall k | 0 <= k < |tail.words| ensures IsWord(tail.words[k]) {
      assert tail.words[k] == l.words[k + 1];
    }
    assert AllDelims(l.gaps[1]);
    if tail.words != [] {
      assert l.gaps[1] != [];
    }
  }

  /**
   * Any cut of s[i..] into well-separated gaps and tokens is the one
   * strtok finds: the tokens are exactly the maximal runs of
   * non-delimiters, in their input order.
   */
  lemma {:induction false} LayoutUnique(s: seq<char>, i: nat, l: Layout)
    requires i <= |s|
    requires WellSeparated(l)
    requires Interleave(l.gaps, l.words) == s[i..]
    ensures LayoutFrom(s, i) == l
    decreases |l.words|
  {
    if l.words == [] {
      LayoutUniqueNoWords(s, i, l);
    } else {
      var tail := Layout(l.gaps[1..], l.words[1..]);
      TailWellSeparated(l);
      var stop := i + |l.gaps[0]| + |l.words[0]|;
      LayoutUniqueFirst(s, i, l, stop);
      LayoutUnique(s, stop, tail);
      LayoutUniqueCons(s, i, l, stop);
    }
  }

  /** LayoutUnique without tokens: only delimiters are left. */
  lemma LayoutUniqueNoWords(s: seq<char>, i: nat, l: Layout)
    requires i <= |s| && WellSeparated(l) && l.words == []
    requires Interleave(l.gaps, l.words) == s[i..]
    ensures LayoutFrom(s, i) == l
  {
    var g0 := l.gaps[0];
    assert s[i..] == g0;
    assert forall k :: i <= k < |s| ==> IsDelim(s[k]) by {
      forall k | i <= k < |s| ensures IsDelim(s[k]) {
        assert s[k] == s[i..][k - i] == g0[k - i];
      }
    }
    assert NextToken(s, i) == None;
  }

  /**
   * LayoutUnique, first token: strtok finds the first token of l, and
   * what follows it is spelled by the rest of l.
   */
  lemma LayoutUniqueFirst(s: seq<char>, i: nat, l: Layout, stop: nat)
    requires i <= |s| && WellSeparated(l) && l.words != []
    requires Interleave(l.gaps, l.words) == s[i..]
    requires stop == i + |l.gaps[0]| + |l.words[0]|
    ensures stop <= |s|
    ensures NextToken(s, i) == Some(Span(i + |l.gaps[0]|, stop))
    ensures s[i..i + |l.gaps[0]|] == l.gaps[0]
    ensures s[i + |l.gaps[0]|..stop] == l.words[0]
    ensures Interleave(l.gaps[1..], l.words[1..]) == s[stop..]
  {
    var g0, w0 := l.gaps[0], l.words[0];
    var rest := Interleave(l.gaps[1..], l.words[1..]);
    TailWellSeparated(l);
    LayoutParts(s, i, g0, w0, rest);
    FirstToken(s, i, g0, w0, rest);
  }

  /** LayoutUnique, putting the first gap and token back in front of the rest. */
  lemma LayoutUniqueCons(s: seq<char>, i: nat, l: Layout, stop: nat)
    requires i <= |s| && |l.gaps| == |l.words| + 1 && l.words != []
    requires stop == i + |l.gaps[0]| + |l.words[0]| <= |s|
    requires NextToken(s, i) == Some(Span(i + |l.gaps[0]|, stop))
    requires s[i..i + |l.gaps[0]|] == l.gaps[0]
    requires s[i + |l.gaps[0]|..stop] == l.words[0]
    requires LayoutFrom(s, stop) == Layout(l.gaps[1..], l.words[1..])
    ensures LayoutFrom(s, i) == l
  {
    LayoutFromStep(s, i, Span(i + |l.gaps[0]|, stop));
    assert l.gaps == [l.gaps[0]] + l.gaps[1..];
    assert l.words == [l.words[0]] + l.words[1..];
  }

  /**
   * The layout of s[i..] is well separated; its first gap is the run of
   * delimiters strtok skips before the first token.
   */
  lemma {:induction false} LayoutSeparated(s: seq<char>, i: nat)
    requires i <= |s|
    ensures WellSeparated(LayoutFrom(s, i))
    ensures |LayoutFrom(s, i).gaps[0]| == SkipDelims(s, i) - i
    decreases |s| - i
  {
    match NextToken(s, i)
    case None =>
      assert AllDelims(s[i..]);
    case Some(sp) =>
      LayoutSeparated(s, sp.stop);
      var rest := LayoutFrom(s, sp.stop);
      var l := LayoutFrom(s, i);
      assert l == Layout([s[i..sp.start]] + rest.gaps, [s[sp.start..sp.stop]] + rest.words);
      assert sp.stop < |s| ==> SkipDelims(s, sp.stop) > sp.stop;
      assert AllDelims(s[i..sp.start]);
      forall k | 0 <= k < |l.gaps| ensures AllDelims(l.gaps[k]) {
        if k > 0 { assert l.gaps[k] == rest.gaps[k - 1]; }
      }
      forall k | 0 < k < |l.words| ensures l.gaps[k] != [] {
        assert l.gaps[k] == rest.gaps[k - 1];
      }
      forall k | 0 <= k < |l.words| ensures IsWord(l.words[k]) {
        if k > 0 { assert l.words[k] == rest.words[k - 1]; }
      }
  }

  /** The gaps and tokens of the layout of s[i..], put back together, spell s[i..]. */
  lemma {:induction false} LayoutSpells(s: seq<char>, i: nat)
    requires i <= |s|
    ensures Interleave(LayoutFrom(s, i).gaps, LayoutFrom(s, i).words) == s[i..]
    decreases |s| - i
  {
    match NextToken(s, i)
    case None =>
    case Some(sp) =>
      LayoutSpells(s, sp.stop);
      var rest := LayoutFrom(s, sp.stop);
      var l := LayoutFrom(s, i);
      assert l == Layout([s[i..sp.start]] + rest.gaps, [s[sp.start..sp.stop]] + rest.words);
      SliceInThree(s, i, sp.start, sp.stop);
      assert l.gaps[1..] == rest.gaps && l.words[1..] == rest.words;
  }

  /** Every line has a well-separated layout whose tokens are Tokens(s) and which spells the line. */
  lemma TokensAreMaximalRuns(s: seq<char>)
    ensures var l := LayoutFrom(s, 0);
      WellSeparated(l) && l.words == Tokens(s) && Interleave(l.gaps, l.words) == s
  {
    LayoutSeparated(s, 0);
    LayoutSpells(s, 0);
    LayoutWords(s, 0);
    assert s[0..] == s;
  }

  /** No token is empty and no token holds a delimiter. */
  lemma TokensAreWords(s: seq<char>)
    ensures forall k :: 0 <= k < |Tokens(s)| ==> IsWord(Tokens(s)[k])
  {
    TokensAreMaximalRuns(s);
  }

  /** An empty or delimiter-only line, and only such a line, has no tokens. */
  lemma TokensEmptyIff(s: seq<char>)
    ensures Tokens(s) == [] <==> AllDelims(s)
  {
    if AllDelims(s) {
      assert NextToken(s, 0).None?;
    } else {
      assert NextToken(s, 0).Some?;
    }
  }

  /** "ls -la /tmp" gives its three words in order. */
  lemma TokensExample()
    ensures Tokens("ls -la /tmp") == ["ls", "-la", "/tmp"]
  {
    var l := Layout(["", " ", " ", ""], ["ls", "-la", "/tmp"]);
    assert Interleave(l.gaps, l.words) == "ls -la /tmp";
    LayoutUnique("ls -la /tmp", 0, l);
    LayoutWords("ls -la /tmp", 0);
  }

  /**
   * Resuming after the delimiter that ends a token finds the same tokens:
   * strtok's scan from there sees the same next token.
   */
  lemma ResumeLayoutWords(s: seq<char>, sp: Span)
    requires sp.stop <= |s| && (sp.stop == |s| || IsDelim(s[sp.stop]))
    ensures LayoutFrom(s, Resume(s, sp)).words == LayoutFrom(s, sp.stop).words
  {
    if sp.stop < |s| {
      ResumeAfterDelim(s, sp);
    } else {
      ResumeAtEnd(s, sp);
    }
  }

  lemma ResumeAfterDelim(s: seq<char>, sp: Span)
    requires sp.stop < |s| && IsDelim(s[sp.stop])
    ensures LayoutFrom(s, Resume(s, sp)).words == LayoutFrom(s, sp.stop).words
  {
    assert NextToken(s, sp.stop) == NextToken(s, Resume(s, sp));
  }

  lemma ResumeAtEnd(s: seq<char>, sp: Span)
    requires sp.stop == |s|
    ensures LayoutFrom(s, Resume(s, sp)).words == LayoutFrom(s, sp.stop).words
  {
  }

  /** Unfolds LayoutFrom once: the first gap and token, then the layout after them. */
  lemma LayoutFromStep(s: seq<char>, i: nat, sp: Span)
    requires i <= |s| && NextToken(s, i) == Some(sp)
    ensures LayoutFrom(s, i).gaps == [s[i..sp.start]] + LayoutFrom(s, sp.stop).gaps
    ensures LayoutFrom(s, i).words == [s[sp.start..sp.stop]] + LayoutFrom(s, sp.stop).words
  {
  }

  /** One strtok call: the layout and strtok agree on the first token. */
  lemma LayoutWordsStep(s: seq<char>, i: nat, sp: Span)
    requires i <= |s| && NextToken(s, i) == Some(sp)
    requires LayoutFrom(s, Resume(s, sp)).words == TokensFrom(s, Resume(s, sp))
    ensures LayoutFrom(s, i).words == TokensFrom(s, i)
  {
    TokensFromStep(s, i);
    LayoutFromStep(s, i, sp);
    ResumeLayoutWords(s, sp);
  }

  /**
   * The tokens strtok returns are the tokens of the layout: skipping the
   * delimiter it overwrites with '\0' loses no token.
   */
  lemma {:induction false} LayoutWords(s: seq<char>, i: nat)
    requires i <= |s|
    ensures LayoutFrom(s, i).words == TokensFrom(s, i)
    decreases |s| - i
  {
    match NextToken(s, i)
    case None =>
    case Some(sp) =>
      LayoutWords(s, Resume(s, sp));
      LayoutWordsStep(s, i, sp);
  }

  // ---------------------------------------------------------------------
  // Capacity of the token vector
  // ---------------------------------------------------------------------

  /**
   * Length of the token vector once n tokens are stored: it starts at 32
   * and doubles as soon as the count reaches length - 1.
   */
  function CapacityAfter(n: nat): (c: nat)
    ensures InitialCapacity <= c
  {
    if n == 0 then InitialCapacity
    else
      var prev := CapacityAfter(n - 1);
      if n >= prev - 1 then 2 * prev else prev
  }

  /** 32 doubled some number of times. */
  predicate IsDoubling(c: nat)
    decreases c
  {
    c == InitialCapacity || (c > InitialCapacity && c % 2 == 0 && IsDoubling(c / 2))
  }

  /**
   * After n tokens the vector still has room for them and a terminator,
   * its length is 32 times a power of two, and it is at most twice what
   * the tokens and terminator need once it has grown.
   */
  lemma {:induction false} CapacityBounds(n: nat)
    ensures n < CapacityAfter(n) - 1
    ensures IsDoubling(CapacityAfter(n))
    ensures n < InitialCapacity - 1 ==> CapacityAfter(n) == InitialCapacity
    ensures n >= InitialCapacity - 1 ==> CapacityAfter(n) <= 2 * (n + 1)
  {
    if n > 0 {
      CapacityBounds(n - 1);
      var c := CapacityAfter(n - 1);
      if n >= c - 1 {
        assert (2 * c) / 2 == c;
      }
    }
  }

  /** The vector only grows: more tokens never mean a shorter vector. */
  lemma {:induction false} CapacityMonotone(m: nat, n: nat)
    requires m <= n
    ensures CapacityAfter(m) <= CapacityAfter(n)
    decreases n - m
  {
    if m < n {
      CapacityMonotone(m, n - 1);
    }
  }

  // ---------------------------------------------------------------------
  // The tokenizer
  // ---------------------------------------------------------------------

  /** realloc: a longer vector whose first slots are the old ones. */
  method Reallocate(tokens: array<Slot>, newLength: nat) returns (grown: array<Slot>)
    requires tokens.Length <= newLength
    ensures fresh(grown) && grown.Length == newLength
    ensures forall k :: 0 <= k < tokens.Length ==> grown[k] == tokens[k]
  {
    grown := new Slot[newLength];
    forall k | 0 <= k < tokens.Length {
      grown[k] := tokens[k];
    }
  }

  /**
   * The heap vector tokenize_line fills: slots holds the vector,
   * capacity is tokens_list_len and count is pos. Contents are the
   * tokens stored so far.
   */
  class TokenVector {
    var slots: array<Slot>
    var capacity: nat
    var count: nat
    ghost var Contents: seq<Token>

    /**
     * The vector is as long as its capacity, the capacity is the one
     * the doubling rule gives for count tokens, a slot is always left
     * for the terminator, and the first count slots hold Contents.
     */
    ghost predicate Valid()
      reads this, slots
    {
      && slots.Length == capacity
      && capacity == CapacityAfter(count)
      && count < capacity - 1
      && |Contents| == count
      && forall k :: 0 <= k < count ==> slots[k] == Arg(Contents[k])
    }

    /** malloc of InitialCapacity slots, none of them used yet. */
    constructor ()
      ensures Valid() && fresh(slots)
      ensures capacity == InitialCapacity && Contents == []
    {
      slots := new Slot[InitialCapacity];
      capacity := InitialCapacity;
      count := 0;
      Contents := [];
    }

    /**
     * tokens[pos++] = token, then the growth check: when the count
     * reaches capacity - 1 the vector is reallocated at twice its size.
     */
    method Push(word: Token)
      requires Valid()
      modifies this, slots
      ensures Valid()
      ensures Contents == old(Contents) + [word]
      ensures capacity == old(capacity) || capacity == 2 * old(capacity)
      ensures slots == old(slots) || fresh(slots)
    {
      slots[count] := Arg(word);
      count := count + 1;
      Contents := Contents + [word];
      if count >= capacity - 1 {
        capacity := capacity * 2;
        slots := Reallocate(slots, capacity);
      }
    }

    /** tokens[pos] = nullptr: the terminator execvp needs. */
    method Terminate()
      requires Valid()
      modifies slots
      ensures Valid() && slots[count] == Null
    {
      slots[count] := Null;
    }
  }

  /**
   * The C string a char* line denotes: its characters up to, and not
   * including, the first '\0'. getline can store a '\0' inside the line,
   * but strtok sees the line only up to it.
   */
  function CString(bytes: seq<char>): (s: seq<char>)
    ensures |s| <= |bytes| && s == bytes[..|s|]
    ensures forall k :: 0 <= k < |s| ==> s[k] != 0 as char
    ensures |s| < |bytes| ==> bytes[|s|] == 0 as char
  {
    if bytes == [] || bytes[0] == 0 as char then []
    else [bytes[0]] + CString(bytes[1..])
  }

  /** A line that holds no '\0' is seen whole. */
  lemma {:induction false} CStringWhole(bytes: seq<char>)
    requires forall k :: 0 <= k < |bytes| ==> bytes[k] != 0 as char
    ensures CString(bytes) == bytes
  {
    if bytes != [] {
      CStringWhole(bytes[1..]);
    }
  }

  /** A '\0' inside the line ends it: the bytes a, '\0', b give the one token "a". */
  lemma EmbeddedNulEndsLine()
    ensures Tokens(CString(['a', 0 as char, 'b'])) == ["a"]
  {
    assert CString(['a', 0 as char, 'b']) == "a" by {
      assert ['a', 0 as char, 'b'][1..] == [0 as char, 'b'];
    }
    var l := Layout(["", ""], ["a"]);
    assert Interleave(l.gaps, l.words) == "a";
    LayoutUnique("a", 0, l);
    LayoutWords("a", 0);
  }

  /**
   * The strtok loop of tokenize_line over the C string s: each token is
   * pushed onto the vector, and the terminator follows them.
   */
  method SplitLine(s: seq<char>) returns (tokens: array<Slot>, count: nat)
    ensures fresh(tokens)
    ensures count == |Tokens(s)|
    ensures count < tokens.Length - 1
    ensures tokens.Length == CapacityAfter(count)
    ensures forall k :: 0 <= k < count ==> tokens[k] == Arg(Tokens(s)[k])
    ensures tokens[count] == Null
  {
    var vector := new TokenVector();
    var saved := 0;                    // strtok's scan position
    var next := NextToken(s, saved);   // strtok(line, DELIM)
    while next.Some?
      invariant saved <= |s|
      invariant next == NextToken(s, saved)
      invariant fresh(vector) && fresh(vector.slots)
      invariant vector.Valid()
      invariant vector.Contents + TokensFrom(s, saved) == Tokens(s)
      decreases |s| - saved
    {
      var sp := next.value;
      var word := s[sp.start..sp.stop];
      TokensFromStep(s, saved);
      ghost var ahead := TokensFrom(s, Resume(s, sp));
      assert vector.Contents + ([word] + ahead) == Tokens(s);
      assert vector.Contents + ([word] + ahead) == (vector.Contents + [word]) + ahead;
      vector.Push(word);
      saved := Resume(s, sp);
      next := NextToken(s, saved);     // strtok(NULL, DELIM)
    }
    TokensFromStep(s, saved);
    vector.Terminate();
    tokens, count := vector.slots, vector.count;
  }

  /**
   * tokenize_line: a null line gives (null, 0); otherwise the tokens of
   * the C string the line denotes, then the terminator. The count is the
   * number of tokens.
   */
  method TokenizeLine(line: Option<seq<char>>) returns (tokens: array?<Slot>, count: nat)
    ensures line.None? ==> tokens == null && count == 0
    ensures line.Some? ==>
      && tokens != null && fresh(tokens)
      && count == |Tokens(CString(line.value))|
      && count < tokens.Length - 1
      && tokens.Length == CapacityAfter(count)
      && (forall k :: 0 <= k < count ==> tokens[k] == Arg(Tokens(CString(line.value))[k]))
      && tokens[count] == Null
  {
    if line.None? {
      return null, 0;
    }
    tokens, count := SplitLine(CString(line.value));
  }
}
