/** The normaliser seen place by place (pkg/antispam/normalize.go): gluing, and
    undoing leetspeak one character at a time. */
module WordPlaces {
  import opened TextFold
  import opened Normalize

  /** Joined tokens, gluing neighbours of one character each. */
  function Glue(tokens: seq<string>): string {
    if tokens == [] then "" else
    var n := |tokens| - 1;
    Glue(tokens[..n]) + Between(tokens[..n], tokens[n]) + tokens[n]
  }

  function Between(tokens: seq<string>, token: string): string {
    if tokens == [] || (|tokens[|tokens| - 1]| == 1 && |token| == 1) then "" else " "
  }

  ghost predicate SameWord(s: string, i: int, j: int)
    requires 0 <= i < |s| && 0 <= j < |s|
  {
    forall k :: (i <= k <= j || j <= k <= i) ==> s[k] != ' '
  }

  ghost predicate InLetterWord(s: string, i: int)
    requires 0 <= i < |s|
  {
    exists j :: 0 <= j < |s| && IsLetter(s[j]) && SameWord(s, i, j)
  }

  /** Undoing leetspeak at one place, looking at its word only. */
  ghost function UnleetAt(s: string, i: int): char
    requires 0 <= i < |s|
  {
    if InLetterWord(s, i) then UnleetChar(s[i]) else s[i]
  }

  ghost function UnleetWords(s: string): (r: string)
    ensures |r| == |s|
    ensures forall i :: 0 <= i < |s| ==> r[i] == UnleetAt(s, i)
  {
    seq(|s|, i requires 0 <= i < |s| => UnleetAt(s, i))
  }

  lemma {:induction false} JoinExtends(tokens: seq<string>, a: string, b: string)
    ensures Join(tokens + [a + b]) == Join(tokens + [a]) + b
  {
    assert (tokens + [a + b])[..|tokens|] == tokens == (tokens + [a])[..|tokens|];
    if tokens != [] {
      assert Join(tokens) + " " + (a + b) == Join(tokens) + " " + a + b;
    }
  }

  lemma JoinAppend(tokens: seq<string>, token: string)
    ensures Join(tokens + [token]) == if tokens == [] then token else Join(tokens) + " " + token
  {
    assert (tokens + [token])[..|tokens|] == tokens;
  }

  lemma GlueSnoc(tokens: seq<string>, token: string)
    ensures Glue(tokens + [token]) == Glue(tokens) + Between(tokens, token) + token
  {
    assert (tokens + [token])[..|tokens|] == tokens;
  }

  lemma MergeSnoc(tokens: seq<string>, token: string)
    ensures var l := MergeRuns(tokens);
      MergeRuns(tokens + [token]) ==
        if |token| == 1 then Lexer(l.tokens, l.current + token) else Lexer(l.Flush() + [token], "")
  {
    assert (tokens + [token])[..|tokens|] == tokens;
  }

  lemma MergeOneMore(l: Lexer, front: seq<string>, token: string)
    requires l.current != "" <==> front != [] && |front[|front| - 1]| == 1
    requires front != [] ==> l.Flush() != []
    requires front == [] ==> l == Lexer([], "")
    ensures Join(if |token| == 1 then l.tokens + [l.current + token] else l.Flush() + [token]) ==
      Join(l.Flush()) + Between(front, token) + token
  {
    if |token| != 1 {
      JoinAppend(l.Flush(), token);
    } else if l.current != "" {
      JoinExtends(l.tokens, l.current, token);
    } else {
      assert "" + token == token;
      JoinAppend(l.tokens, token);
    }
  }

  ghost predicate MergeGlues(tokens: seq<string>) {
    && Join(Merged(tokens)) == Glue(tokens)
    && (MergeRuns(tokens).current != "" <==> tokens != [] && |tokens[|tokens| - 1]| == 1)
    && (tokens != [] ==> Merged(tokens) != [])
  }

  lemma MergeGluesOneMore(front: seq<string>, last: string)
    requires MergeGlues(front) && last != ""
    ensures MergeGlues(front + [last])
  {
    MergeSnoc(front, last);
    GlueSnoc(front, last);
    MergeOneMore(MergeRuns(front), front, last);
  }

  /** Merging and joining is gluing. */
  lemma {:induction false} MergedJoinIsGlue(tokens: seq<string>)
    requires AlnumTokens(tokens)
    ensures MergeGlues(tokens)
  {
    if tokens != [] {
      var n := |tokens| - 1;
      MergedJoinIsGlue(tokens[..n]);
      assert AlnumToken(tokens[n]);
      MergeGluesOneMore(tokens[..n], tokens[n]);
      assert tokens == tokens[..n] + [tokens[n]];
    }
  }

  lemma UnleetWordsOfWord(word: string)
    requires forall i :: 0 <= i < |word| ==> word[i] != ' '
    ensures UnleetWords(word) == Unleet(word)
  {
    forall i | 0 <= i < |word| ensures InLetterWord(word, i) <==> HasLetter(word) {
      if HasLetter(word) {
        var j :| 0 <= j < |word| && IsLetter(word[j]);
        assert SameWord(word, i, j);
      }
    }
  }

  lemma LetterWordKept(s: string, before: string, after: string, i: int)
    requires 0 <= i < |s| && InLetterWord(s, i)
    ensures InLetterWord(before + s + after, |before| + i)
  {
    var t := before + s + after;
    var j :| 0 <= j < |s| && IsLetter(s[j]) && SameWord(s, i, j);
    assert IsLetter(t[|before| + j]);
    forall k | |before| + i <= k <= |before| + j || |before| + j <= k <= |before| + i ensures t[k] != ' ' {
      assert t[k] == s[k - |before|];
    }
    assert SameWord(t, |before| + i, |before| + j);
  }

  lemma LetterWordLeft(a: string, b: string, i: int)
    requires 0 <= i < |a| && InLetterWord(a + " " + b, i)
    ensures InLetterWord(a, i)
  {
    var s := a + " " + b;
    var j :| 0 <= j < |s| && IsLetter(s[j]) && SameWord(s, i, j);
    assert s[|a|] == ' ';
    assert j < |a| && a[j] == s[j];
    forall k | i <= k <= j || j <= k <= i ensures a[k] != ' ' {
      assert a[k] == s[k];
    }
    assert SameWord(a, i, j);
  }

  lemma LetterWordRight(a: string, b: string, i: int)
    requires 0 <= i < |b| && InLetterWord(a + " " + b, |a| + 1 + i)
    ensures InLetterWord(b, i)
  {
    var s := a + " " + b;
    var j :| 0 <= j < |s| && IsLetter(s[j]) && SameWord(s, |a| + 1 + i, j);
    assert s[|a|] == ' ';
    var at := j - |a| - 1;
    assert 0 <= at && b[at] == s[j];
    forall k | i <= k <= at || at <= k <= i ensures b[k] != ' ' {
      assert b[k] == s[|a| + 1 + k];
    }
    assert SameWord(b, i, at);
  }

  lemma UnleetLeft(a: string, b: string, i: int)
    requires 0 <= i < |a|
    ensures UnleetAt(a + " " + b, i) == UnleetAt(a, i)
  {
    assert (a + " " + b)[i] == a[i];
    if InLetterWord(a, i) {
      LetterWordKept(a, "", " " + b, i);
      assert "" + a + (" " + b) == a + " " + b;
    } else if InLetterWord(a + " " + b, i) {
      LetterWordLeft(a, b, i);
    }
  }

  lemma UnleetRight(a: string, b: string, i: int)
    requires 0 <= i < |b|
    ensures UnleetAt(a + " " + b, |a| + 1 + i) == UnleetAt(b, i)
  {
    assert (a + " " + b)[|a| + 1 + i] == b[i];
    if InLetterWord(b, i) {
      LetterWordKept(b, a + " ", "", i);
      assert a + " " + b + "" == a + " " + b;
    } else if InLetterWord(a + " " + b, |a| + 1 + i) {
      LetterWordRight(a, b, i);
    }
  }

  /** A space separates what happens to either side of it. */
  lemma UnleetWordsSplit(a: string, b: string)
    ensures UnleetWords(a + " " + b) == UnleetWords(a) + " " + UnleetWords(b)
  {
    forall i | 0 <= i < |a| ensures UnleetAt(a + " " + b, i) == UnleetAt(a, i) {
      UnleetLeft(a, b, i);
    }
    forall i | 0 <= i < |b| ensures UnleetAt(a + " " + b, |a| + 1 + i) == UnleetAt(b, i) {
      UnleetRight(a, b, i);
    }
    SpaceIsKept(a, b);
    SplitAt(UnleetWords(a + " " + b), UnleetWords(a), UnleetWords(b));
  }

  lemma SpaceIsKept(a: string, b: string)
    ensures UnleetAt(a + " " + b, |a|) == ' '
  {
    assert (a + " " + b)[|a|] == ' ';
  }

  lemma SplitAt(l: string, a: string, b: string)
    requires |l| == |a| + 1 + |b| && l[|a|] == ' '
    requires forall i :: 0 <= i < |a| ==> l[i] == a[i]
    requires forall i :: 0 <= i < |b| ==> l[|a| + 1 + i] == b[i]
    ensures l == a + " " + b
  {
    forall i | 0 <= i < |l| ensures l[i] == (a + " " + b)[i] {
      if i > |a| {
        assert l[|a| + 1 + (i - |a| - 1)] == b[i - |a| - 1];
      }
    }
  }

  lemma {:induction false} UnleetJoin(tokens: seq<string>)
    requires AlnumTokens(tokens)
    ensures Join(UnleetAll(tokens)) == UnleetWords(Join(tokens))
  {
    if tokens != [] {
      var n := |tokens| - 1;
      assert AlnumToken(tokens[n]);
      UnleetWordsOfWord(tokens[n]);
      if n > 0 {
        UnleetJoin(tokens[..n]);
        assert UnleetAll(tokens)[..n] == UnleetAll(tokens[..n]);
        UnleetWordsSplit(Join(tokens[..n]), tokens[n]);
      }
    }
  }

  lemma TokensAreAlnum(lower: char -> char, text: string)
    ensures AlnumTokens(Tokens(Symbols(lower, text)))
  {
    LexYieldsAlnum(lower, text);
  }

  /** The whole normaliser, seen place by place. */
  lemma NormalizedByPlace(lower: char -> char, text: string)
    ensures Normalized(lower, text) == UnleetWords(Glue(Tokens(Symbols(lower, text))))
  {
    var tokens := Tokens(Symbols(lower, text));
    TokensAreAlnum(lower, text);
    LexYieldsAlnum(lower, text);
    MergeRunsForm(tokens);
    MergedJoinIsGlue(tokens);
    UnleetJoin(Merged(tokens));
  }
}
