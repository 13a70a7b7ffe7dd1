/**
 * Rendering messages as the source lines of a summary, each within a token budget.
 */
module SummaryRender {
  import opened Messages
  import opened SummaryText
  import opened SummarySelection

  predicate FitsText(b: Budget, text: string)
    requires b.Valid()
  {
    Tokens(|text|, b.charsPerToken) <= b.maxTokens
  }

  // ---- fitting one text -------------------------------------------------------------------------------------------

  /** The first `n` words fit and one more would not. */
  ghost predicate MostWords(b: Budget, words: seq<string>, n: nat)
    requires b.Valid()
  {
    && n <= |words| && FitsText(b, Join(words[..n], " "))
    && (n < |words| ==> !FitsText(b, Join(words[..n + 1], " ")))
  }

  /** The first `n` characters fit and one more would not. */
  ghost predicate MostChars(b: Budget, text: string, n: nat)
    requires b.Valid()
  {
    n <= |text| && FitsText(b, text[..n]) && (n < |text| ==> !FitsText(b, text[..n + 1]))
  }

  /** As many whole words as fit; if not even one does, as many characters as fit. */
  ghost predicate IsFitted(b: Budget, text: string, r: string)
    requires b.Valid()
  {
    if b.maxTokens == 0 || text == "" then r == "" else exists n: nat :: FittedTo(b, text, Words(text), r, n)
  }

  ghost predicate FittedTo(b: Budget, text: string, words: seq<string>, r: string, n: nat)
    requires b.Valid()
  {
    && MostWords(b, words, n)
    && (if n > 0 then r == Join(words[..n], " ") else MostChars(b, text, |r|) && r <= text)
  }

  lemma {:induction false} JoinGrows(words: seq<string>, n: nat)
    requires n < |words|
    ensures |Join(words[..n], " ")| <= |Join(words[..n + 1], " ")|
  {
    if n == 1 {
      assert words[..1] == [words[0]];
    } else if n > 1 {
      assert words[..n][1..] == words[1..][..n - 1] && words[..n + 1][1..] == words[1..][..n];
      JoinGrows(words[1..], n - 1);
    }
  }

  lemma {:induction false} JoinNext(words: seq<string>, word: string)
    requires words != []
    ensures Join(words + [word], " ") == Join(words, " ") + " " + word
  {
    if |words| == 1 {
      assert (words + [word])[1..] == [word];
    } else {
      assert (words + [word])[1..] == words[1..] + [word];
      JoinNext(words[1..], word);
    }
  }

  /** The words that fit are the most of all: no longer run of them fits. */
  lemma {:induction false} MostWordsIsGreatest(b: Budget, words: seq<string>, n: nat, m: nat)
    requires b.Valid() && MostWords(b, words, n) && n < m <= |words|
    ensures !FitsText(b, Join(words[..m], " "))
  {
    if m > n + 1 {
      MostWordsIsGreatest(b, words, n, m - 1);
      JoinGrows(words, m - 1);
      TokensMonotone(|Join(words[..m - 1], " ")|, |Join(words[..m], " ")|, b.charsPerToken);
    }
  }

  lemma MostWordsIsUnique(b: Budget, words: seq<string>, n: nat, m: nat)
    requires b.Valid() && MostWords(b, words, n) && MostWords(b, words, m)
    ensures n == m
  {
    if n < m {
      MostWordsIsGreatest(b, words, n, m);
    } else if m < n {
      MostWordsIsGreatest(b, words, m, n);
    }
  }

  lemma MostCharsIsUnique(b: Budget, text: string, n: nat, m: nat)
    requires b.Valid() && MostChars(b, text, n) && MostChars(b, text, m)
    ensures n == m
  {
    if n < m {
      TokensMonotone(n + 1, m, b.charsPerToken);
    } else if m < n {
      TokensMonotone(m + 1, n, b.charsPerToken);
    }
  }

  lemma FittedToIsUnique(b: Budget, text: string, words: seq<string>, r: string, n: nat, r': string, n': nat)
    requires b.Valid() && FittedTo(b, text, words, r, n) && FittedTo(b, text, words, r', n')
    ensures r == r'
  {
    MostWordsIsUnique(b, words, n, n');
    if n == 0 {
      MostCharsIsUnique(b, text, |r|, |r'|);
    }
  }

  /** A budget and a text leave no choice. */
  lemma FittedIsUnique(b: Budget, text: string, r: string, r': string)
    requires b.Valid() && IsFitted(b, text, r) && IsFitted(b, text, r')
    ensures r == r'
  {
    if b.maxTokens > 0 && text != "" {
      var n: nat :| FittedTo(b, text, Words(text), r, n);
      var n': nat :| FittedTo(b, text, Words(text), r', n');
      FittedToIsUnique(b, text, Words(text), r, n, r', n');
    }
  }

  method WordsThatFit(b: Budget, words: seq<string>) returns (accepted: seq<string>)
    requires b.Valid()
    ensures MostWords(b, words, |accepted|) && accepted == words[..|accepted|]
  {
    accepted := [];
    while |accepted| < |words|
      invariant |accepted| <= |words| && accepted == words[..|accepted|] && FitsText(b, Join(accepted, " "))
    {
      var word := words[|accepted|];
      var candidate := if accepted == [] then word else Join(accepted, " ") + " " + word;
      assert words[..|accepted| + 1] == accepted + [word];
      if accepted != [] {
        JoinNext(accepted, word);
      }
      if !FitsText(b, candidate) {
        return;
      }
      accepted := accepted + [word];
    }
  }

  method CharsThatFit(b: Budget, text: string) returns (r: string)
    requires b.Valid()
    ensures MostChars(b, text, |r|) && r <= text
  {
    r := "";
    while |r| < |text|
      invariant r <= text && FitsText(b, r)
    {
      var candidate := r + [text[|r|]];
      assert candidate == text[..|r| + 1];
      if !FitsText(b, candidate) {
        return;
      }
      r := candidate;
    }
  }

  method FitTextToTokenBudget(b: Budget, text: string) returns (r: string)
    requires b.Valid()
    ensures FitsText(b, r) && IsFitted(b, text, r)
  {
    if b.maxTokens == 0 || text == "" {
      return "";
    }
    var accepted := WordsThatFit(b, Words(text));
    if accepted != [] {
      r := Join(accepted, " ");
    } else {
      r := CharsThatFit(b, text);
    }
    assert FittedTo(b, text, Words(text), r, |accepted|);
  }

  /** A text that fits once its blanks are normalised is kept whole. */
  lemma FittingTextIsKept(b: Budget, text: string, r: string)
    requires b.Valid() && b.maxTokens > 0 && Words(text) != [] && IsFitted(b, text, r)
    requires FitsText(b, NormalizeLine(text))
    ensures r == NormalizeLine(text)
  {
    assert text != "";
    var n: nat :| FittedTo(b, text, Words(text), r, n);
    AllWordsFit(b, text, Words(text), r, n);
  }

  lemma AllWordsFit(b: Budget, text: string, words: seq<string>, r: string, n: nat)
    requires b.Valid() && words != [] && FittedTo(b, text, words, r, n) && FitsText(b, Join(words, " "))
    ensures r == Join(words, " ")
  {
    assert words[..|words|] == words;
    if n < |words| {
      MostWordsIsGreatest(b, words, n, |words|);
    }
  }

  // ---- one message ------------------------------------------------------------------------------------------------

  function RoleName(r: Role): string {
    match r case System => "system" case User => "user" case Assistant => "assistant" case Tool => "tool"
  }

  function BlockPrefix(block: ContentBlock): string {
    match block
    case Text(_) => ""
    case ToolUse(id, tool, _) => "tool_use:" + tool + ":" + id + ":"
    case ToolResult(id, tool, _, isError) =>
      "tool_result:" + tool + ":" + id + ":" + (if isError then "true" else "false") + ":"
    case Image(_) => "image:"
    case Document(_) => "document:"
  }

  /** The label says what a block is: its kind, then the tool and the call id, then whether it failed. */
  lemma PrefixMeans(block: ContentBlock)
    ensures block.Text? ==> BlockPrefix(block) == ""
    ensures block.ToolUse? ==> BlockPrefix(block) == "tool_use:" + block.toolName + ":" + block.callId + ":"
    ensures block.ToolResult? ==>
      BlockPrefix(block) == "tool_result:" + block.toolName + ":" + block.callId + ":" + (if block.isError then "true:" else "false:")
    ensures block.Image? ==> BlockPrefix(block) == "image:"
    ensures block.Document? ==> BlockPrefix(block) == "document:"
  {
  }

  /** Roles are told apart. */
  lemma RoleNamesDiffer(a: Role, b: Role)
    ensures RoleName(a) == RoleName(b) ==> a == b
  {
    assert RoleName(a)[0] != RoleName(b)[0] || a == b;
  }

  function Less(b: Budget, used: nat): Budget { b.(maxTokens := if used < b.maxTokens then b.maxTokens - used else 0) }

  /** A block is written as its prefix and then as much of its text as the prefix leaves room for. */
  ghost predicate ShowsBlock(b: Budget, block: ContentBlock, r: string)
    requires b.Valid()
  {
    var prefix := BlockPrefix(block);
    prefix <= r && IsFitted(Less(b, Tokens(|prefix|, b.charsPerToken)), BlockText(block), r[|prefix|..])
  }

  method RenderBlock(b: Budget, block: ContentBlock) returns (r: string)
    requires b.Valid()
    ensures ShowsBlock(b, block, r)
  {
    var prefix := BlockPrefix(block);
    var payload := FitTextToTokenBudget(Less(b, Tokens(|prefix|, b.charsPerToken)), BlockText(block));
    r := prefix + payload;
    assert r[|prefix|..] == payload;
  }

  lemma ShownBlockIsUnique(b: Budget, block: ContentBlock, r: string, r': string)
    requires b.Valid() && ShowsBlock(b, block, r) && ShowsBlock(b, block, r')
    ensures r == r'
  {
    var prefix := BlockPrefix(block);
    var left := Less(b, Tokens(|prefix|, b.charsPerToken));
    FittedIsUnique(left, BlockText(block), r[|prefix|..], r'[|prefix|..]);
    assert r == prefix + r[|prefix|..] && r' == prefix + r'[|prefix|..];
  }

  /** Rounding up twice is never less than rounding up once. */
  lemma TokensOfConcat(a: nat, c: nat, charsPerToken: nat)
    requires charsPerToken > 0
    ensures Tokens(a + c, charsPerToken) <= Tokens(a, charsPerToken) + Tokens(c, charsPerToken)
  {
    if a > 0 && c > 0 {
      var d, p, q := charsPerToken, Tokens(a, charsPerToken), Tokens(c, charsPerToken);
      TokensAreFewest(a, d);
      TokensAreFewest(c, d);
      assert a + c <= d * p + d * q == d * (p + q);
      assert a + c + d - 1 < d * (p + q + 1);
      DivBelow(a + c + d - 1, d, p + q);
    }
  }

  /** What the blocks rendered so far leave of the budget. */
  function Left(b: Budget, rendered: seq<string>): Budget
    requires b.Valid()
  {
    Less(b, Tokens(|Join(rendered, " | ")|, b.charsPerToken))
  }

  /** `r` shows `block` within what the blocks before it leave, and the line still fits with it. */
  ghost predicate Follows(b: Budget, before: seq<string>, block: ContentBlock, r: string)
    requires b.Valid()
  {
    && Left(b, before).maxTokens > 0 && ShowsBlock(Left(b, before), block, r)
    && FitsText(b, Join(before + [r], " | "))
  }

  /** Nothing is left, or the line no longer fits with the next block. */
  ghost predicate StopsBefore(b: Budget, before: seq<string>, block: ContentBlock)
    requires b.Valid()
  {
    Left(b, before).maxTokens == 0
    || exists r :: ShowsBlock(Left(b, before), block, r) && !FitsText(b, Join(before + [r], " | "))
  }

  /** `rendered` are the first of `blocks`, in order. */
  ghost predicate Renders(b: Budget, blocks: seq<ContentBlock>, rendered: seq<string>)
    requires b.Valid()
  {
    |rendered| <= |blocks| && forall i :: 0 <= i < |rendered| ==> Follows(b, rendered[..i], blocks[i], rendered[i])
  }

  /** And as many as can be. */
  ghost predicate RendersMost(b: Budget, blocks: seq<ContentBlock>, rendered: seq<string>)
    requires b.Valid()
  {
    Renders(b, blocks, rendered) && (|rendered| < |blocks| ==> StopsBefore(b, rendered, blocks[|rendered|]))
  }

  method RenderBlocks(b: Budget, blocks: seq<ContentBlock>) returns (rendered: seq<string>)
    requires b.Valid()
    ensures RendersMost(b, blocks, rendered) && FitsText(b, Join(rendered, " | "))
  {
    rendered := [];
    for i := 0 to |blocks|
      invariant |rendered| == i && Renders(b, blocks, rendered) && FitsText(b, Join(rendered, " | "))
    {
      var left := Less(b, Tokens(|Join(rendered, " | ")|, b.charsPerToken));
      if left.maxTokens == 0 {
        return;
      }
      var next := RenderBlock(left, blocks[i]);
      if !FitsText(b, Join(rendered + [next], " | ")) {
        return;
      }
      RendersNext(b, blocks, rendered, next);
      rendered := rendered + [next];
    }
  }

  lemma RendersNext(b: Budget, blocks: seq<ContentBlock>, rendered: seq<string>, next: string)
    requires b.Valid() && Renders(b, blocks, rendered) && |rendered| < |blocks|
    requires Follows(b, rendered, blocks[|rendered|], next)
    ensures Renders(b, blocks, rendered + [next])
  {
    var all := rendered + [next];
    forall i | 0 <= i < |all| ensures Follows(b, all[..i], blocks[i], all[i]) {
      if i < |rendered| {
        assert all[..i] == rendered[..i] && Follows(b, rendered[..i], blocks[i], rendered[i]);
      } else {
        assert all[..i] == rendered;
      }
    }
  }

  lemma FollowersAgree(b: Budget, before: seq<string>, block: ContentBlock, r: string, r': string)
    requires b.Valid() && Follows(b, before, block, r) && Follows(b, before, block, r')
    ensures r == r'
  {
    ShownBlockIsUnique(Left(b, before), block, r, r');
  }

  lemma SameNext(s: seq<string>, t: seq<string>, k: nat)
    requires k < |s| && k < |t| && s[..k] == t[..k] && s[k] == t[k]
    ensures s[..k + 1] == t[..k + 1]
  {
    assert s[..k + 1] == s[..k] + [s[k]] && t[..k + 1] == t[..k] + [t[k]];
  }

  lemma {:induction false} RendersAgree(b: Budget, blocks: seq<ContentBlock>, x: seq<string>, y: seq<string>, k: nat)
    requires b.Valid() && Renders(b, blocks, x) && Renders(b, blocks, y) && k <= |x| && k <= |y|
    ensures x[..k] == y[..k]
  {
    if k > 0 {
      var i := k - 1;
      RendersAgree(b, blocks, x, y, i);
      FollowersAgree(b, x[..i], blocks[i], x[i], y[i]);
      SameNext(x, y, i);
    }
  }

  lemma NoneIsMissing(b: Budget, blocks: seq<ContentBlock>, x: seq<string>, y: seq<string>)
    requires b.Valid() && RendersMost(b, blocks, x) && Renders(b, blocks, y)
    ensures |y| <= |x|
  {
    var n := |x|;
    if n < |y| {
      RendersAgree(b, blocks, x, y, n);
      assert x[..n] == x && Follows(b, y[..n], blocks[n], y[n]);
      var r :| ShowsBlock(Left(b, x), blocks[n], r) && !FitsText(b, Join(x + [r], " | "));
      ShownBlockIsUnique(Left(b, x), blocks[n], r, y[n]);
    }
  }

  /** A budget and the blocks leave no choice: the contract of `RenderBlocks` admits one rendering only. */
  lemma RenderingIsUnique(b: Budget, blocks: seq<ContentBlock>, x: seq<string>, y: seq<string>)
    requires b.Valid() && RendersMost(b, blocks, x) && RendersMost(b, blocks, y)
    ensures x == y
  {
    NoneIsMissing(b, blocks, x, y);
    NoneIsMissing(b, blocks, y, x);
    RendersAgree(b, blocks, x, y, |x|);
    assert x[..|x|] == x && y[..|y|] == y;
  }

  function RoleTag(m: ChatMessage): string { "[" + RoleName(m.role) + "]" }

  /**
   * The line of a message: its role, and as many of its first blocks as the role leaves room for. It fits whenever
   * the role leaves any room.
   */
  method RenderMessageLine(b: Budget, m: ChatMessage) returns (line: string, rendered: seq<string>)
    requires b.Valid()
    ensures line == if rendered == [] then RoleTag(m) else RoleTag(m) + " " + Join(rendered, " | ")
    ensures var used := Tokens(|RoleTag(m)| + 1, b.charsPerToken);
      if used < b.maxTokens then RendersMost(Less(b, used), m.blocks, rendered) && FitsText(b, line) else rendered == []
  {
    var prefix := RoleTag(m) + " ";
    var used := Tokens(|prefix|, b.charsPerToken);
    if used >= b.maxTokens {
      return RoleTag(m), [];
    }
    rendered := RenderBlocks(Less(b, used), m.blocks);
    if rendered == [] {
      line := RoleTag(m);
      TokensMonotone(|line|, |prefix|, b.charsPerToken);
    } else {
      line := prefix + Join(rendered, " | ");
      TokensOfConcat(|prefix|, |Join(rendered, " | ")|, b.charsPerToken);
    }
  }
}
