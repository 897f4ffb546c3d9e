/** Properties of markdownToHtml: how each replacement treats the constructs it is
    written for, what survives the whole pipeline, and the two observable effects of
    the pass order (italic before bullets; the paragraph wrap after fenced blocks). */
module MarkdownLaws {
  import opened Js
  import opened Markdown

  // ---------------------------------------------------------------------------
  // The global replacement

  /** The table of pass p holds p's match at k. */
  lemma MatchesAt(p: Pass, s: string, k: nat)
    requires k < |s|
    ensures Matches(p, s)[k] == Match(p, s, k)
  {
  }

  /** Where the table holds no match in s[i..j], the replacement copies s[i..j]. */
  lemma {:induction false} CopyWithoutHits(s: string, t: seq<Option<Hit>>, i: nat, j: nat)
    requires i <= j <= |s| && Table(s, t)
    requires forall k :: i <= k < j ==> t[k].None?
    ensures ReplaceAll(s, t, i) == s[i..j] + ReplaceAll(s, t, j)
    decreases j - i
  {
    if i < j {
      StepNone(s, t, i);
      CopyWithoutHits(s, t, i + 1, j);
      ConsSlice(s, i, j, ReplaceAll(s, t, i + 1), ReplaceAll(s, t, j));
    }
  }

  /** Putting back the first character of a slice in front of its copy. */
  lemma ConsSlice(s: string, i: nat, j: nat, rest: string, tail: string)
    requires i < j <= |s| && rest == s[i + 1..j] + tail
    ensures [s[i]] + rest == s[i..j] + tail
  {
    assert s[i..j] == [s[i]] + s[i + 1..j];
  }

  lemma ReplaceAllEnd(s: string, t: seq<Option<Hit>>)
    requires Table(s, t)
    ensures ReplaceAll(s, t, |s|) == ""
  {
  }

  /** One step of the global replacement at a match. */
  lemma StepHit(s: string, t: seq<Option<Hit>>, i: nat, h: Hit)
    requires i < |s| && Table(s, t) && t[i] == Some(h)
    ensures ReplaceAll(s, t, i) == h.text + ReplaceAll(s, t, h.end)
  {
  }

  /** One step of the global replacement where nothing matches. */
  lemma StepNone(s: string, t: seq<Option<Hit>>, i: nat)
    requires i < |s| && Table(s, t) && t[i].None?
    ensures ReplaceAll(s, t, i) == [s[i]] + ReplaceAll(s, t, i + 1)
  {
  }

  /** A pass that matches nowhere in s leaves s as it is. */
  lemma NoMatchIdentity(p: Pass, s: string)
    requires forall k :: 0 <= k < |s| ==> Match(p, s, k).None?
    ensures Apply(p, s) == s
  {
    var t := Matches(p, s);
    forall k | 0 <= k < |s|
      ensures t[k].None?
    {
      MatchesAt(p, s, k);
    }
    CopyWithoutHits(s, t, 0, |s|);
    ReplaceAllEnd(s, t);
    assert s[0..|s|] == s;
  }

  /** A '<' that cannot open "<li>", "</ul>" or "<p>". */
  predicate TagSafe(s: string, k: nat)
  {
    k + 1 < |s| && Lower(s[k + 1]) != 'l' && s[k + 1] != 'p'
    && (s[k + 1] == '/' ==> k + 2 < |s| && Lower(s[k + 2]) != 'u')
  }

  /** Pass p cannot match anywhere in s: every occurrence of its trigger character is
      off a line start (for an anchored pass) or a '<' that opens no li, ul or p. */
  predicate Inert(p: Pass, s: string)
  {
    forall k :: 0 <= k < |s| && s[k] == Trigger(p) ==>
      (Anchored(p) && !LineStart(s, k)) || (Trigger(p) == '<' && TagSafe(s, k))
  }

  lemma OpeningsOfTags(s: string, k: nat)
    requires k < |s|
    ensures MatchListWrap(s, k).Some? ==> k + 1 < |s| && Lower(s[k + 1]) == 'l'
    ensures MatchListMerge(s, k).Some? ==> k + 2 < |s| && s[k + 1] == '/' && Lower(s[k + 2]) == 'u'
    ensures MatchEmptyPara(s, k, false).Some? ==> k + 1 < |s| && s[k + 1] == 'p'
    ensures MatchEmptyPara(s, k, true).Some? ==> k + 1 < |s| && s[k + 1] == 'p'
  {
    if AtFolded(s, k, "<li>") {
      assert Folded(s[k..k + 4])[1] == Lower(s[k + 1]);
    }
    if AtFolded(s, k, "</ul>") {
      assert Folded(s[k..k + 5])[1] == Lower(s[k + 1]);
      assert Folded(s[k..k + 5])[2] == Lower(s[k + 2]);
    }
    if At(s, k, "<p>") {
      assert s[k..k + 3][1] == s[k + 1];
    }
  }

  lemma NoHitWhenSafe(p: Pass, s: string, k: nat)
    requires k < |s| && s[k] == '<' && TagSafe(s, k)
    ensures Match(p, s, k).None?
  {
    if Match(p, s, k).Some? {
      MatchShape(p, s, k);
      OpeningsOfTags(s, k);
    }
  }

  /** A pass that cannot match leaves the text as it is. */
  lemma InertIdentity(p: Pass, s: string)
    requires Inert(p, s)
    ensures Apply(p, s) == s
  {
    forall k | 0 <= k < |s|
      ensures Match(p, s, k).None?
    {
      if Match(p, s, k).Some? {
        MatchShape(p, s, k);
        if !(Anchored(p) && !LineStart(s, k)) {
          NoHitWhenSafe(p, s, k);
        }
      }
    }
    NoMatchIdentity(p, s);
  }

  /** A pipeline of passes that each leave s as it is leaves s as it is. */
  lemma {:induction false} ApplyAllIdentity(ps: seq<Pass>, s: string)
    requires forall k :: 0 <= k < |ps| ==> Apply(ps[k], s) == s
    ensures ApplyAll(ps, s) == s
    decreases |ps|
  {
    if ps != [] {
      assert Apply(ps[0], s) == s;
      ApplyAllIdentity(ps[1..], s);
    }
  }

  /** A pipeline of passes that are each inert on s leaves s as it is. */
  lemma InertPipeline(ps: seq<Pass>, s: string)
    requires forall k :: 0 <= k < |ps| ==> Inert(ps[k], s)
    ensures ApplyAll(ps, s) == s
  {
    forall k | 0 <= k < |ps|
      ensures Apply(ps[k], s) == s
    {
      InertIdentity(ps[k], s);
    }
    ApplyAllIdentity(ps, s);
  }

  // ---------------------------------------------------------------------------
  // The paragraph wrap

  lemma WrapLineNoNewline(line: string)
    requires '\n' !in line
    ensures '\n' !in WrapLine(line)
  {
  }

  /** The paragraph wrap keeps the number of lines: line k of the result is the wrap
      of line k of the input. */
  lemma ParagraphsKeepLines(s: string)
    ensures Split(Paragraphs(s)) == WrapLines(Split(s))
    ensures |Split(Paragraphs(s))| == |Split(s)|
  {
    var lines := Split(s);
    var wrapped := WrapLines(lines);
    forall k | 0 <= k < |wrapped|
      ensures '\n' !in wrapped[k]
    {
      WrapLineNoNewline(lines[k]);
    }
    SplitJoin(wrapped);
  }

  /** A blank or white-space-only line is never wrapped. */
  lemma BlankLineKept(line: string)
    requires AllSpace(line)
    ensures WrapLine(line) == line
  {
  }

  /** The paragraph wrap of a text whose lines are all blank changes nothing. */
  lemma BlankParagraphs(s: string)
    requires AllSpace(s)
    ensures Paragraphs(s) == s
  {
    var lines := Split(s);
    JoinSplit(s);
    forall k | 0 <= k < |lines|
      ensures WrapLine(lines[k]) == lines[k]
    {
      SplitAllSpace(s, k);
    }
    assert WrapLines(lines) == lines;
  }

  lemma {:induction false} SplitAllSpace(s: string, k: nat)
    requires AllSpace(s) && k < |Split(s)|
    ensures AllSpace(Split(s)[k])
    decreases |s|
  {
    var i := IndexOf(s, 0, '\n');
    if i < |s| && k > 0 {
      SplitAllSpace(s[i + 1..], k - 1);
    }
  }

  // ---------------------------------------------------------------------------
  // Whole-pipeline facts

  /** The empty text renders as the empty text. */
  lemma EmptyInput()
    ensures MarkdownToHtml("") == ""
  {
    InertPipeline(BLOCK_PASSES, "");
    BlankParagraphs("");
    InertIdentity(EmptyPara, "");
    InertIdentity(BlankPara, "");
  }

  /** Every pass is inert on white space. */
  lemma SpaceInert(p: Pass, s: string)
    requires AllSpace(s)
    ensures Inert(p, s)
  {
  }

  /** The pipeline stage by stage: the block passes, the paragraph wrap, then the two
      clean-up passes. */
  lemma Stages(md: string, blocks: string, wrapped: string)
    requires blocks == ApplyAll(BLOCK_PASSES, md) && wrapped == Paragraphs(blocks)
    ensures MarkdownToHtml(md) == Apply(BlankPara, Apply(EmptyPara, wrapped))
  {
  }

  /** Input made only of blank lines comes back unchanged, so it holds no tag at all,
      paragraph tags included. */
  lemma BlankInput(s: string)
    requires AllSpace(s)
    ensures MarkdownToHtml(s) == s
    ensures '<' !in MarkdownToHtml(s)
  {
    SpaceThroughBlocks(s);
    BlankParagraphs(s);
    SpaceThroughCleanup(s);
    Stages(s, s, s);
    SpaceHasNoTag(s);
  }

  lemma SpaceHasNoTag(s: string)
    requires AllSpace(s)
    ensures '<' !in s
  {
    forall k | 0 <= k < |s|
      ensures s[k] != '<'
    {
      assert IsJsSpace(s[k]);
    }
  }

  lemma SpaceThroughBlocks(s: string)
    requires AllSpace(s)
    ensures ApplyAll(BLOCK_PASSES, s) == s
  {
    forall k | 0 <= k < |BLOCK_PASSES|
      ensures Inert(BLOCK_PASSES[k], s)
    {
      SpaceInert(BLOCK_PASSES[k], s);
    }
    InertPipeline(BLOCK_PASSES, s);
  }

  lemma SpaceThroughCleanup(s: string)
    requires AllSpace(s)
    ensures Apply(BlankPara, Apply(EmptyPara, s)) == s
  {
    SpaceInert(EmptyPara, s);
    InertIdentity(EmptyPara, s);
    SpaceInert(BlankPara, s);
    InertIdentity(BlankPara, s);
  }

  // ---------------------------------------------------------------------------
  // Facts about the pattern primitives

  /** No line terminator anywhere in t. */
  predicate OneLine(t: string)
  {
    forall k :: 0 <= k < |t| ==> !IsLineTerminator(t[k])
  }

  lemma LineEndAt(s: string, i: nat, k: nat)
    requires i <= k <= |s| && NoBreak(s, i, k)
    requires k == |s| || IsLineTerminator(s[k])
    ensures LineEnd(s, i) == k
  {
  }

  lemma FirstAtIs(s: string, i: nat, w: string, oneLine: bool, q: nat)
    requires i <= q <= |s| && w != "" && At(s, q, w)
    requires oneLine ==> NoBreak(s, i, q)
    requires forall t :: i <= t < q ==> !At(s, t, w)
    ensures FirstAt(s, i, w, oneLine) == Some(q)
  {
  }

  /** For lower-case w, an exact occurrence is also a case-insensitive one. */
  lemma AtFoldedOfAt(s: string, i: nat, w: string)
    requires At(s, i, w)
    requires forall k :: 0 <= k < |w| ==> !('A' <= w[k] <= 'Z')
    ensures AtFolded(s, i, w)
  {
    assert Folded(s[i..i + |w|]) == w;
  }

  /** Without newlines the item content has no line break to turn into "<br>". */
  lemma {:induction false} BreaksNoNewline(w: string)
    requires '\n' !in w
    ensures Breaks(w) == w
    decreases |w|
  {
    if w != "" {
      NewlineFreeHead(w);
      BreaksNoNewline(w[1..]);
    }
  }

  /** A non-empty text without a newline: no break starts it, and its tail has no
      newline either. */
  lemma NewlineFreeHead(w: string)
    requires w != "" && '\n' !in w
    ensures !At(w, 0, "\n  ") && '\n' !in w[1..] && [w[0]] + w[1..] == w
  {
    assert w[0] in w;
    if At(w, 0, "\n  ") {
      AtFirst(w, 0, "\n  ");
    }
    assert forall c :: c in w[1..] ==> c in w;
  }

  /** A single match that spans the whole text: the text becomes its replacement. */
  lemma WholeHit(p: Pass, s: string, text: string)
    requires s != "" && Match(p, s, 0) == Some(Hit(|s|, text))
    ensures Apply(p, s) == text
  {
    MatchesAt(p, s, 0);
    StepHit(s, Matches(p, s), 0, Hit(|s|, text));
    ReplaceAllEnd(s, Matches(p, s));
  }

  // ---------------------------------------------------------------------------
  // Headings, bold and italic

  /** "### T" becomes <h3>T</h3>, and the paragraph wrap leaves it alone. */
  lemma Heading3Line(t: string)
    requires OneLine(t)
    ensures Apply(Heading3, "### " + t) == "<h3>" + t + "</h3>"
    ensures WrapLine("<h3>" + t + "</h3>") == "<h3>" + t + "</h3>"
  {
    var s := "### " + t;
    assert At(s, 0, "### ");
    LineEndAt(s, 4, |s|);
    assert s[4..|s|] == t;
    assert "<" + "h3" + ">" + t + "</" + "h3" + ">" == "<h3>" + t + "</h3>";
    WholeHit(Heading3, s, "<h3>" + t + "</h3>");
    HeadingWrapKept("<h3>" + t + "</h3>");
  }

  /** "## T" becomes <h2>T</h2>, and the paragraph wrap leaves it alone. */
  lemma Heading2Line(t: string)
    requires OneLine(t)
    ensures Apply(Heading2, "## " + t) == "<h2>" + t + "</h2>"
    ensures WrapLine("<h2>" + t + "</h2>") == "<h2>" + t + "</h2>"
  {
    var s := "## " + t;
    assert At(s, 0, "## ");
    LineEndAt(s, 3, |s|);
    assert s[3..|s|] == t;
    assert "<" + "h2" + ">" + t + "</" + "h2" + ">" == "<h2>" + t + "</h2>";
    WholeHit(Heading2, s, "<h2>" + t + "</h2>");
    HeadingWrapKept("<h2>" + t + "</h2>");
  }

  lemma HeadingWrapKept(u: string)
    requires |u| >= 2 && u[0] == '<' && u[1] == 'h' && u[|u| - 1] == '>'
    ensures WrapLine(u) == u
  {
    TrimUntouched(u);
    assert StartsWith(u, "<h");
  }

  /** "**x**" becomes <strong>x</strong>. */
  lemma BoldPair(x: string)
    requires OneLine(x) && '*' !in x
    ensures Apply(Bold, "**" + x + "**") == "<strong>" + x + "</strong>"
  {
    var s := "**" + x + "**";
    var h := Hit(|s|, "<strong>" + x + "</strong>");
    assert At(s, 0, "**") && s[2..2 + |x|] == x && At(s, 2 + |x|, "**");
    StrongMatch(s, x);
    PairDispatch(s, h);
    WholeHit(Bold, s, h.text);
  }

  /** The strong element bold produces holds no '*', so the italic pass that runs
      next leaves it alone. */
  lemma StrongSurvivesItalic(x: string)
    requires '*' !in x
    ensures Apply(Italic, "<strong>" + x + "</strong>") == "<strong>" + x + "</strong>"
  {
    StarFreeInert("<strong>" + x + "</strong>");
  }

  lemma StrongMatch(s: string, x: string)
    requires OneLine(x) && '*' !in x && |s| == |x| + 4
    requires At(s, 0, "**") && s[2..2 + |x|] == x && At(s, 2 + |x|, "**")
    ensures MatchPair(s, 0, "**", "strong") == Some(Hit(|s|, "<strong>" + x + "</strong>"))
  {
    PairMatch(s, "**", x, "strong");
    assert "<" + "strong" + ">" + x + "</" + "strong" + ">" == "<strong>" + x + "</strong>";
  }

  /** "*x*" is left alone by the bold pass and becomes <em>x</em>. */
  lemma ItalicPair(x: string)
    requires OneLine(x) && '*' !in x && x != ""
    ensures Apply(Bold, "*" + x + "*") == "*" + x + "*"
    ensures Apply(Italic, "*" + x + "*") == "<em>" + x + "</em>"
  {
    var s := "*" + x + "*";
    var h := Hit(|s|, "<em>" + x + "</em>");
    assert At(s, 0, "*") && s[1..1 + |x|] == x && At(s, 1 + |x|, "*");
    EmMatch(s, x);
    PairDispatch(s, h);
    WholeHit(Italic, s, h.text);
    LoneStars(x);
    SingleStarsNotBold(s);
  }

  lemma EmMatch(s: string, x: string)
    requires OneLine(x) && '*' !in x && |s| == |x| + 2
    requires At(s, 0, "*") && s[1..1 + |x|] == x && At(s, 1 + |x|, "*")
    ensures MatchPair(s, 0, "*", "em") == Some(Hit(|s|, "<em>" + x + "</em>"))
  {
    PairMatch(s, "*", x, "em");
    assert "<" + "em" + ">" + x + "</" + "em" + ">" == "<em>" + x + "</em>";
  }

  /** delim x delim, with x one line free of '*', is one pair. */
  lemma PairMatch(s: string, d: string, x: string, tag: string)
    requires d != "" && d[0] == '*' && OneLine(x) && '*' !in x
    requires |s| == |x| + 2 * |d|
    requires At(s, 0, d) && s[|d|..|d| + |x|] == x && At(s, |d| + |x|, d)
    ensures MatchPair(s, 0, d, tag) == Some(Hit(|s|, "<" + tag + ">" + x + "</" + tag + ">"))
  {
    var q := |d| + |x|;
    forall t | |d| <= t < q
      ensures !At(s, t, d)
    {
      assert s[t] == x[t - |d|];
      NotAtFirst(s, t, d);
    }
    FirstAtIs(s, |d|, d, true, q);
  }

  lemma NotAtFirst(s: string, t: nat, w: string)
    requires w != "" && t < |s| && s[t] != w[0]
    ensures !At(s, t, w)
  {
    assert t + |w| <= |s| ==> s[t..t + |w|][0] == s[t];
  }

  lemma NotAtSecond(s: string, t: nat, w: string)
    requires |w| >= 2 && t + 1 < |s| && s[t + 1] != w[1]
    ensures !At(s, t, w)
  {
    assert t + |w| <= |s| ==> s[t..t + |w|][1] == s[t + 1];
  }

  lemma PairDispatch(s: string, h: Hit)
    requires s != ""
    ensures MatchPair(s, 0, "**", "strong") == Some(h) ==> Match(Bold, s, 0) == Some(h)
    ensures MatchPair(s, 0, "*", "em") == Some(h) ==> Match(Italic, s, 0) == Some(h)
  {
  }

  /** Text without '*' is left alone by the italic pass. */
  lemma StarFreeInert(u: string)
    requires '*' !in u
    ensures Apply(Italic, u) == u
  {
    InertIdentity(Italic, u);
  }

  /** The bold pass needs two stars in a row: a text in which no star is followed by
      another is left as it is. */
  lemma SingleStarsNotBold(s: string)
    requires forall k :: 0 <= k < |s| - 1 && s[k] == '*' ==> s[k + 1] != '*'
    ensures Apply(Bold, s) == s
  {
    forall k | 0 <= k < |s|
      ensures Match(Bold, s, k).None?
    {
      if s[k] != '*' {
        NotAtFirst(s, k, "**");
      } else if k + 1 < |s| {
        NotAtSecond(s, k, "**");
      }
    }
    NoMatchIdentity(Bold, s);
  }

  /** In "*x*", with x non-empty and free of '*', no star is followed by another. */
  lemma LoneStars(x: string)
    requires x != "" && '*' !in x
    ensures var s := "*" + x + "*";
            forall k :: 0 <= k < |s| - 1 && s[k] == '*' ==> s[k + 1] != '*'
  {
    var s := "*" + x + "*";
    forall k | 1 <= k <= |x|
      ensures s[k] != '*'
    {
      assert s[k] == x[k - 1] && x[k - 1] in x;
    }
  }

  // ---------------------------------------------------------------------------
  // Links, inline code and rules

  /** "[t](u)", with t and u non-empty, t free of ']' and u free of ')', becomes an
      anchor to u with text t that opens in a new tab. */
  lemma LinkPair(text: string, url: string)
    requires text != "" && url != "" && ']' !in text && ')' !in url
    ensures Apply(Link, "[" + text + "](" + url + ")") == LinkHtml(url, text)
  {
    var s := "[" + text + "](" + url + ")";
    var k := 1 + |text|;
    var m := k + 2 + |url|;
    assert |s| == m + 1 && s[0] == '[' && s[k] == ']' && s[k + 1] == '(' && s[m] == ')';
    assert s[1..k] == text && s[k + 2..m] == url;
    forall t | 1 <= t < k
      ensures s[t] != ']'
    {
      assert s[t] == text[t - 1] && text[t - 1] in text;
    }
    forall t | k + 2 <= t < m
      ensures s[t] != ')'
    {
      assert s[t] == url[t - k - 2] && url[t - k - 2] in url;
    }
    IndexOfAt(s, 1, ']', k);
    IndexOfAt(s, k + 2, ')', m);
    assert Match(Link, s, 0) == Some(Hit(|s|, LinkHtml(url, text)));
    WholeHit(Link, s, LinkHtml(url, text));
  }

  /** `` `x` ``, with x non-empty and free of backticks, becomes a code element. */
  lemma CodeSpan(x: string)
    requires x != "" && '`' !in x
    ensures Apply(InlineCode, "`" + x + "`") == "<code>" + x + "</code>"
  {
    var s := "`" + x + "`";
    var k := 1 + |x|;
    assert |s| == k + 1 && s[0] == '`' && s[k] == '`' && s[1..k] == x;
    forall t | 1 <= t < k
      ensures s[t] != '`'
    {
      assert s[t] == x[t - 1] && x[t - 1] in x;
    }
    IndexOfAt(s, 1, '`', k);
    assert Match(InlineCode, s, 0) == Some(Hit(|s|, "<code>" + x + "</code>"));
    WholeHit(InlineCode, s, "<code>" + x + "</code>");
  }

  /** The first occurrence of c at or after i. */
  lemma IndexOfAt(s: string, i: nat, c: char, k: nat)
    requires i <= k < |s| && s[k] == c
    requires forall t :: i <= t < k ==> s[t] != c
    ensures IndexOf(s, i, c) == k
  {
  }

  /** A line that is exactly "---" becomes <hr>, and the paragraph wrap leaves it
      alone. */
  lemma RuleLine()
    ensures Apply(Rule, "---") == "<hr>"
    ensures WrapLine("<hr>") == "<hr>"
  {
    assert At("---", 0, "---");
    assert Match(Rule, "---", 0) == Some(Hit(3, "<hr>"));
    WholeHit(Rule, "---", "<hr>");
    HeadingWrapKept("<hr>");
  }

  /** A line that only starts with "---" is not a rule: the pattern must end with the
      line. */
  lemma RuleNeedsLineEnd(x: string)
    requires x != "" && OneLine(x)
    ensures Apply(Rule, "---" + x) == "---" + x
  {
    var s := "---" + x;
    forall k | 0 <= k < |s|
      ensures Match(Rule, s, k).None?
    {
      if k == 0 {
        assert s[3] == x[0] && !IsLineTerminator(x[0]);
      } else if k < 4 {
        assert !LineStart(s, k);
      } else {
        assert s[k - 1] == x[k - 4] && !IsLineTerminator(x[k - 4]);
      }
    }
    NoMatchIdentity(Rule, s);
  }

  // ---------------------------------------------------------------------------
  // Fenced code blocks

  /** A fenced block whose body never holds a newline followed by three backticks
      becomes pre/code; with no language tag the class is language-plaintext, and the
      body is trimmed. */
  lemma FencedBlock(lang: string, code: string)
    requires forall k :: 0 <= k < |lang| ==> IsWordChar(lang[k])
    requires forall t :: !At(code, t, "\n```")
    ensures Apply(Fence, "```" + lang + "\n" + code + "\n```") == FencedHtml(lang, code)
    ensures lang == "" ==> FencedHtml(lang, code) == FencedHtml("plaintext", code)
  {
    var s := "```" + lang + "\n" + code + "\n```";
    FenceLayout(s, lang, code);
    FenceMatch(s, lang, code);
    FenceDispatch(s, Hit(|s|, FencedHtml(lang, code)));
    WholeHit(Fence, s, FencedHtml(lang, code));
  }

  lemma FenceMatch(s: string, lang: string, code: string)
    requires forall k :: 0 <= k < |lang| ==> IsWordChar(lang[k])
    requires forall t :: !At(code, t, "\n```")
    requires |s| == 3 + |lang| + 1 + |code| + 4
    requires At(s, 0, "```") && s[3..3 + |lang|] == lang && s[3 + |lang|] == '\n'
    requires s[3 + |lang| + 1..3 + |lang| + 1 + |code|] == code
    requires s[3 + |lang| + 1 + |code|..] == "\n```"
    ensures MatchFence(s, 0) == Some(Hit(|s|, FencedHtml(lang, code)))
  {
    var p := 3 + |lang|;
    var q := p + 1 + |code|;
    FenceWordEnd(s, lang);
    FenceClose(s, p, code);
    FenceSteps(s, 0, p, q);
    assert s[3..p] == lang && s[p + 1..q] == code && q + 4 == |s|;
    assert FenceHit(s, 0, p, q) == Hit(|s|, FencedHtml(lang, code));
  }

  /** An opening "```" at i, a run of word characters up to a newline at p, and the
      first "\n```" after that newline at q: the fence pattern matches from i to the
      end of that close, with the word as its language and what lies between the
      newline and the close as its code. A later close never extends the block. */
  lemma FenceFound(s: string, i: nat, p: nat, q: nat)
    requires At(s, i, "```") && At(s, q, "\n```") && i + 3 <= p < q && s[p] == '\n'
    requires forall t :: i + 3 <= t < p ==> IsWordChar(s[t])
    requires forall t :: p + 1 <= t < q ==> !At(s, t, "\n```")
    ensures MatchFence(s, i) == Some(Hit(q + 4, FencedHtml(s[i + 3..p], s[p + 1..q])))
  {
    assert MatchFence(s, i) == Some(FenceHit(s, i, p, q)) by {
      WordEndAt(s, i + 3, p);
      FirstAtIs(s, p + 1, "\n```", false, q);
      FenceSteps(s, i, p, q);
    }
  }

  /** The greedy run of word characters from i stops at the first character that is
      not one. */
  lemma WordEndAt(s: string, i: nat, p: nat)
    requires i <= p < |s| && !IsWordChar(s[p])
    requires forall t :: i <= t < p ==> IsWordChar(s[t])
    ensures WordEnd(s, i) == p
  {
  }

  /** The fence pattern's two steps, given where the word ends and where the close is
      found. */
  lemma FenceSteps(s: string, i: nat, p: nat, q: nat)
    requires i < |s| && At(s, i, "```") && WordEnd(s, i + 3) == p && p < |s| && s[p] == '\n'
    requires FirstAt(s, p + 1, "\n```", false) == Some(q)
    ensures i + 3 <= p < q && q + 4 <= |s|
    ensures MatchFence(s, i) == Some(FenceHit(s, i, p, q))
  {
    FenceOpened(s, i, p);
    FenceClosed(s, i, p, q);
  }

  lemma FenceOpened(s: string, i: nat, p: nat)
    requires i < |s| && At(s, i, "```") && WordEnd(s, i + 3) == p
    ensures i + 3 <= p <= |s| && MatchFence(s, i) == FenceFrom(s, i, p)
  {
  }

  lemma FenceClosed(s: string, i: nat, p: nat, q: nat)
    requires i + 3 <= p < |s| && s[p] == '\n'
    requires FirstAt(s, p + 1, "\n```", false) == Some(q)
    ensures p < q && q + 4 <= |s|
    ensures FenceFrom(s, i, p) == Some(FenceHit(s, i, p, q))
  {
  }

  lemma FenceDispatch(s: string, h: Hit)
    requires s != "" && MatchFence(s, 0) == Some(h)
    ensures Match(Fence, s, 0) == Some(h)
  {
  }

  lemma FenceLayout(s: string, lang: string, code: string)
    requires s == "```" + lang + "\n" + code + "\n```"
    ensures |s| == 3 + |lang| + 1 + |code| + 4
    ensures At(s, 0, "```") && s[3..3 + |lang|] == lang && s[3 + |lang|] == '\n'
    ensures s[3 + |lang| + 1..3 + |lang| + 1 + |code|] == code
    ensures s[3 + |lang| + 1 + |code|..] == "\n```"
  {
  }

  lemma FenceWordEnd(s: string, lang: string)
    requires forall k :: 0 <= k < |lang| ==> IsWordChar(lang[k])
    requires |s| > 3 + |lang| && s[3..3 + |lang|] == lang && s[3 + |lang|] == '\n'
    ensures WordEnd(s, 3) == 3 + |lang|
  {
    forall t | 3 <= t < 3 + |lang|
      ensures IsWordChar(s[t])
    {
      assert s[t] == lang[t - 3];
    }
  }

  lemma FenceClose(s: string, p: nat, code: string)
    requires forall t :: !At(code, t, "\n```")
    requires p + 1 + |code| + 4 == |s|
    requires s[p + 1..p + 1 + |code|] == code && s[p + 1 + |code|..] == "\n```"
    ensures FirstAt(s, p + 1, "\n```", false) == Some(p + 1 + |code|)
  {
    var q := p + 1 + |code|;
    forall t | p + 1 <= t < q
      ensures !At(s, t, "\n```")
    {
      FenceNotInside(s, p, code, t);
    }
    FirstAtIs(s, p + 1, "\n```", false, q);
  }

  lemma FenceNotInside(s: string, p: nat, code: string, t: nat)
    requires forall t :: !At(code, t, "\n```")
    requires p + 1 + |code| + 4 == |s|
    requires s[p + 1..p + 1 + |code|] == code && s[p + 1 + |code|..] == "\n```"
    requires p + 1 <= t < p + 1 + |code|
    ensures !At(s, t, "\n```")
  {
    var q := p + 1 + |code|;
    if t + 4 <= q {
      var a := t - p - 1;
      var inCode, inText := code[a..a + 4], s[t..t + 4];
      forall j | 0 <= j < 4
        ensures inCode[j] == inText[j]
      {
        assert inCode[j] == code[a + j] == s[p + 1..q][a + j] == s[t + j];
      }
      assert code[a..a + 4] == s[t..t + 4];
      assert !At(code, t - p - 1, "\n```");
    } else {
      assert s[q] == '\n';
      assert s[t..t + 4][q - t] == s[q];
    }
  }

  // ---------------------------------------------------------------------------
  // Bullet items and lists

  lemma OneLineNoNewline(t: string)
    requires OneLine(t)
    ensures '\n' !in t
  {
    assert forall k :: 0 <= k < |t| ==> t[k] != '\n';
  }

  lemma BulletDispatch(s: string, i: nat, h: Hit)
    requires i < |s| && MatchBullet(s, i) == Some(h)
    ensures Match(Bullet, s, i) == Some(h)
  {
    BulletIsMatch(s, i);
  }

  lemma BulletIsMatch(s: string, i: nat)
    requires i < |s|
    ensures Match(Bullet, s, i) == MatchBullet(s, i)
  {
  }

  /** "* a" on its own line becomes an li holding the trimmed a. */
  lemma BulletItem(a: string)
    requires OneLine(a)
    ensures Apply(Bullet, "* " + a) == "<li>" + Trim(a) + "</li>"
  {
    var s := "* " + a;
    assert At(s, 0, "* ") && s[2..] == a;
    BulletLineMatch(s, a);
    OneLineNoNewline(a);
    BreaksNoNewline(a);
    BulletDispatch(s, 0, Hit(|s|, "<li>" + Trim(a) + "</li>"));
    WholeHit(Bullet, s, "<li>" + Trim(a) + "</li>");
  }

  lemma BulletLineMatch(s: string, a: string)
    requires OneLine(a) && |s| == |a| + 2 && At(s, 0, "* ") && s[2..] == a
    ensures MatchBullet(s, 0) == Some(Hit(|s|, ItemHtml(a)))
  {
    forall t | 2 <= t < |s|
      ensures !IsLineTerminator(s[t])
    {
      assert s[t] == a[t - 2];
    }
    LineEndAt(s, 2, |s|);
    assert !At(s, |s|, "\n  ");
    assert s[2..|s|] == a;
  }

  /** A line indented by two or more spaces continues the item above it: the line
      break and the indentation become one "<br>". */
  lemma BulletContinuation(a: string, indent: string, b: string)
    requires OneLine(a) && OneLine(b) && (b == "" || b[0] != ' ')
    requires |indent| >= 2 && forall k :: 0 <= k < |indent| ==> indent[k] == ' '
    ensures Apply(Bullet, "* " + a + "\n" + indent + b) == "<li>" + Trim(a + "<br>" + b) + "</li>"
  {
    var s := "* " + a + "\n" + indent + b;
    var w := "\n" + indent + b;
    var n := |indent|;
    ContinuationLayout(s, a, w, indent, b);
    ContinuedItemMatch(s, a, w, n);
    ContinuedItemHtml(a, w, n, b);
    BulletDispatch(s, 0, Hit(|s|, "<li>" + Trim(a + "<br>" + b) + "</li>"));
    WholeHit(Bullet, s, "<li>" + Trim(a + "<br>" + b) + "</li>");
  }

  lemma ContinuedItemHtml(a: string, w: string, n: nat, b: string)
    requires OneLine(a) && OneLine(b) && (b == "" || b[0] != ' ')
    requires n >= 2 && |w| == n + 1 + |b| && w[0] == '\n' && w[n + 1..] == b
    requires forall t :: 1 <= t <= n ==> w[t] == ' '
    ensures ItemHtml(a + w) == "<li>" + Trim(a + "<br>" + b) + "</li>"
  {
    OneLineNoNewline(a);
    OneLineNoNewline(b);
    BreaksAppend(a, w);
    ContinuationBreak(w, n);
    assert a + ("<br>" + b) == a + "<br>" + b;
  }

  lemma ContinuationLayout(s: string, a: string, w: string, indent: string, b: string)
    requires w == "\n" + indent + b && s == "* " + a + w
    requires forall k :: 0 <= k < |indent| ==> indent[k] == ' '
    ensures |s| == 2 + |a| + |w| && |w| == |indent| + 1 + |b|
    ensures At(s, 0, "* ") && s[2..2 + |a|] == a && s[2 + |a|..] == w
    ensures w[0] == '\n' && w[|indent| + 1..] == b
    ensures forall t :: 1 <= t <= |indent| ==> w[t] == ' '
  {
    assert forall t :: 1 <= t <= |indent| ==> w[t] == indent[t - 1];
  }

  lemma ContinuedItemMatch(s: string, a: string, w: string, n: nat)
    requires OneLine(a) && |s| == 2 + |a| + |w|
    requires At(s, 0, "* ") && s[2..2 + |a|] == a && s[2 + |a|..] == w
    requires n >= 2 && |w| >= n + 1 && w[0] == '\n'
    requires forall t :: 1 <= t <= n ==> w[t] == ' '
    requires OneLine(w[n + 1..])
    ensures MatchBullet(s, 0) == Some(Hit(|s|, ItemHtml(a + w)))
  {
    var e := 2 + |a|;
    forall t | 2 <= t < e
      ensures !IsLineTerminator(s[t])
    {
      assert s[t] == a[t - 2];
    }
    assert s[e] == w[0];
    LineEndAt(s, 2, e);
    assert s[e..e + 3] == w[..3];
    assert At(s, e, "\n  ");
    forall t | e + 3 <= t < |s|
      ensures !IsLineTerminator(s[t])
    {
      assert s[t] == w[t - e];
      if t - e <= n {
        assert w[t - e] == ' ';
      } else {
        assert w[t - e] == w[n + 1..][t - e - n - 1];
      }
    }
    LineEndAt(s, e + 3, |s|);
    assert ItemEnd(s, e) == |s|;
    assert s[2..|s|] == a + w;
  }

  lemma {:induction false} BreaksAppend(a: string, w: string)
    requires '\n' !in a
    ensures Breaks(a + w) == a + Breaks(w)
    decreases |a|
  {
    if a != "" {
      assert (a + w)[0] == a[0] != '\n';
      NotAtFirst(a + w, 0, "\n  ");
      assert (a + w)[1..] == a[1..] + w;
      assert Breaks(a + w) == [a[0]] + Breaks(a[1..] + w);
      BreaksAppend(a[1..], w);
      assert [a[0]] + (a[1..] + Breaks(w)) == a + Breaks(w);
    } else {
      assert a + w == w;
    }
  }

  /** A newline followed by n >= 2 spaces, then text that neither starts with a
      space nor holds a newline: one "<br>" and the text. */
  lemma ContinuationBreak(w: string, n: nat)
    requires n >= 2 && |w| >= n + 1 && w[0] == '\n'
    requires forall t :: 1 <= t <= n ==> w[t] == ' '
    requires n + 1 == |w| || w[n + 1] != ' '
    requires '\n' !in w[n + 1..]
    ensures Breaks(w) == "<br>" + w[n + 1..]
  {
    IndentAt(w, 0);
    BlanksEnd(w, n);
    assert Breaks(w) == "<br>" + Breaks(w[n + 1..]);
    BreaksNoNewline(w[n + 1..]);
  }

  lemma IndentAt(s: string, i: nat)
    requires i + 3 <= |s| && s[i] == '\n' && s[i + 1] == ' ' && s[i + 2] == ' '
    ensures At(s, i, "\n  ")
  {
  }

  lemma BlanksEnd(w: string, n: nat)
    requires n >= 2 && |w| >= n + 1
    requires forall t :: 1 <= t <= n ==> w[t] == ' '
    requires n + 1 == |w| || w[n + 1] != ' '
    ensures SkipBlanks(w, 3) == n + 1
  {
  }

  /** An li element around x. */
  function Li(x: string): string
  {
    "<li>" + x + "</li>"
  }

  /** li elements, one per line. */
  function ItemLines(xs: seq<string>): string
    requires |xs| >= 1
    decreases |xs|
  {
    if |xs| == 1 then Li(xs[0]) else Li(xs[0]) + "\n" + ItemLines(xs[1..])
  }

  /** Bullet lines "* a", one per line. */
  function BulletLines(items: seq<string>): string
    requires |items| >= 1
    decreases |items|
  {
    if |items| == 1 then "* " + items[0] else "* " + items[0] + "\n" + BulletLines(items[1..])
  }

  function TrimEach(items: seq<string>): (r: seq<string>)
    ensures |r| == |items| && forall k :: 0 <= k < |items| ==> r[k] == Trim(items[k])
  {
    seq(|items|, k requires 0 <= k < |items| => Trim(items[k]))
  }

  predicate AllOneLine(xs: seq<string>)
  {
    forall k :: 0 <= k < |xs| ==> OneLine(xs[k])
  }

  /** Consecutive bullet lines become consecutive li elements, one per line, each
      holding its trimmed item. */
  lemma BulletsToItems(items: seq<string>)
    requires |items| >= 1 && AllOneLine(items)
    ensures Apply(Bullet, BulletLines(items)) == ItemLines(TrimEach(items))
  {
    var s := BulletLines(items);
    var n := |items|;
    var t := Matches(Bullet, s);
    forall m | 0 <= m < n
      ensures LineInTable(s, t, items, m)
    {
      ItemLaidOut(items, m);
      BulletTableAt(s, items, m);
    }
    var js := seq(n, k requires 0 <= k < n => Start(items, k));
    var es := seq(n, k requires 0 <= k < n => Start(items, k) + 2 + |items[k]|);
    var xs := TrimEach(items);
    BulletTable(s, t, items, js, es, xs);
    SpliceItems(s, t, js, es, xs, 0);
    assert js[0] == 0 && xs[0..] == xs;
  }

  /** Table t matches the m-th bullet line from its start to its end with the li of
      the trimmed item, and holds no match at the newline after it. */
  predicate LineInTable(s: string, t: seq<Option<Hit>>, items: seq<string>, m: nat)
    requires m < |items| && |t| == |s|
  {
    var j, e := Start(items, m), Start(items, m) + 2 + |items[m]|;
    j < |s| && t[j] == Some(Hit(e, Li(Trim(items[m]))))
    && (m < |items| - 1 ==> e < |s| && s[e] == '\n' && t[e].None? && Start(items, m + 1) == e + 1)
    && (m == |items| - 1 ==> e == |s|)
  }

  /** The line facts indexed by line: the k-th line's start js[k], its end es[k] and
      its trimmed item xs[k]. */
  lemma BulletTable(s: string, t: seq<Option<Hit>>, items: seq<string>, js: seq<nat>, es: seq<nat>, xs: seq<string>)
    requires |items| >= 1 && Table(s, t)
    requires forall m :: 0 <= m < |items| ==> LineInTable(s, t, items, m)
    requires |js| == |es| == |xs| == |items|
    requires forall k :: 0 <= k < |items| ==> js[k] == Start(items, k)
    requires forall k :: 0 <= k < |items| ==> es[k] == Start(items, k) + 2 + |items[k]|
    requires forall k :: 0 <= k < |items| ==> xs[k] == Trim(items[k])
    ensures forall m :: 0 <= m < |xs| ==> js[m] < |s| && t[js[m]] == Some(Hit(es[m], Li(xs[m])))
    ensures forall m :: 0 <= m < |xs| - 1 ==>
              es[m] < |s| && s[es[m]] == '\n' && t[es[m]].None? && js[m + 1] == es[m] + 1
    ensures es[|xs| - 1] == |s|
  {
    var n := |items|;
    forall m | 0 <= m < |xs|
      ensures js[m] < |s| && t[js[m]] == Some(Hit(es[m], Li(xs[m])))
    {
      IndexedLine(s, t, items, m, js[m], es[m], xs[m], if m < |xs| - 1 then js[m + 1] else 0);
    }
    forall m | 0 <= m < |xs| - 1
      ensures es[m] < |s| && s[es[m]] == '\n' && t[es[m]].None? && js[m + 1] == es[m] + 1
    {
      IndexedLine(s, t, items, m, js[m], es[m], xs[m], js[m + 1]);
    }
    assert LineInTable(s, t, items, n - 1);
    assert es[n - 1] == |s|;
  }

  /** LineInTable with the line's start j, end e, trimmed item x and the next
      line's start next named. */
  lemma IndexedLine(s: string, t: seq<Option<Hit>>, items: seq<string>, m: nat, j: nat, e: nat, x: string, next: nat)
    requires m < |items| && |t| == |s| && LineInTable(s, t, items, m)
    requires j == Start(items, m) && e == Start(items, m) + 2 + |items[m]| && x == Trim(items[m])
    requires m < |items| - 1 ==> next == Start(items, m + 1)
    ensures j < |s| && t[j] == Some(Hit(e, Li(x)))
    ensures m < |items| - 1 ==> e < |s| && s[e] == '\n' && t[e].None? && next == e + 1
  {
  }

  /** The m-th laid-out bullet line in the bullet pass's table. */
  lemma BulletTableAt(s: string, items: seq<string>, m: nat)
    requires m < |items| && OneLine(items[m])
    requires LaidOut(s, Start(items, m), items[m], m == |items| - 1)
    ensures LineInTable(s, Matches(Bullet, s), items, m)
  {
    var j, e := Start(items, m), Start(items, m) + 2 + |items[m]|;
    var x := Li(Trim(items[m]));
    LineTable(s, j, items[m], m == |items| - 1, e, x);
    if m < |items| - 1 {
      StartNext(items, m);
    }
    PackLine(s, Matches(Bullet, s), items, m, j, e, x);
  }

  /** The facts of LineTable about the m-th line, packed as LineInTable. */
  lemma PackLine(s: string, t: seq<Option<Hit>>, items: seq<string>, m: nat, j: nat, e: nat, x: string)
    requires m < |items| && |t| == |s|
    requires j == Start(items, m) && e == j + 2 + |items[m]| && x == Li(Trim(items[m]))
    requires j < |s| && t[j] == Some(Hit(e, x))
    requires m == |items| - 1 ==> e == |s|
    requires m < |items| - 1 ==> e < |s| && s[e] == '\n' && t[e].None? && Start(items, m + 1) == e + 1
    ensures LineInTable(s, t, items, m)
  {
  }

  /** A laid-out bullet line in the bullet pass's table: its match, and no match at
      the newline that ends it. */
  lemma LineTable(s: string, j: nat, a: string, last: bool, e: nat, x: string)
    requires OneLine(a) && LaidOut(s, j, a, last) && e == j + 2 + |a| && x == Li(Trim(a))
    ensures j < |s| && Matches(Bullet, s)[j] == Some(Hit(e, x))
    ensures last ==> e == |s|
    ensures !last ==> e < |s| && s[e] == '\n' && Matches(Bullet, s)[e].None?
  {
    LaidOutMatch(s, j, a, last, e, x);
    BulletDispatch(s, j, Hit(e, x));
    MatchesAt(Bullet, s, j);
    if !last {
      NewlineMiss(Bullet, s, e);
      MatchesAt(Bullet, s, e);
    }
  }

  /** No pattern matches at a newline. */
  lemma NewlineMiss(p: Pass, s: string, e: nat)
    requires e < |s| && s[e] == '\n'
    ensures Match(p, s, e).None?
  {
    NewlineNoTrigger(p);
    if Match(p, s, e).Some? {
      MatchShape(p, s, e);
    }
  }

  /** A table that matches the k-th line from js[k] to es[k] with the li of xs[k],
      and nothing at the newline between lines: the replacement from js[k] on is
      the li lines from the k-th on. */
  lemma {:induction false} SpliceItems(s: string, t: seq<Option<Hit>>, js: seq<nat>, es: seq<nat>, xs: seq<string>, k: nat)
    requires Table(s, t) && |js| == |es| == |xs| >= 1 && k < |xs|
    requires forall m :: 0 <= m < |xs| ==> js[m] < |s| && t[js[m]] == Some(Hit(es[m], Li(xs[m])))
    requires forall m :: 0 <= m < |xs| - 1 ==> es[m] < |s| && s[es[m]] == '\n' && t[es[m]].None? && js[m + 1] == es[m] + 1
    requires es[|xs| - 1] == |s|
    ensures ReplaceAll(s, t, js[k]) == ItemLines(xs[k..])
    decreases |xs| - k
  {
    StepHit(s, t, js[k], Hit(es[k], Li(xs[k])));
    if k == |xs| - 1 {
      ReplaceAllEnd(s, t);
      assert xs[k..] == [xs[k]];
    } else {
      StepNone(s, t, es[k]);
      SpliceItems(s, t, js, es, xs, k + 1);
      assert xs[k..][0] == xs[k] && xs[k..][1..] == xs[k + 1..];
    }
  }

  lemma StartNext(items: seq<string>, k: nat)
    requires k < |items|
    ensures Start(items, k + 1) == Start(items, k) + 2 + |items[k]| + 1
  {
  }

  /** Where the k-th bullet line starts in BulletLines(items). */
  function Start(items: seq<string>, k: nat): nat
    requires k <= |items|
  {
    if k == 0 then 0 else Start(items, k - 1) + |items[k - 1]| + 3
  }

  /** What follows the start of the k-th line is the bullet lines from the k-th on. */
  lemma {:induction false} SuffixAt(items: seq<string>, k: nat)
    requires k < |items|
    ensures Start(items, k) <= |BulletLines(items)|
    ensures BulletLines(items)[Start(items, k)..] == BulletLines(items[k..])
  {
    var s := BulletLines(items);
    if k == 0 {
      assert items[0..] == items;
    } else {
      SuffixAt(items, k - 1);
      var j := Start(items, k - 1);
      var tail := items[k - 1..];
      BulletLineLayout(s, j, tail);
      assert tail[1..] == items[k..];
    }
  }

  /** The k-th bullet line starts a line, and the bullet lines from the k-th on
      follow it. */
  lemma ItemLayout(items: seq<string>, k: nat)
    requires k < |items| && AllOneLine(items)
    ensures Start(items, k) <= |BulletLines(items)|
    ensures LineStart(BulletLines(items), Start(items, k))
    ensures BulletLines(items)[Start(items, k)..] == BulletLines(items[k..])
    ensures |items[k..]| >= 1 && items[k..][0] == items[k] && OneLine(items[k])
  {
    var s := BulletLines(items);
    SuffixAt(items, k);
    if k > 0 {
      SuffixAt(items, k - 1);
      BulletLineLayout(s, Start(items, k - 1), items[k - 1..]);
    }
  }

  /** "* a" at a line start in s, ending the text (last) or followed by a newline
      and the next bullet. */
  predicate LaidOut(s: string, j: nat, a: string, last: bool)
  {
    j + 2 + |a| <= |s| && LineStart(s, j) && At(s, j, "* ") && s[j + 2..j + 2 + |a|] == a
    && (last ==> j + 2 + |a| == |s|)
    && (!last ==> j + 2 + |a| + 1 < |s| && s[j + 2 + |a|] == '\n' && s[j + 2 + |a| + 1] == '*')
  }

  /** The k-th of the bullet lines is laid out as one. */
  lemma ItemLaidOut(items: seq<string>, k: nat)
    requires k < |items| && AllOneLine(items)
    ensures LaidOut(BulletLines(items), Start(items, k), items[k], k == |items| - 1)
  {
    ItemLayout(items, k);
    LaidOutLine(BulletLines(items), Start(items, k), items[k..]);
  }

  /** The first of the bullet lines that follow a line start is laid out as one. */
  lemma LaidOutLine(s: string, j: nat, tail: seq<string>)
    requires |tail| >= 1 && j <= |s| && LineStart(s, j) && s[j..] == BulletLines(tail)
    ensures LaidOut(s, j, tail[0], |tail| == 1)
  {
    BulletLineLayout(s, j, tail);
  }

  /** A laid-out bullet line matches up to its end. */
  lemma LaidOutMatch(s: string, j: nat, a: string, last: bool, e: nat, x: string)
    requires OneLine(a) && LaidOut(s, j, a, last) && e == j + 2 + |a| && x == Li(Trim(a))
    ensures j < e <= |s| && MatchBullet(s, j) == Some(Hit(e, x))
    ensures last ==> e == |s|
    ensures !last ==> e < |s| && s[e] == '\n'
  {
    BulletMatchAt(s, j, a, last);
  }

  lemma NewlineNoTrigger(p: Pass)
    ensures Trigger(p) != '\n'
  {
  }


  /** One bullet line "* a" at a line start matches as the li of the trimmed a. */
  lemma BulletMatchAt(s: string, j: nat, a: string, last: bool)
    requires OneLine(a) && j + 2 + |a| <= |s|
    requires LineStart(s, j) && At(s, j, "* ") && s[j + 2..j + 2 + |a|] == a
    requires last ==> j + 2 + |a| == |s|
    requires !last ==> j + 2 + |a| + 1 < |s| && s[j + 2 + |a|] == '\n' && s[j + 2 + |a| + 1] == '*'
    ensures MatchBullet(s, j) == Some(Hit(j + 2 + |a|, Li(Trim(a))))
  {
    OneBulletMatch(s, j, a, last);
    PlainItem(a);
  }



  lemma PlainItem(a: string)
    requires OneLine(a)
    ensures ItemHtml(a) == Li(Trim(a))
  {
    OneLineNoNewline(a);
    BreaksNoNewline(a);
  }

  lemma BulletLineLayout(s: string, j: nat, items: seq<string>)
    requires |items| >= 1 && j <= |s| && s[j..] == BulletLines(items)
    ensures j + 2 + |items[0]| <= |s|
    ensures At(s, j, "* ") && s[j + 2..j + 2 + |items[0]|] == items[0]
    ensures |items| == 1 ==> j + 2 + |items[0]| == |s|
    ensures |items| > 1 ==> j + 2 + |items[0]| + 1 < |s| && s[j + 2 + |items[0]|] == '\n'
    ensures |items| > 1 ==> s[j + 2 + |items[0]| + 1] == '*'
    ensures |items| > 1 ==> s[j + 2 + |items[0]| + 1..] == BulletLines(items[1..])
  {
    var e := j + 2 + |items[0]|;
    assert s[j..][..2] == "* ";
    assert s[j..][2..2 + |items[0]|] == items[0];
    if |items| > 1 {
      var rest := BulletLines(items[1..]);
      assert |rest| >= 2 && rest[0] == '*';
      assert s[j..] == "* " + items[0] + "\n" + rest;
      assert s[e + 1..] == s[j..][e + 1 - j..];
    }
  }

  lemma OneBulletMatch(s: string, j: nat, a: string, last: bool)
    requires OneLine(a) && j + 2 + |a| <= |s|
    requires LineStart(s, j) && At(s, j, "* ") && s[j + 2..j + 2 + |a|] == a
    requires last ==> j + 2 + |a| == |s|
    requires !last ==> j + 2 + |a| + 1 < |s| && s[j + 2 + |a|] == '\n' && s[j + 2 + |a| + 1] == '*'
    ensures MatchBullet(s, j) == Some(Hit(j + 2 + |a|, ItemHtml(a)))
  {
    var e := j + 2 + |a|;
    forall t | j + 2 <= t < e
      ensures !IsLineTerminator(s[t])
    {
      assert s[t] == a[t - j - 2];
    }
    LineEndAt(s, j + 2, e);
    if !last {
      NotAtSecond(s, e, "\n  ");
    }
  }
}
