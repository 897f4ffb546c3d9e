/** Properties of markdownToHtml that come from the order of its passes: what a
    plain line becomes, how the italic pass gets to a bullet line before the bullet
    pass does, where the list merge deletes, and how the paragraph wrap treats the
    later lines of a fenced block. */
module PipelineLaws {
  import opened Js
  import opened Markdown
  import opened MarkdownLaws

  /** A pass whose trigger character does not occur leaves the text as it is. */
  lemma TriggerFree(p: Pass, u: string)
    requires Trigger(p) !in u
    ensures Apply(p, u) == u
  {
    forall k | 0 <= k < |u|
      ensures u[k] != Trigger(p)
    {
      assert u[k] in u;
    }
    InertIdentity(p, u);
  }

  // ---------------------------------------------------------------------------
  // Italic before bullets

  /** A bullet line whose text ends in a star is taken by the italic pass, which runs
      first: the star of the bullet and the closing star become an em element, and
      the bullet pass finds no bullet left. */
  lemma ItalicBeatsBullet(a: string)
    requires OneLine(a) && '*' !in a && '[' !in a
    ensures Apply(Bold, "* " + a + "*") == "* " + a + "*"
    ensures Apply(Italic, "* " + a + "*") == "<em> " + a + "</em>"
    ensures Apply(Bullet, Apply(Link, Apply(Italic, "* " + a + "*"))) == "<em> " + a + "</em>"
  {
    var x := " " + a;
    SpacedLine(a);
    ItalicPair(x);
    assert "*" + x + "*" == "* " + a + "*";
    assert "<em>" + x + "</em>" == "<em> " + a + "</em>";
    EmUntouched(a);
  }

  /** A line without '*' keeps both properties with a space in front. */
  lemma SpacedLine(a: string)
    requires OneLine(a) && '*' !in a
    ensures OneLine(" " + a) && '*' !in " " + a
  {
    var x := " " + a;
    forall k | 0 <= k < |x|
      ensures !IsLineTerminator(x[k]) && x[k] != '*'
    {
      if k > 0 {
        assert x[k] == a[k - 1];
      }
    }
  }

  /** The link and bullet passes leave an em element around a text without '*' or
      '[' as it is. */
  lemma EmUntouched(a: string)
    requires '*' !in a && '[' !in a
    ensures Apply(Bullet, Apply(Link, "<em> " + a + "</em>")) == "<em> " + a + "</em>"
  {
    var u := "<em> " + a + "</em>";
    forall k | 0 <= k < |u|
      ensures u[k] != '[' && u[k] != '*'
    {
      if 5 <= k < 5 + |a| {
        assert u[k] == a[k - 5];
      }
    }
    TriggerFree(Link, u);
    TriggerFree(Bullet, u);
  }

  // ---------------------------------------------------------------------------
  // The list merge

  /** "</ul>", white space w, "<ul>" at i is one match of the merge pattern. */
  lemma MergeMatch(s: string, i: nat, w: string)
    requires i + 9 + |w| <= |s| && At(s, i, "</ul>") && s[i + 5..i + 5 + |w|] == w
    requires AllSpace(w) && At(s, i + 5 + |w|, "<ul>")
    ensures MatchListMerge(s, i) == Some(Hit(i + 9 + |w|, ""))
  {
    AtFoldedOfAt(s, i, "</ul>");
    var j := i + 5 + |w|;
    forall t | i + 5 <= t < j
      ensures IsJsSpace(s[t])
    {
      assert s[t] == w[t - i - 5];
    }
    assert s[j..j + 4][0] == s[j];
    assert SkipSpaces(s, i + 5) == j by {
      SkipTo(s, i + 5, j);
    }
    AtFoldedOfAt(s, j, "<ul>");
  }

  lemma {:induction false} SkipTo(s: string, i: nat, j: nat)
    requires i <= j < |s| && !IsJsSpace(s[j])
    requires forall t :: i <= t < j ==> IsJsSpace(s[t])
    ensures SkipSpaces(s, i) == j
    decreases j - i
  {
    if i < j {
      SkipTo(s, i + 1, j);
    }
  }

  /** A list closed and reopened with only white space between: the merge pass
      matches the whole stretch with an empty replacement. */
  lemma MergeAt(s: string, i: nat, w: string)
    requires i + 9 + |w| <= |s| && At(s, i, "</ul>") && s[i + 5..i + 5 + |w|] == w
    requires AllSpace(w) && At(s, i + 5 + |w|, "<ul>")
    ensures Matches(ListMerge, s)[i] == Some(Hit(i + 9 + |w|, ""))
  {
    MergeMatch(s, i, w);
    assert Match(ListMerge, s, i) == Some(Hit(i + 9 + |w|, ""));
    MatchesAt(ListMerge, s, i);
  }

  /** No "</u", ignoring the case of the u, starts at k: a '<' there cannot open
      "</ul>". */
  predicate NoCloseAt(s: string, k: nat)
  {
    k + 2 < |s| && s[k] == '<' && s[k + 1] == '/' ==> Lower(s[k + 2]) != 'u'
  }

  /** Nothing in x can open "</ul>". */
  predicate NoListClose(x: string)
  {
    forall k :: 0 <= k < |x| ==> NoCloseAt(x, k)
  }

  /** Two lists with only white space between them become one: the merge pass
      deletes "</ul>", the white space and "<ul>", and nothing else. */
  lemma MergeLists(a: string, w: string, b: string)
    requires NoListClose(a) && NoListClose(b) && AllSpace(w)
    ensures Apply(ListMerge, "<ul>" + a + "</ul>" + w + "<ul>" + b + "</ul>") == "<ul>" + a + b + "</ul>"
  {
    MergeOf("<ul>" + a + "</ul>" + w + "<ul>" + b + "</ul>", a, w, b);
  }

  /** Two lists of li lines, as the bullet and list-wrap passes build them, with only
      white space between: the merge joins the li lines of both in one ul. */
  lemma MergeItemLists(xs: seq<string>, w: string, ys: seq<string>)
    requires |xs| >= 1 && |ys| >= 1 && AllSpace(w)
    requires forall k :: 0 <= k < |xs| ==> NoListClose(xs[k])
    requires forall k :: 0 <= k < |ys| ==> NoListClose(ys[k])
    ensures Apply(ListMerge, "<ul>" + ItemLines(xs) + "</ul>" + w + "<ul>" + ItemLines(ys) + "</ul>")
            == "<ul>" + ItemLines(xs) + ItemLines(ys) + "</ul>"
  {
    ItemLinesNoClose(xs);
    ItemLinesNoClose(ys);
    MergeLists(ItemLines(xs), w, ItemLines(ys));
  }

  /** li lines open no "</ul>" when their items do not. */
  lemma {:induction false} ItemLinesNoClose(xs: seq<string>)
    requires |xs| >= 1 && forall k :: 0 <= k < |xs| ==> NoListClose(xs[k])
    ensures NoListClose(ItemLines(xs))
    decreases |xs|
  {
    LiNoClose(xs[0]);
    if |xs| > 1 {
      var li := Li(xs[0]);
      assert li[|li| - 1] == '>' && li[|li| - 2] == 'i';
      assert NoListClose("\n");
      NoListCloseJoin(li, "\n");
      ItemLinesNoClose(xs[1..]);
      assert ItemLines(xs[1..])[0] == '<';
      NoListCloseJoin(li + "\n", ItemLines(xs[1..]));
    }
  }

  /** An li element opens no "</ul>" when its item does not. */
  lemma LiNoClose(x: string)
    requires NoListClose(x)
    ensures NoListClose(Li(x))
  {
    var open, close := "<li>", "</li>";
    assert NoListClose(open);
    assert NoListClose(close) by {
      assert close[2] == 'l';
    }
    NoListCloseJoin(open, x);
    NoListCloseJoin(open + x, close);
  }

  /** Joining two texts that open no "</ul>" opens none at the seam when the second
      starts with '<' or the first ends in two characters other than '<'. */
  lemma NoListCloseJoin(a: string, b: string)
    requires NoListClose(a) && NoListClose(b)
    requires (b != "" && b[0] == '<') || (|a| >= 2 && a[|a| - 1] != '<' && a[|a| - 2] != '<')
    ensures NoListClose(a + b)
  {
    var s := a + b;
    forall k | 0 <= k < |s|
      ensures NoCloseAt(s, k)
    {
      if k >= |a| {
        if k + 2 < |s| {
          assert s[k] == b[k - |a|] && s[k + 1] == b[k - |a| + 1] && s[k + 2] == b[k - |a| + 2];
          assert NoCloseAt(b, k - |a|);
        }
      } else if k + 2 < |a| {
        assert s[k] == a[k] && s[k + 1] == a[k + 1] && s[k + 2] == a[k + 2];
        assert NoCloseAt(a, k);
      } else if k + 2 < |s| && b != "" && b[0] == '<' {
        assert s[|a|] == '<';
      }
    }
  }

  lemma MergeOf(s: string, a: string, w: string, b: string)
    requires s == "<ul>" + a + "</ul>" + w + "<ul>" + b + "</ul>"
    requires NoListClose(a) && NoListClose(b) && AllSpace(w)
    ensures Apply(ListMerge, s) == "<ul>" + a + b + "</ul>"
  {
    var i := 4 + |a|;
    var e := i + 9 + |w|;
    MergeLayout(s, a, w, b, i, e);
    MergeStretch(s, i, w);
    Rejoin(s[..i], s[e..], a, b);
  }

  lemma Rejoin(x: string, y: string, a: string, b: string)
    requires x == "<ul>" + a && y == b + "</ul>"
    ensures x + y == "<ul>" + a + b + "</ul>"
  {
  }

  /** The merge pass on laid-out lists deletes the stretch from "</ul>" at i through
      the "<ul>" after the white space w. */
  lemma MergeStretch(s: string, i: nat, w: string)
    requires ListsLaidOut(s, i, i + 9 + |w|)
    requires At(s, i, "</ul>") && s[i + 5..i + 5 + |w|] == w && AllSpace(w) && At(s, i + 5 + |w|, "<ul>")
    ensures Apply(ListMerge, s) == s[..i] + s[i + 9 + |w|..]
  {
    MergeAt(s, i, w);
    MergeDelete(s, i, i + 9 + |w|);
  }

  /** Where the text of two lists lies in s: "<ul>" at 0, and nothing that can open
      "</ul>" before the merge stretch [i, e) or after it, but the final "</ul>". */
  predicate ListsLaidOut(s: string, i: nat, e: nat)
  {
    4 <= i < e && e + 5 <= |s| && s[0] == '<' && s[1] == 'u'
    && At(s, |s| - 5, "</ul>")
    && (forall k :: 0 < k < i ==> NoCloseAt(s, k))
    && (forall k :: e <= k < |s| && k != |s| - 5 ==> NoCloseAt(s, k))
  }

  lemma MergeLayout(s: string, a: string, w: string, b: string, i: nat, e: nat)
    requires s == "<ul>" + a + "</ul>" + w + "<ul>" + b + "</ul>"
    requires NoListClose(a) && NoListClose(b) && i == 4 + |a| && e == i + 9 + |w|
    ensures |s| == e + |b| + 5
    ensures ListsLaidOut(s, i, e)
    ensures At(s, i, "</ul>") && s[i + 5..i + 5 + |w|] == w && At(s, i + 5 + |w|, "<ul>")
    ensures s[..i] == "<ul>" + a && s[e..] == b + "</ul>"
  {
    assert s[i] == '<' && s[e + |b|] == '<';
    forall k | 0 < k < i
      ensures NoCloseAt(s, k)
    {
      if k >= 4 && k + 2 < i {
        assert s[k] == a[k - 4] && s[k + 1] == a[k - 3] && s[k + 2] == a[k - 2];
        assert NoCloseAt(a, k - 4);
      }
    }
    forall k | e <= k < |s| && k != |s| - 5
      ensures NoCloseAt(s, k)
    {
      if k + 2 < e + |b| {
        assert s[k] == b[k - e] && s[k + 1] == b[k - e + 1] && s[k + 2] == b[k - e + 2];
        assert NoCloseAt(b, k - e);
      }
    }
  }

  /** Outside the merge stretch the merge pattern matches nowhere. */
  lemma MergeMiss(s: string, i: nat, e: nat, k: nat)
    requires ListsLaidOut(s, i, e) && k < |s| && (k < i || e <= k)
    ensures Match(ListMerge, s, k).None?
  {
    if k == 0 {
      assert TagSafe(s, k);
      NoHitWhenSafe(ListMerge, s, k);
    } else if k == |s| - 5 {
      assert SkipSpaces(s, |s|) == |s|;
    } else {
      assert NoCloseAt(s, k);
      NoCloseNoMerge(s, k);
    }
  }

  /** The merge pattern cannot match where nothing opens "</ul>". */
  lemma NoCloseNoMerge(s: string, k: nat)
    requires k < |s| && NoCloseAt(s, k)
    ensures Match(ListMerge, s, k).None?
  {
    if Match(ListMerge, s, k).Some? {
      MatchShape(ListMerge, s, k);
      OpeningsOfTags(s, k);
    }
  }

  /** The merge pass deletes exactly the merge stretch. */
  lemma MergeDelete(s: string, i: nat, e: nat)
    requires ListsLaidOut(s, i, e) && Matches(ListMerge, s)[i] == Some(Hit(e, ""))
    ensures Apply(ListMerge, s) == s[..i] + s[e..]
  {
    var t := Matches(ListMerge, s);
    forall k | 0 <= k < |s| && (k < i || e <= k)
      ensures t[k].None?
    {
      MatchesAt(ListMerge, s, k);
      MergeMiss(s, i, e, k);
    }
    DeleteOne(s, t, i, Hit(e, ""));
  }

  /** A table with one match, whose replacement is empty: the global replacement
      deletes the matched stretch and copies the rest. */
  lemma DeleteOne(s: string, t: seq<Option<Hit>>, i: nat, h: Hit)
    requires Table(s, t) && i < |s| && t[i] == Some(h) && h.text == ""
    requires forall k :: 0 <= k < i ==> t[k].None?
    requires forall k :: h.end <= k < |s| ==> t[k].None?
    ensures ReplaceAll(s, t, 0) == s[..i] + s[h.end..]
  {
    var tail := ReplaceAll(s, t, h.end);
    assert tail == s[h.end..] by {
      CopyWithoutHits(s, t, h.end, |s|);
      ReplaceAllEnd(s, t);
      assert s[h.end..|s|] + "" == s[h.end..];
    }
    assert ReplaceAll(s, t, i) == tail by {
      StepHit(s, t, i, h);
      assert "" + tail == tail;
    }
    CopyWithoutHits(s, t, 0, i);
    assert s[0..i] == s[..i];
  }

  // ---------------------------------------------------------------------------
  // The paragraph wrap after fenced blocks

  /** The opening tags of a fenced block. */
  function CodeOpen(lang: string): string
  {
    "<pre><code class=\"language-" + (if lang == "" then "plaintext" else lang) + "\">"
  }

  /** Trimming keeps the first n characters when the text starts with a non-space
      character and has another at or after n. */
  lemma TrimKeepsPrefix(u: string, m: nat, n: nat)
    requires n <= m < |u| && !IsJsSpace(u[0]) && !IsJsSpace(u[m])
    ensures |Trim(u)| >= n && Trim(u)[..n] == u[..n]
  {
    assert SkipSpaces(u, 0) == 0;
    assert TrimmedEnd(u, |u|) > m;
  }

  /** The paragraph wrap runs over the lines of the fenced block's html too: the
      opening line is left alone, but a second line of code is wrapped in a p
      element, the closing tags inside it. */
  lemma FenceSecondLine(lang: string, c1: string, c2: string)
    requires forall k :: 0 <= k < |lang| ==> IsWordChar(lang[k])
    requires OneLine(c1) && OneLine(c2) && c1 != "" && c2 != ""
    requires !IsJsSpace(c1[0]) && !IsJsSpace(c2[0]) && !IsJsSpace(c2[|c2| - 1]) && c2[0] != '<'
    ensures Paragraphs(FencedHtml(lang, c1 + "\n" + c2))
            == CodeOpen(lang) + c1 + "\n" + "<p>" + c2 + "</code></pre>" + "</p>"
  {
    var open := CodeOpen(lang);
    var line1, line2 := open + c1, c2 + "</code></pre>";
    FenceTwoLines(lang, c1, c2);
    CodeOpenShape(lang);
    OpeningLineKept(open, c1);
    SecondLineWrapped(c2, line2);
    Assemble(open, c1, c2, WrapLine(line1), WrapLine(line2));
  }

  /** The paragraph wrap sees a two-line fenced block as its two lines. */
  lemma FenceTwoLines(lang: string, c1: string, c2: string)
    requires forall k :: 0 <= k < |lang| ==> IsWordChar(lang[k])
    requires OneLine(c1) && OneLine(c2) && c1 != "" && c2 != ""
    requires !IsJsSpace(c1[0]) && !IsJsSpace(c2[|c2| - 1])
    ensures Paragraphs(FencedHtml(lang, c1 + "\n" + c2))
            == WrapLine(CodeOpen(lang) + c1) + "\n" + WrapLine(c2 + "</code></pre>")
  {
    var open := CodeOpen(lang);
    FenceLines(lang, c1, c2);
    OpenOneLine(lang);
    NewlineFree(open, c1);
    NewlineFree(c2, "</code></pre>");
    TwoLines(open + c1, c2 + "</code></pre>");
  }

  lemma CodeOpenShape(lang: string)
    ensures |CodeOpen(lang)| >= 4 && CodeOpen(lang)[..4] == "<pre"
  {
    var l := if lang == "" then "plaintext" else lang;
    assert CodeOpen(lang) == "<pre" + ("><code class=\"language-" + l + "\">");
  }

  lemma Assemble(open: string, c1: string, c2: string, w1: string, w2: string)
    requires w1 == open + c1 && w2 == "<p>" + (c2 + "</code></pre>") + "</p>"
    ensures w1 + "\n" + w2 == open + c1 + "\n" + "<p>" + c2 + "</code></pre>" + "</p>"
  {
  }

  /** The fenced block's html, as its two lines. */
  lemma FenceLines(lang: string, c1: string, c2: string)
    requires c1 != "" && c2 != "" && !IsJsSpace(c1[0]) && !IsJsSpace(c2[|c2| - 1])
    ensures FencedHtml(lang, c1 + "\n" + c2) == Join([CodeOpen(lang) + c1, c2 + "</code></pre>"])
  {
    TrimUntouched(c1 + "\n" + c2);
  }

  /** The paragraph wrap of two lines wraps each of them. */
  lemma TwoLines(a: string, b: string)
    requires '\n' !in a && '\n' !in b
    ensures Paragraphs(Join([a, b])) == WrapLine(a) + "\n" + WrapLine(b)
  {
    SplitJoin([a, b]);
    var w := WrapLines([a, b]);
    assert w == [WrapLine(a), WrapLine(b)];
    assert w[1..] == [WrapLine(b)];
    assert Join(w) == w[0] + "\n" + Join(w[1..]);
  }

  lemma OpenOneLine(lang: string)
    requires forall k :: 0 <= k < |lang| ==> IsWordChar(lang[k])
    ensures '\n' !in CodeOpen(lang)
  {
    var l := if lang == "" then "plaintext" else lang;
    assert forall k :: 0 <= k < |l| ==> l[k] != '\n';
  }

  lemma NewlineFree(a: string, b: string)
    requires '\n' !in a && (OneLine(b) || '\n' !in b)
    ensures '\n' !in a + b
  {
    assert forall k :: 0 <= k < |b| ==> b[k] != '\n';
  }

  lemma OpeningLineKept(open: string, c1: string)
    requires |open| >= 4 && open[..4] == "<pre" && c1 != "" && !IsJsSpace(c1[0])
    ensures WrapLine(open + c1) == open + c1
  {
    var u := open + c1;
    assert u[0] == '<' && u[|open|] == c1[0];
    TrimKeepsPrefix(u, |open|, 4);
    assert Trim(u)[..4] == "<pre";
  }

  lemma SecondLineWrapped(c2: string, line2: string)
    requires c2 != "" && !IsJsSpace(c2[0]) && c2[0] != '<' && line2 == c2 + "</code></pre>"
    ensures WrapLine(line2) == "<p>" + line2 + "</p>"
  {
    TrimUntouched(line2);
    assert line2[0] == c2[0];
  }

  // ---------------------------------------------------------------------------
  // A plain line

  /** One non-blank line with no character any inline pass or tag pass looks for,
      and not opening with the '#' of a heading or the '-' of a rule. */
  predicate Plain(t: string)
  {
    OneLine(t) && !AllSpace(t) && t[0] != '#' && t[0] != '-'
    && forall k :: 0 <= k < |t| ==> t[k] != '*' && t[k] != '[' && t[k] != '<' && t[k] != '`'
  }

  /** A plain line becomes one paragraph and nothing else. */
  lemma PlainLine(t: string)
    requires Plain(t)
    ensures MarkdownToHtml(t) == "<p>" + t + "</p>"
  {
    PlainBlocks(t);
    PlainWrapped(t);
    var u := "<p>" + t + "</p>";
    Stages(t, t, u);
    ParaKept(EmptyPara, t);
    ParaKept(BlankPara, t);
  }

  /** No block pass touches a plain line. */
  lemma PlainBlocks(t: string)
    requires Plain(t)
    ensures ApplyAll(BLOCK_PASSES, t) == t
  {
    forall k | 0 <= k < |BLOCK_PASSES|
      ensures Inert(BLOCK_PASSES[k], t)
    {
      PlainInert(BLOCK_PASSES[k], t);
    }
    InertPipeline(BLOCK_PASSES, t);
  }

  lemma PlainInert(p: Pass, t: string)
    requires Plain(t)
    ensures Inert(p, t)
  {
    forall k | 0 <= k < |t| && t[k] == Trigger(p)
      ensures (Anchored(p) && !LineStart(t, k)) || (Trigger(p) == '<' && TagSafe(t, k))
    {
      assert k > 0 && !IsLineTerminator(t[k - 1]);
    }
  }

  /** The paragraph wrap of a plain line. */
  lemma PlainWrapped(t: string)
    requires Plain(t)
    ensures Paragraphs(t) == "<p>" + t + "</p>"
  {
    assert '\n' !in t by {
      forall k | 0 <= k < |t|
        ensures t[k] != '\n'
      {
        assert !IsLineTerminator(t[k]);
      }
    }
    SplitOneLine(t);
    var r := Trim(t);
    assert r[0] == t[SkipSpaces(t, 0)];
    assert !Structural(r);
    assert WrapLines([t]) == ["<p>" + t + "</p>"];
  }

  /** The clean-up passes leave the paragraph of a plain line alone. */
  lemma ParaKept(p: Pass, t: string)
    requires p == EmptyPara || p == BlankPara
    requires Plain(t)
    ensures Apply(p, "<p>" + t + "</p>") == "<p>" + t + "</p>"
  {
    var u := "<p>" + t + "</p>";
    forall k | 0 <= k < |u|
      ensures Match(p, u, k).None?
    {
      ParaMiss(p, t, u, k);
    }
    NoMatchIdentity(p, u);
  }

  lemma ParaMiss(p: Pass, t: string, u: string, k: nat)
    requires p == EmptyPara || p == BlankPara
    requires Plain(t) && u == "<p>" + t + "</p>" && k < |u|
    ensures Match(p, u, k).None?
  {
    if k == 0 {
      var m := SkipSpaces(t, 0);
      var w :| 0 <= w < |t| && !IsJsSpace(t[w]);
      assert m <= w;
      assert forall q :: 3 <= q < 3 + m ==> u[q] == t[q - 3];
      SkipTo(u, 3, 3 + m);
      assert u[3 + m] == t[m] && u[3] == t[0];
    } else if k < 3 + |t| {
      assert u[k] != '<' by {
        if k >= 3 {
          assert u[k] == t[k - 3];
        }
      }
      if Match(p, u, k).Some? {
        MatchShape(p, u, k);
      }
    } else if k == 3 + |t| {
      assert u[k + 1] == '/';
    } else {
      assert u[k] != '<';
      if Match(p, u, k).Some? {
        MatchShape(p, u, k);
      }
    }
  }

  /** "<p>", white space, "</p>" is deleted by the second clean-up. */
  lemma BlankParaDeleted(w: string)
    requires AllSpace(w)
    ensures Apply(BlankPara, "<p>" + w + "</p>") == ""
  {
    var s := "<p>" + w + "</p>";
    var j := 3 + |w|;
    forall q | 3 <= q < j
      ensures IsJsSpace(s[q])
    {
      assert s[q] == w[q - 3];
    }
    assert s[j] == '<';
    SkipTo(s, 3, j);
    assert At(s, 0, "<p>") && At(s, j, "</p>");
    WholeHit(BlankPara, s, "");
  }

  /** "<p></p>" is deleted by both clean-ups. */
  lemma EmptyParaDeleted()
    ensures Apply(EmptyPara, "<p></p>") == ""
    ensures Apply(BlankPara, "<p></p>") == ""
  {
    var s := "<p></p>";
    assert At(s, 0, "<p>") && At(s, 3, "</p>");
    WholeHit(EmptyPara, s, "");
    BlankParaDeleted("");
    assert "<p>" + "" + "</p>" == s;
  }

  /** The first clean-up deletes only an empty paragraph: one holding white space
      stays. */
  lemma EmptyParaNeedsNoSpace(w: string)
    requires w != "" && AllSpace(w)
    ensures Apply(EmptyPara, "<p>" + w + "</p>") == "<p>" + w + "</p>"
  {
    var s := "<p>" + w + "</p>";
    forall k | 0 <= k < |s|
      ensures Match(EmptyPara, s, k).None?
    {
      SpaceParaMiss(w, s, k);
    }
    NoMatchIdentity(EmptyPara, s);
  }

  lemma SpaceParaMiss(w: string, s: string, k: nat)
    requires w != "" && AllSpace(w) && s == "<p>" + w + "</p>" && k < |s|
    ensures Match(EmptyPara, s, k).None?
  {
    if k == 0 {
      assert s[3] == w[0] && IsJsSpace(w[0]);
      if At(s, 3, "</p>") {
        AtFirst(s, 3, "</p>");
      }
    } else {
      if 3 <= k < 3 + |w| {
        assert s[k] == w[k - 3] && IsJsSpace(w[k - 3]);
      }
      if Match(EmptyPara, s, k).Some? {
        MatchShape(EmptyPara, s, k);
        OpeningsOfTags(s, k);
      }
    }
  }
}
