/** The list passes over the li lines that the bullet pass leaves behind: the
    ListWrap pass wraps the whole run in one ul element, and together with the
    bullet pass a block of bullet lines becomes one ul of li elements. */
module ListLaws {
  import opened Js
  import opened Markdown
  import opened MarkdownLaws

  /** Where the k-th li line starts in ItemLines(xs). */
  function LiStart(xs: seq<string>, k: nat): nat
    requires k <= |xs|
  {
    if k == 0 then 0 else LiStart(xs, k - 1) + |xs[k - 1]| + 10
  }

  /** Li(x) at j in s, ending the text (last) or followed by a newline and the
      next li line. */
  predicate LiLaidOut(s: string, j: nat, x: string, last: bool)
  {
    j + 9 + |x| <= |s| && s[j..j + 9 + |x|] == Li(x)
    && (last ==> j + 9 + |x| == |s|)
    && (!last ==> j + 9 + |x| + 1 < |s| && s[j + 9 + |x|] == '\n' && s[j + 9 + |x| + 1] == '<')
  }

  /** The first of the li lines at j, and the li lines after it. */
  lemma LiLineLayout(s: string, j: nat, xs: seq<string>)
    requires |xs| >= 1 && j <= |s| && s[j..] == ItemLines(xs)
    ensures LiLaidOut(s, j, xs[0], |xs| == 1)
    ensures |xs| > 1 ==> s[j + 9 + |xs[0]| + 1..] == ItemLines(xs[1..])
  {
    var e := j + 9 + |xs[0]|;
    assert s[j..][..9 + |xs[0]|] == Li(xs[0]);
    if |xs| > 1 {
      var rest := ItemLines(xs[1..]);
      assert rest[0] == '<';
      assert s[j..] == Li(xs[0]) + "\n" + rest;
      assert s[e + 1..] == s[j..][e + 1 - j..];
    }
  }

  /** What follows the start of the k-th li line is the li lines from the k-th on. */
  lemma {:induction false} LiSuffixAt(xs: seq<string>, k: nat)
    requires k < |xs|
    ensures LiStart(xs, k) <= |ItemLines(xs)|
    ensures ItemLines(xs)[LiStart(xs, k)..] == ItemLines(xs[k..])
  {
    var s := ItemLines(xs);
    if k == 0 {
      assert xs[0..] == xs;
    } else {
      LiSuffixAt(xs, k - 1);
      var tail := xs[k - 1..];
      LiLineLayout(s, LiStart(xs, k - 1), tail);
      assert tail[1..] == xs[k..];
    }
  }

  /** The k-th of the li lines is laid out as one. */
  lemma LiItemLaidOut(xs: seq<string>, k: nat)
    requires k < |xs|
    ensures LiLaidOut(ItemLines(xs), LiStart(xs, k), xs[k], k == |xs| - 1)
  {
    LiSuffixAt(xs, k);
    LiLineLayout(ItemLines(xs), LiStart(xs, k), xs[k..]);
  }

  /** One repetition of the ListWrap group at a laid-out li line: it runs over the
      whole line and, unless it is the last, the newline after it, to next. */
  lemma GroupAt(s: string, j: nat, x: string, last: bool, e: nat, next: nat)
    requires OneLine(x) && LiLaidOut(s, j, x, last) && e == j + 9 + |x| && next == e + 1
    ensures last ==> ItemGroupEnd(s, j) == Some(|s|)
    ensures !last ==> ItemGroupEnd(s, j) == Some(next)
  {
    LiLineParts(s, j, x, e);
    assert LastFolded(s, j + 4, e, "</li>") == Some(e - 5);
    if !last {
      assert SkipSpaces(s, e + 1) == e + 1;
    }
  }

  /** The li line at j opens with "<li>", closes with "</li>" at e and has no line
      break before e. */
  lemma LiLineParts(s: string, j: nat, x: string, e: nat)
    requires OneLine(x) && e == j + 9 + |x| <= |s| && s[j..e] == Li(x)
    requires e < |s| ==> IsLineTerminator(s[e])
    ensures AtFolded(s, j, "<li>") && AtFolded(s, e - 5, "</li>")
    ensures LineEnd(s, j + 4) == e
  {
    assert s[j..j + 4] == s[j..e][..4] == "<li>";
    AtFoldedOfAt(s, j, "<li>");
    forall t | j + 4 <= t < e
      ensures !IsLineTerminator(s[t])
    {
      assert s[t] == Li(x)[t - j];
      if t < j + 4 + |x| {
        assert s[t] == x[t - j - 4];
      }
    }
    LineEndAt(s, j + 4, e);
    assert s[e - 5..e] == s[j..e][4 + |x|..] == "</li>";
    AtFoldedOfAt(s, e - 5, "</li>");
  }

  /** Every li line but the last ends its group at the next line's start; the last
      one at the end of the text. */
  lemma Groups(s: string, xs: seq<string>)
    requires |xs| >= 1 && forall k :: 0 <= k < |xs| ==> OneLine(xs[k])
    requires forall k :: 0 <= k < |xs| ==> LiLaidOut(s, LiStart(xs, k), xs[k], k == |xs| - 1)
    ensures forall k :: 0 <= k < |xs| ==> LiStart(xs, k) <= |s|
    ensures forall k :: 0 <= k < |xs| - 1 ==> ItemGroupEnd(s, LiStart(xs, k)) == Some(LiStart(xs, k + 1))
    ensures ItemGroupEnd(s, LiStart(xs, |xs| - 1)) == Some(|s|)
  {
    forall k | 0 <= k < |xs|
      ensures LiStart(xs, k) <= |s|
      ensures k < |xs| - 1 ==> ItemGroupEnd(s, LiStart(xs, k)) == Some(LiStart(xs, k + 1))
      ensures k == |xs| - 1 ==> ItemGroupEnd(s, LiStart(xs, k)) == Some(|s|)
    {
      LiStartNext(xs, k);
      GroupAt(s, LiStart(xs, k), xs[k], k == |xs| - 1, LiStart(xs, k) + 9 + |xs[k]|, LiStart(xs, k + 1));
    }
  }

  lemma LiStartNext(xs: seq<string>, k: nat)
    requires k < |xs|
    ensures LiStart(xs, k + 1) == LiStart(xs, k) + 9 + |xs[k]| + 1
  {
  }

  /** The greedy repetition of groups from the k-th li line runs to the end. */
  lemma {:induction false} RunToEnd(s: string, xs: seq<string>, k: nat)
    requires k < |xs|
    requires forall m :: 0 <= m < |xs| ==> LiStart(xs, m) <= |s|
    requires forall m :: 0 <= m < |xs| - 1 ==> ItemGroupEnd(s, LiStart(xs, m)) == Some(LiStart(xs, m + 1))
    requires ItemGroupEnd(s, LiStart(xs, |xs| - 1)) == Some(|s|)
    ensures ItemRunEnd(s, LiStart(xs, k)) == |s|
    decreases |xs| - k
  {
    if k < |xs| - 1 {
      RunToEnd(s, xs, k + 1);
    } else {
      assert ItemGroupEnd(s, |s|) == None;
    }
  }

  /** The ListWrap pass wraps li lines, as the bullet pass leaves them, in one ul. */
  lemma WrapItems(xs: seq<string>)
    requires |xs| >= 1 && forall k :: 0 <= k < |xs| ==> OneLine(xs[k])
    ensures Apply(ListWrap, ItemLines(xs)) == "<ul>" + ItemLines(xs) + "</ul>"
  {
    ItemLinesEnds(xs);
    WrapMatch(xs);
    WrapApply(ItemLines(xs), "<ul>" + ItemLines(xs) + "</ul>");
  }

  /** At the start of li lines, the ListWrap pattern matches all of them. */
  lemma WrapMatch(xs: seq<string>)
    requires |xs| >= 1 && forall k :: 0 <= k < |xs| ==> OneLine(xs[k])
    ensures MatchListWrap(ItemLines(xs), 0) == Some(Hit(|ItemLines(xs)|, "<ul>" + ItemLines(xs) + "</ul>"))
  {
    var s := ItemLines(xs);
    WholeRun(xs);
    ItemLinesEnds(xs);
    TrimUntouched(s);
    WrapRun(s);
  }

  /** The item groups of li lines run from the first line to the end. */
  lemma WholeRun(xs: seq<string>)
    requires |xs| >= 1 && forall k :: 0 <= k < |xs| ==> OneLine(xs[k])
    ensures ItemGroupEnd(ItemLines(xs), 0).Some? && ItemRunEnd(ItemLines(xs), 0) == |ItemLines(xs)|
  {
    var s := ItemLines(xs);
    forall k | 0 <= k < |xs|
      ensures LiLaidOut(s, LiStart(xs, k), xs[k], k == |xs| - 1)
    {
      LiItemLaidOut(xs, k);
    }
    Groups(s, xs);
    RunToEnd(s, xs, 0);
  }

  /** Li lines start with '<' and end with '>'. */
  lemma {:induction false} ItemLinesEnds(xs: seq<string>)
    requires |xs| >= 1
    ensures var s := ItemLines(xs); |s| >= 9 && s[0] == '<' && s[|s| - 1] == '>'
    decreases |xs|
  {
    if |xs| > 1 {
      ItemLinesEnds(xs[1..]);
    }
  }

  /** A text that is one run of item groups is wrapped whole. */
  lemma WrapRun(s: string)
    requires s != "" && ItemGroupEnd(s, 0).Some? && ItemRunEnd(s, 0) == |s| && Trim(s) == s
    ensures MatchListWrap(s, 0) == Some(Hit(|s|, "<ul>" + s + "</ul>"))
  {
    assert s[0..|s|] == s;
  }

  lemma WrapApply(s: string, t: string)
    requires s != "" && MatchListWrap(s, 0) == Some(Hit(|s|, t))
    ensures Apply(ListWrap, s) == t
  {
    WrapDispatch(s, Hit(|s|, t));
    WholeHit(ListWrap, s, t);
  }

  lemma WrapDispatch(s: string, h: Hit)
    requires s != "" && MatchListWrap(s, 0) == Some(h)
    ensures Match(ListWrap, s, 0) == Some(h)
  {
  }

  /** A block of bullet lines, through the bullet pass and then the ListWrap pass,
      is one ul element holding one li per item, each item trimmed. */
  lemma BulletList(items: seq<string>)
    requires |items| >= 1 && AllOneLine(items)
    ensures Apply(ListWrap, Apply(Bullet, BulletLines(items))) == "<ul>" + ItemLines(TrimEach(items)) + "</ul>"
  {
    BulletsToItems(items);
    var xs := TrimEach(items);
    forall k | 0 <= k < |xs|
      ensures OneLine(xs[k])
    {
      TrimOneLine(items[k]);
    }
    WrapItems(xs);
  }

  /** Trimming a line leaves it one line. */
  lemma TrimOneLine(a: string)
    requires OneLine(a)
    ensures OneLine(Trim(a))
  {
    var r := Trim(a);
    if r != "" {
      forall k | 0 <= k < |r|
        ensures !IsLineTerminator(r[k])
      {
        assert r[k] == a[SkipSpaces(a, 0) + k];
      }
    }
  }
}
