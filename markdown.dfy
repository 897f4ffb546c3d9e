/** markdownToHtml of script.js: a fixed sequence of global regular-expression
    replacements over the whole text, then a line-by-line paragraph wrap, then two
    clean-up replacements.

    Every replacement is a `Pass`. `Match(p, s, i)` says whether the pass's pattern
    matches at index i of s, where the match ends, and what replaces it;
    `Matches(p, s)` records that for every index, and `ReplaceAll` is
    `String.prototype.replace` with the `g` flag: it tries every index from left
    to right, and after a match it resumes at the match's end, never rescanning
    what it produced. The JavaScript regular-expression rules the
    matchers follow: `.` matches anything but a line terminator (\n, \r, U+2028,
    U+2029); under the `m` flag `^` holds at index 0 and just after a line
    terminator, and `$` at the end and just before one; `\s` is the white-space set
    of `trim()`; a lazy `*?` takes the shortest match, a greedy `*` the longest that
    lets the rest of the pattern match; under the `i` flag ASCII letters match
    either case. */
module Markdown {
  import opened Js

  /** The replacements of markdownToHtml, named after what they produce. */
  datatype Pass =
    | Heading3    // a line starting "### " becomes an h3 element
    | Heading2    // a line starting "## " becomes an h2 element
    | Bold        // "**" … "**" on one line, shortest, becomes strong
    | Italic      // "*" … "*" on one line, shortest, becomes em
    | Link        // "[text](url)" becomes an anchor opening in a new tab
    | Bullet      // a line starting "* ", with its indented continuation lines, becomes li
    | ListWrap    // a run of li elements becomes one ul
    | ListMerge   // "</ul>", white space, "<ul>" is deleted
    | Fence       // a fenced code block becomes pre/code with a language class
    | InlineCode  // "`…`" becomes code
    | Rule        // a line that is exactly "---" becomes hr
    | EmptyPara   // "<p></p>" is deleted
    | BlankPara   // "<p>", white space, "</p>" is deleted

  /** A match that ends (exclusive) at `end` and is replaced by `text`. */
  datatype Hit = Hit(end: nat, text: string)

  /** The character every match of the pass starts with. */
  function Trigger(p: Pass): char
  {
    match p
    case Heading3 => '#'
    case Heading2 => '#'
    case Bold => '*'
    case Italic => '*'
    case Link => '['
    case Bullet => '*'
    case ListWrap => '<'
    case ListMerge => '<'
    case Fence => '`'
    case InlineCode => '`'
    case Rule => '-'
    case EmptyPara => '<'
    case BlankPara => '<'
  }

  /** The passes whose pattern starts with `^` under the `m` flag. */
  predicate Anchored(p: Pass)
  {
    p.Heading3? || p.Heading2? || p.Bullet? || p.Rule?
  }

  // ---------------------------------------------------------------------------
  // Pattern primitives

  /** w occurs in s at index i. */
  predicate At(s: string, i: nat, w: string)
  {
    i + |w| <= |s| && s[i..i + |w|] == w
  }

  function Lower(c: char): char
  {
    if 'A' <= c <= 'Z' then (c as int + 32) as char else c
  }

  function Folded(w: string): (r: string)
    ensures |r| == |w|
    ensures forall k :: 0 <= k < |w| ==> r[k] == Lower(w[k])
  {
    seq(|w|, k requires 0 <= k < |w| => Lower(w[k]))
  }

  /** The lower-case ASCII text w occurs in s at index i, ignoring ASCII case (the
      `i` flag without `u`: no non-ASCII character folds onto an ASCII letter). */
  predicate AtFolded(s: string, i: nat, w: string)
  {
    i + |w| <= |s| && Folded(s[i..i + |w|]) == w
  }

  /** `^` under the `m` flag. */
  predicate LineStart(s: string, i: nat)
  {
    i == 0 || (i <= |s| && IsLineTerminator(s[i - 1]))
  }

  /** s[i..j] can be spanned by `.*`. */
  predicate NoBreak(s: string, i: nat, j: nat)
  {
    forall t :: i <= t < j && t < |s| ==> !IsLineTerminator(s[t])
  }

  /** Where `.*` that starts at i stops: the next line terminator, or the end. */
  function LineEnd(s: string, i: nat): (k: nat)
    requires i <= |s|
    ensures i <= k <= |s| && NoBreak(s, i, k)
    ensures k < |s| ==> IsLineTerminator(s[k])
    decreases |s| - i
  {
    if i == |s| || IsLineTerminator(s[i]) then i else LineEnd(s, i + 1)
  }

  /** The shortest lazy `.*?w` (oneLine) or `[\s\S]*?w` (not oneLine) from i: the
      first occurrence of w at or after i, reached without crossing a line
      terminator when oneLine. */
  function FirstAt(s: string, i: nat, w: string, oneLine: bool): (r: Option<nat>)
    requires i <= |s| && w != ""
    ensures r.Some? ==> i <= r.value && At(s, r.value, w)
    ensures r.Some? && oneLine ==> NoBreak(s, i, r.value)
    ensures r.Some? ==> forall t :: i <= t < r.value ==> !At(s, t, w)
    ensures r.None? ==> forall t :: i <= t && (oneLine ==> NoBreak(s, i, t)) ==> !At(s, t, w)
    decreases |s| - i
  {
    if At(s, i, w) then Some(i)
    else if i == |s| || (oneLine && IsLineTerminator(s[i])) then None
    else FirstAt(s, i + 1, w, oneLine)
  }

  /** The greedy `.*w` backtracking: the last occurrence of w (ignoring ASCII case)
      that starts at or after lo and ends by hi. */
  function LastFolded(s: string, lo: nat, hi: nat, w: string): (r: Option<nat>)
    requires lo <= hi <= |s| && w != ""
    ensures r.Some? ==> lo <= r.value && r.value + |w| <= hi && AtFolded(s, r.value, w)
    ensures r.Some? ==> forall t :: r.value < t && t + |w| <= hi ==> !AtFolded(s, t, w)
    ensures r.None? ==> forall t :: lo <= t && t + |w| <= hi ==> !AtFolded(s, t, w)
    decreases hi
  {
    if hi < lo + |w| then None
    else if AtFolded(s, hi - |w|, w) then Some(hi - |w|)
    else LastFolded(s, lo, hi - 1, w)
  }

  /** `\w` */
  predicate IsWordChar(c: char)
  {
    'a' <= c <= 'z' || 'A' <= c <= 'Z' || '0' <= c <= '9' || c == '_'
  }

  /** Where the greedy `\w*` that starts at i stops. */
  function WordEnd(s: string, i: nat): (k: nat)
    requires i <= |s|
    ensures i <= k <= |s|
    ensures forall t :: i <= t < k ==> IsWordChar(s[t])
    ensures k < |s| ==> !IsWordChar(s[k])
    decreases |s| - i
  {
    if i < |s| && IsWordChar(s[i]) then WordEnd(s, i + 1) else i
  }

  /** Where the greedy ` *` (spaces only) that starts at i stops. */
  function SkipBlanks(s: string, i: nat): (k: nat)
    requires i <= |s|
    ensures i <= k <= |s|
    ensures forall t :: i <= t < k ==> s[t] == ' '
    ensures k < |s| ==> s[k] != ' '
    decreases |s| - i
  {
    if i < |s| && s[i] == ' ' then SkipBlanks(s, i + 1) else i
  }

  // ---------------------------------------------------------------------------
  // One matcher per pass

  /** A line that starts with marker becomes <tag>rest of the line</tag>. */
  function MatchHeading(s: string, i: nat, marker: string, tag: string): (r: Option<Hit>)
    requires i < |s| && marker != ""
    ensures r.Some? ==> i < r.value.end <= |s|
  {
    if LineStart(s, i) && At(s, i, marker) then
      var e := LineEnd(s, i + |marker|);
      Some(Hit(e, "<" + tag + ">" + s[i + |marker|..e] + "</" + tag + ">"))
    else None
  }

  /** delim, the shortest stretch of one line, delim: becomes <tag>stretch</tag>. */
  function MatchPair(s: string, i: nat, delim: string, tag: string): (r: Option<Hit>)
    requires i < |s| && delim != ""
    ensures r.Some? ==> i < r.value.end <= |s|
  {
    if At(s, i, delim) then
      match FirstAt(s, i + |delim|, delim, true)
      case Some(j) => Some(Hit(j + |delim|, "<" + tag + ">" + s[i + |delim|..j] + "</" + tag + ">"))
      case None => None
    else None
  }

  function LinkHtml(url: string, text: string): string
  {
    "<a href=\"" + url + "\" target=\"_blank\" rel=\"noopener noreferrer\">" + text + "</a>"
  }

  /** "[", one or more characters other than "]", "](", one or more characters other
      than ")", ")". Both runs may cross lines. */
  function MatchLink(s: string, i: nat): (r: Option<Hit>)
    requires i < |s|
    ensures r.Some? ==> i < r.value.end <= |s|
  {
    if s[i] == '[' then
      var k := IndexOf(s, i + 1, ']');
      if i + 1 < k && k + 1 < |s| && s[k + 1] == '(' then
        var m := IndexOf(s, k + 2, ')');
        if k + 2 < m < |s| then Some(Hit(m + 1, LinkHtml(s[k + 2..m], s[i + 1..k]))) else None
      else None
    else None
  }

  /** From the end e of a line of a list item, the end of the item: every following
      line that is "\n" then two or more spaces continues it. */
  function ItemEnd(s: string, e: nat): (r: nat)
    requires e <= |s|
    ensures e <= r <= |s|
    decreases |s| - e
  {
    if At(s, e, "\n  ") then ItemEnd(s, LineEnd(s, e + 3)) else e
  }

  /** The item content's own global replacement: "\n" followed by two or more spaces
      (all of them) becomes "<br>". */
  function Breaks(w: string): string
    decreases |w|
  {
    if w == "" then ""
    else if At(w, 0, "\n  ") then "<br>" + Breaks(w[SkipBlanks(w, 3)..])
    else [w[0]] + Breaks(w[1..])
  }

  function ItemHtml(content: string): string
  {
    "<li>" + Trim(Breaks(content)) + "</li>"
  }

  /** A line starting "* ": the rest of it and its continuation lines become one li. */
  function MatchBullet(s: string, i: nat): (r: Option<Hit>)
    requires i < |s|
    ensures r.Some? ==> i < r.value.end <= |s|
  {
    if LineStart(s, i) && At(s, i, "* ") then
      var e := ItemEnd(s, LineEnd(s, i + 2));
      Some(Hit(e, ItemHtml(s[i + 2..e])))
    else None
  }

  /** One repetition of "<li>", the longest stretch of the line that is followed by
      "</li>", "</li>", then any white space (line breaks included): where it ends. */
  function ItemGroupEnd(s: string, j: nat): (r: Option<nat>)
    requires j <= |s|
    ensures r.Some? ==> j < r.value <= |s| && AtFolded(s, j, "<li>")
  {
    if AtFolded(s, j, "<li>") then
      match LastFolded(s, j + 4, LineEnd(s, j + 4), "</li>")
      case Some(k) => Some(SkipSpaces(s, k + 5))
      case None => None
    else None
  }

  /** Greedy repetition of ItemGroupEnd from j. */
  function ItemRunEnd(s: string, j: nat): (r: nat)
    requires j <= |s|
    ensures j <= r <= |s|
    decreases |s| - j
  {
    match ItemGroupEnd(s, j)
    case Some(n) => ItemRunEnd(s, n)
    case None => j
  }

  lemma FoldedLt(s: string, i: nat, w: string)
    requires AtFolded(s, i, w) && w != "" && w[0] == '<'
    ensures s[i] == '<'
  {
    assert Folded(s[i..i + |w|])[0] == Lower(s[i]);
  }

  /** One or more item groups become <ul>the trimmed run</ul>. */
  function MatchListWrap(s: string, i: nat): (r: Option<Hit>)
    requires i < |s|
    ensures r.Some? ==> i < r.value.end <= |s|
  {
    match ItemGroupEnd(s, i)
    case Some(j) =>
      var e := ItemRunEnd(s, j);
      Some(Hit(e, "<ul>" + Trim(s[i..e]) + "</ul>"))
    case None => None
  }

  /** "</ul>", any white space, "<ul>" (ignoring ASCII case) is deleted. */
  function MatchListMerge(s: string, i: nat): (r: Option<Hit>)
    requires i < |s|
    ensures r.Some? ==> i < r.value.end <= |s|
  {
    if AtFolded(s, i, "</ul>") then
      var j := SkipSpaces(s, i + 5);
      if AtFolded(s, j, "<ul>") then Some(Hit(j + 4, "")) else None
    else None
  }

  /** A fenced block: its language tag defaults to plaintext, its body is trimmed. */
  function FencedHtml(lang: string, code: string): string
  {
    "<pre><code class=\"language-" + (if lang == "" then "plaintext" else lang) + "\">"
    + Trim(code) + "</code></pre>"
  }

  /** "```", a run of word characters, a newline, the shortest stretch (across lines)
      that is followed by "\n```", then "\n```". */
  function MatchFence(s: string, i: nat): (r: Option<Hit>)
    requires i < |s|
    ensures r.Some? ==> i < r.value.end <= |s|
  {
    if At(s, i, "```") then FenceFrom(s, i, WordEnd(s, i + 3)) else None
  }

  /** The rest of a fence whose opening "```" is at i and whose word ends at p. */
  function FenceFrom(s: string, i: nat, p: nat): (r: Option<Hit>)
    requires i + 3 <= p <= |s|
    ensures r.Some? ==> p < r.value.end <= |s|
  {
    if p < |s| && s[p] == '\n' then
      match FirstAt(s, p + 1, "\n```", false)
      case Some(q) => Some(FenceHit(s, i, p, q))
      case None => None
    else None
  }

  /** The fenced block from i to the closing "\n```" at q, its word ending at p. */
  function FenceHit(s: string, i: nat, p: nat, q: nat): Hit
    requires i + 3 <= p < q && q + 4 <= |s|
  {
    Hit(q + 4, FencedHtml(s[i + 3..p], s[p + 1..q]))
  }

  /** "`", one or more characters other than "`" (across lines), "`". */
  function MatchInlineCode(s: string, i: nat): (r: Option<Hit>)
    requires i < |s|
    ensures r.Some? ==> i < r.value.end <= |s|
  {
    if s[i] == '`' then
      var k := IndexOf(s, i + 1, '`');
      if i + 1 < k < |s| then Some(Hit(k + 1, "<code>" + s[i + 1..k] + "</code>")) else None
    else None
  }

  /** A line that is exactly "---". */
  function MatchRule(s: string, i: nat): (r: Option<Hit>)
    requires i < |s|
    ensures r.Some? ==> i < r.value.end <= |s|
  {
    if LineStart(s, i) && At(s, i, "---") && (i + 3 == |s| || IsLineTerminator(s[i + 3])) then
      Some(Hit(i + 3, "<hr>"))
    else None
  }

  /** "<p>", any white space, "</p>" is deleted; with allowSpace false only "<p></p>". */
  function MatchEmptyPara(s: string, i: nat, allowSpace: bool): (r: Option<Hit>)
    requires i < |s|
    ensures r.Some? ==> i < r.value.end <= |s|
  {
    if At(s, i, "<p>") then
      var j := if allowSpace then SkipSpaces(s, i + 3) else i + 3;
      if At(s, j, "</p>") then Some(Hit(j + 4, "")) else None
    else None
  }

  /** Whether, where and with what the pattern of pass p matches at index i: a match
      is never empty and never runs past the end (MatchShape says where it starts). */
  function Match(p: Pass, s: string, i: nat): (r: Option<Hit>)
    requires i < |s|
    ensures r.Some? ==> i < r.value.end <= |s|
  {
    match p
    case Heading3 => MatchHeading(s, i, "### ", "h3")
    case Heading2 => MatchHeading(s, i, "## ", "h2")
    case Bold => MatchPair(s, i, "**", "strong")
    case Italic => MatchPair(s, i, "*", "em")
    case Link => MatchLink(s, i)
    case Bullet => MatchBullet(s, i)
    case ListWrap => MatchListWrap(s, i)
    case ListMerge => MatchListMerge(s, i)
    case Fence => MatchFence(s, i)
    case InlineCode => MatchInlineCode(s, i)
    case Rule => MatchRule(s, i)
    case EmptyPara => MatchEmptyPara(s, i, false)
    case BlankPara => MatchEmptyPara(s, i, true)
  }

  lemma AtFirst(s: string, i: nat, w: string)
    requires At(s, i, w) && w != ""
    ensures s[i] == w[0]
  {
    assert s[i..i + |w|][0] == s[i];
  }

  /** What a match of each matcher starts with. */
  lemma StartsOfMatches(s: string, i: nat)
    requires i < |s|
    ensures MatchHeading(s, i, "### ", "h3").Some? ==> s[i] == '#' && LineStart(s, i)
    ensures MatchHeading(s, i, "## ", "h2").Some? ==> s[i] == '#' && LineStart(s, i)
    ensures MatchPair(s, i, "**", "strong").Some? ==> s[i] == '*'
    ensures MatchPair(s, i, "*", "em").Some? ==> s[i] == '*'
    ensures MatchBullet(s, i).Some? ==> s[i] == '*' && LineStart(s, i)
    ensures MatchFence(s, i).Some? ==> s[i] == '`'
    ensures MatchRule(s, i).Some? ==> s[i] == '-' && LineStart(s, i)
    ensures MatchEmptyPara(s, i, false).Some? ==> s[i] == '<'
    ensures MatchEmptyPara(s, i, true).Some? ==> s[i] == '<'
    ensures MatchListWrap(s, i).Some? ==> s[i] == '<'
    ensures MatchListMerge(s, i).Some? ==> s[i] == '<'
  {
    if AtFolded(s, i, "<li>") { FoldedLt(s, i, "<li>"); }
    if AtFolded(s, i, "</ul>") { FoldedLt(s, i, "</ul>"); }
    if At(s, i, "### ") { AtFirst(s, i, "### "); }
    if At(s, i, "## ") { AtFirst(s, i, "## "); }
    if At(s, i, "**") { AtFirst(s, i, "**"); }
    if At(s, i, "*") { AtFirst(s, i, "*"); }
    if At(s, i, "* ") { AtFirst(s, i, "* "); }
    if At(s, i, "```") { AtFirst(s, i, "```"); }
    if At(s, i, "---") { AtFirst(s, i, "---"); }
    if At(s, i, "<p>") { AtFirst(s, i, "<p>"); }
  }

  /** Every match starts with the pass's trigger character, and the anchored passes
      match only at the start of a line. */
  lemma MatchShape(p: Pass, s: string, i: nat)
    requires i < |s| && Match(p, s, i).Some?
    ensures s[i] == Trigger(p)
    ensures Anchored(p) ==> LineStart(s, i)
  {
    StartsOfMatches(s, i);
  }

  // ---------------------------------------------------------------------------
  // The global replacement and the pipeline

  /** Where a pattern matches at each index of s: no match is empty or runs past
      the end. */
  predicate Table(s: string, t: seq<Option<Hit>>)
  {
    |t| == |s| && forall k :: 0 <= k < |s| && t[k].Some? ==> k < t[k].value.end <= |s|
  }

  /** The match of pass p at each index of s. */
  function Matches(p: Pass, s: string): (t: seq<Option<Hit>>)
    ensures Table(s, t)
  {
    seq(|s|, k requires 0 <= k < |s| => Match(p, s, k))
  }

  /** `s.replace(pattern /g, …)` from index i on, where t says where the pattern
      matches: a match is replaced by its text and the scan resumes at its end;
      elsewhere the character is copied. */
  function ReplaceAll(s: string, t: seq<Option<Hit>>, i: nat): string
    requires i <= |s| && Table(s, t)
    decreases |s| - i
  {
    if i == |s| then ""
    else
      match t[i]
      case Some(h) => h.text + ReplaceAll(s, t, h.end)
      case None => [s[i]] + ReplaceAll(s, t, i + 1)
  }

  function Apply(p: Pass, s: string): string
  {
    ReplaceAll(s, Matches(p, s), 0)
  }

  /** The replacements that run before the paragraph wrap, in source order. */
  const BLOCK_PASSES: seq<Pass> :=
    [Heading3, Heading2, Bold, Italic, Link, Bullet, ListWrap, ListMerge, Fence, InlineCode, Rule]

  function ApplyAll(ps: seq<Pass>, s: string): string
    decreases |ps|
  {
    if ps == [] then s else ApplyAll(ps[1..], Apply(ps[0], s))
  }

  /** The trimmed line already starts with a structural tag (heading, list, code block
      or rule); the test is case-sensitive. */
  predicate Structural(t: string)
  {
    StartsWith(t, "<h") || StartsWith(t, "<ul") || StartsWith(t, "<li")
    || StartsWith(t, "<pre") || StartsWith(t, "<hr")
  }

  /** The paragraph wrap of one line. */
  function WrapLine(line: string): string
  {
    var t := Trim(line);
    if t == "" || Structural(t) then line else "<p>" + line + "</p>"
  }

  function WrapLines(lines: seq<string>): (r: seq<string>)
    ensures |r| == |lines|
  {
    seq(|lines|, k requires 0 <= k < |lines| => WrapLine(lines[k]))
  }

  /** split('\n'), wrap every line, join('\n'). */
  function Paragraphs(s: string): string
  {
    Join(WrapLines(Split(s)))
  }

  /** markdownToHtml */
  function MarkdownToHtml(md: string): string
  {
    var blocks := ApplyAll(BLOCK_PASSES, md);
    Apply(BlankPara, Apply(EmptyPara, Paragraphs(blocks)))
  }
}
