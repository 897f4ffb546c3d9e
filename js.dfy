/** The few JavaScript value and string primitives that the renderer, the click
    handlers and the dispatcher rely on: truthiness, the `${v}` conversion of a
    template literal, `String.prototype.trim`, and `split('\n')` / `join('\n')`. */
module Js {

  datatype Option<+T> = None | Some(value: T)

  /** A JavaScript value, as far as the modelled code inspects it. `Other` stands for
      numbers, booleans, arrays and objects: what `${v}` turns it into, and whether
      it is truthy. */
  datatype JsValue =
    | Undefined
    | Null
    | Str(s: string)
    | Other(display: string, truthy: bool)

  /** `!!v` */
  predicate Truthy(v: JsValue)
  {
    match v
    case Undefined => false
    case Null => false
    case Str(s) => s != ""
    case Other(_, t) => t
  }

  /** The text `${v}` produces inside a template literal. */
  function TemplateString(v: JsValue): (r: string)
    ensures v.Str? ==> r == v.s
    ensures v == Undefined ==> r == "undefined"
    ensures v == Null ==> r == "null"
  {
    match v
    case Undefined => "undefined"
    case Null => "null"
    case Str(s) => s
    case Other(d, _) => d
  }

  /** The ECMAScript LineTerminator code points: what `.` never matches and after
      which `^` matches under the `m` flag. */
  predicate IsLineTerminator(c: char)
  {
    c == '\n' || c == '\r' || c == '\U{2028}' || c == '\U{2029}'
  }

  /** WhiteSpace or LineTerminator: the set `\s` matches and `trim()` removes. */
  predicate IsJsSpace(c: char)
  {
    IsLineTerminator(c) || c == '\t' || c == '\U{B}' || c == '\U{C}' || c == ' '
    || c == '\U{A0}' || c == '\U{1680}' || ('\U{2000}' <= c <= '\U{200A}')
    || c == '\U{202F}' || c == '\U{205F}' || c == '\U{3000}' || c == '\U{FEFF}'
  }

  predicate AllSpace(s: string)
  {
    forall k :: 0 <= k < |s| ==> IsJsSpace(s[k])
  }

  /** The first index at or after i that does not hold white space (|s| if none). */
  function SkipSpaces(s: string, i: nat): (k: nat)
    requires i <= |s|
    ensures i <= k <= |s|
    ensures forall t :: i <= t < k ==> IsJsSpace(s[t])
    ensures k < |s| ==> !IsJsSpace(s[k])
    decreases |s| - i
  {
    if i < |s| && IsJsSpace(s[i]) then SkipSpaces(s, i + 1) else i
  }

  /** The index just after the last character before j that is not white space
      (0 if none). */
  function TrimmedEnd(s: string, j: nat): (k: nat)
    requires j <= |s|
    ensures k <= j
    ensures forall t :: k <= t < j ==> IsJsSpace(s[t])
    ensures k > 0 ==> !IsJsSpace(s[k - 1])
  {
    if j > 0 && IsJsSpace(s[j - 1]) then TrimmedEnd(s, j - 1) else j
  }

  /** `s.trim()` */
  function Trim(s: string): (r: string)
    ensures r == "" <==> AllSpace(s)
    ensures r != "" ==> !IsJsSpace(r[0]) && !IsJsSpace(r[|r| - 1])
    ensures r != "" ==> r == s[SkipSpaces(s, 0)..TrimmedEnd(s, |s|)]
  {
    var a, b := SkipSpaces(s, 0), TrimmedEnd(s, |s|);
    if a < b then s[a..b] else ""
  }

  /** `s.startsWith(w)` */
  predicate StartsWith(s: string, w: string)
  {
    |w| <= |s| && s[..|w|] == w
  }

  /** The first index at or after i that holds c (|s| if none). */
  function IndexOf(s: string, i: nat, c: char): (k: nat)
    requires i <= |s|
    ensures i <= k <= |s|
    ensures forall t :: i <= t < k ==> s[t] != c
    ensures k < |s| ==> s[k] == c
    decreases |s| - i
  {
    if i == |s| || s[i] == c then i else IndexOf(s, i + 1, c)
  }

  /** `s.split('\n')`: never empty, and no piece holds a newline. */
  function Split(s: string): (r: seq<string>)
    ensures |r| >= 1
    ensures forall k :: 0 <= k < |r| ==> '\n' !in r[k]
    decreases |s|
  {
    var k := IndexOf(s, 0, '\n');
    if k == |s| then [s] else [s[..k]] + Split(s[k + 1..])
  }

  /** `lines.join('\n')` */
  function Join(lines: seq<string>): string
    requires |lines| >= 1
  {
    if |lines| == 1 then lines[0] else lines[0] + "\n" + Join(lines[1..])
  }

  /** Joining the pieces of a split gives back the text. */
  lemma {:induction false} JoinSplit(s: string)
    ensures Join(Split(s)) == s
    decreases |s|
  {
    var k := IndexOf(s, 0, '\n');
    if k < |s| {
      JoinSplit(s[k + 1..]);
      assert s == s[..k] + "\n" + s[k + 1..];
    }
  }

  /** Splitting newline-free lines joined by newlines gives back the lines. */
  lemma {:induction false} SplitJoin(lines: seq<string>)
    requires |lines| >= 1
    requires forall k :: 0 <= k < |lines| ==> '\n' !in lines[k]
    ensures Split(Join(lines)) == lines
  {
    var s := Join(lines);
    var first := lines[0];
    assert forall t :: 0 <= t < |first| ==> first[t] != '\n';
    if |lines| == 1 {
      assert IndexOf(s, 0, '\n') == |s|;
    } else {
      var rest := Join(lines[1..]);
      assert s == first + "\n" + rest;
      assert s[|first|] == '\n';
      assert IndexOf(s, 0, '\n') == |first|;
      assert s[|first| + 1..] == rest;
      SplitJoin(lines[1..]);
      assert s[..|first|] == first;
      assert Split(s) == [first] + Split(rest);
      assert lines == [first] + lines[1..];
    }
  }

  /** A text without newlines is a single line. */
  lemma SplitOneLine(s: string)
    requires '\n' !in s
    ensures Split(s) == [s]
  {
    assert IndexOf(s, 0, '\n') == |s|;
  }

  /** Trimming is idempotent: what the client sends trimmed is non-blank to the server too. */
  lemma TrimTwice(s: string)
    ensures Trim(Trim(s)) == Trim(s)
  {
    var r := Trim(s);
    if r != "" {
      assert SkipSpaces(r, 0) == 0;
      assert TrimmedEnd(r, |r|) == |r|;
    }
  }

  /** A text that neither starts nor ends with white space is its own trim. */
  lemma TrimUntouched(s: string)
    requires s != "" && !IsJsSpace(s[0]) && !IsJsSpace(s[|s| - 1])
    ensures Trim(s) == s
  {
    assert SkipSpaces(s, 0) == 0;
    assert TrimmedEnd(s, |s|) == |s|;
  }
}
