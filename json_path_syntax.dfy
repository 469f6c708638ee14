/** The path language of src/json_path.rs: the path elements, their textual
    form (`ToString`) and the hand-written scanner `JsonPath::from_str`.

      path    := '$' element*  |  digit+
      element := '.' letter*  |  '[' ('#' '-'?)? digit* ']'

    Letters and digits are ASCII here (see README). */
module JsonPathSyntax {
  import opened Wrappers

  /** An array position: `NthLefth(n)` counts from the front, `NthRight(n)` back from
      the length, so `NthRight(1)` is the last element and `NthRight(0)` one past it. */
  datatype JsonPathIndex = NthLefth(n: nat) | NthRight(n: nat)

  datatype JsonPathElement = Field(name: string) | Index(index: JsonPathIndex)

  /** A path: its elements from the root to the addressed value. */
  type JsonPath = seq<JsonPathElement>

  const ROOT: char := '$'
  const DOT: char := '.'
  const BEGIN_INDEX: char := '['
  const CLOSE_INDEX: char := ']'
  const BEGIN_REVERSE_INDEX: char := '#'

  const EXPECTED_ROOT_OR_NUMERIC: string := "expected $ or numeric"
  const EXPECTED_CLOSE: string := "expected ]"
  const EXPECTED_DOT_OR_BRACKET: string := "expected . or ["

  predicate IsAlpha(c: char) {
    ('a' <= c <= 'z') || ('A' <= c <= 'Z')
  }

  predicate IsNumeric(c: char) {
    '0' <= c <= '9'
  }

  predicate AllAlpha(s: string) {
    forall k :: 0 <= k < |s| ==> IsAlpha(s[k])
  }

  predicate AllNumeric(s: string) {
    forall k :: 0 <= k < |s| ==> IsNumeric(s[k])
  }

  function DigitValue(c: char): nat
    requires IsNumeric(c)
  {
    c as int - '0' as int
  }

  function DigitChar(d: nat): (c: char)
    requires d < 10
    ensures IsNumeric(c) && DigitValue(c) == d
  {
    ('0' as int + d) as char
  }

  /** `str::parse::<usize>().unwrap_or(0)` on a run of digits: the decimal value,
      and 0 for the empty run, which does not parse. */
  function ParseUsize(d: string): nat
    requires AllNumeric(d)
  {
    if d == [] then 0 else ParseUsize(d[..|d| - 1]) * 10 + DigitValue(d[|d| - 1])
  }

  /** `usize::to_string`: the decimal digits of n, most significant first. */
  function NatToString(n: nat): (s: string)
    ensures |s| > 0
  {
    if n < 10 then [DigitChar(n)] else NatToString(n / 10) + [DigitChar(n % 10)]
  }

  /** The text of n is made of digits only, and they parse back to n. */
  lemma {:induction false} NatToStringParses(n: nat)
    ensures AllNumeric(NatToString(n)) && ParseUsize(NatToString(n)) == n
  {
    if n >= 10 {
      var s := NatToString(n);
      NatToStringParses(n / 10);
      assert s[|s| - 1] == DigitChar(n % 10);
      assert s[..|s| - 1] == NatToString(n / 10);
    }
  }

  /** `ToString for JsonPathIndex`. */
  function IndexToString(i: JsonPathIndex): string {
    match i
    case NthLefth(n) => NatToString(n)
    case NthRight(n) => "#-" + NatToString(n)
  }

  /** `ToString for JsonPathElement`: a field is its bare name. */
  function ElementToString(e: JsonPathElement): string {
    match e
    case Field(v) => v
    case Index(i) => IndexToString(i)
  }

  /** `JsonPath::last`. */
  function Last(p: JsonPath): (r: Option<JsonPathElement>)
    ensures r.None? <==> p == []
    ensures r.Some? ==> p == p[..|p| - 1] + [r.value]
  {
    if p == [] then None else Some(p[|p| - 1])
  }

  // ---------------------------------------------------------------------------
  // The scanner, as functions of the input position

  /** End of the run of letters that starts at i: the first position that is
      not a letter. */
  function LetterEnd(s: string, i: nat): (j: nat)
    requires i <= |s|
    ensures i <= j <= |s|
    ensures j == |s| || !IsAlpha(s[j])
    decreases |s| - i
  {
    if i < |s| && IsAlpha(s[i]) then LetterEnd(s, i + 1) else i
  }

  /** End of the run of digits that starts at i. */
  function DigitEnd(s: string, i: nat): (j: nat)
    requires i <= |s|
    ensures i <= j <= |s|
    ensures j == |s| || !IsNumeric(s[j])
    decreases |s| - i
  {
    if i < |s| && IsNumeric(s[i]) then DigitEnd(s, i + 1) else i
  }

  /** Everything LetterEnd skips over is a letter. */
  lemma {:induction false} LetterRun(s: string, i: nat)
    requires i <= |s|
    ensures AllAlpha(s[i..LetterEnd(s, i)])
    decreases |s| - i
  {
    if i < |s| && IsAlpha(s[i]) {
      LetterRun(s, i + 1);
      assert s[i..LetterEnd(s, i)] == [s[i]] + s[i + 1..LetterEnd(s, i + 1)];
    }
  }

  /** Everything DigitEnd skips over is a digit. */
  lemma {:induction false} DigitRun(s: string, i: nat)
    requires i <= |s|
    ensures AllNumeric(s[i..DigitEnd(s, i)])
    decreases |s| - i
  {
    if i < |s| && IsNumeric(s[i]) {
      DigitRun(s, i + 1);
      assert s[i..DigitEnd(s, i)] == [s[i]] + s[i + 1..DigitEnd(s, i + 1)];
    }
  }

  /** One element of the `$`-rooted loop, starting at the character at i:
      the element and the position after it, or the error that stops the scan. */
  function ParseElement(s: string, i: nat): (r: Result<(JsonPathElement, nat), string>)
    requires i < |s|
    ensures r.Ok? ==> i < r.value.1 <= |s|
    ensures r.Err? ==> r.error == EXPECTED_CLOSE || r.error == EXPECTED_DOT_OR_BRACKET
  {
    if s[i] == DOT then
      var j := LetterEnd(s, i + 1);
      Ok((Field(s[i + 1..j]), j))
    else if s[i] == BEGIN_INDEX then
      var reverse := i + 1 < |s| && s[i + 1] == BEGIN_REVERSE_INDEX;
      var k := if !reverse then i + 1 else if i + 2 < |s| && s[i + 2] == '-' then i + 3 else i + 2;
      var j := DigitEnd(s, k);
      if j < |s| && s[j] == CLOSE_INDEX then
        assert AllNumeric(s[k..j]) by { DigitRun(s, k); }
        var n := ParseUsize(s[k..j]);
        Ok((Index(if reverse then NthRight(n) else NthLefth(n)), j + 1))
      else
        Err(EXPECTED_CLOSE)
    else
      Err(EXPECTED_DOT_OR_BRACKET)
  }

  /** The elements from position i to the end of the input. */
  function ParseElements(s: string, i: nat): Result<JsonPath, string>
    requires i <= |s|
    decreases |s| - i
  {
    if i == |s| then Ok([])
    else match ParseElement(s, i)
      case Err(e) => Err(e)
      case Ok((e, j)) => Prepend([e], ParseElements(s, j))
  }

  function Prepend(prefix: JsonPath, r: Result<JsonPath, string>): Result<JsonPath, string> {
    match r
    case Ok(rest) => Ok(prefix + rest)
    case Err(e) => Err(e)
  }

  /** `JsonPath::from_str` (and `try_from`, which delegates to it). */
  function Parse(s: string): Result<JsonPath, string> {
    if s == [] || (s[0] != ROOT && !IsNumeric(s[0])) then Err(EXPECTED_ROOT_OR_NUMERIC)
    else if s[0] == ROOT then ParseElements(s, 1)
    else
      assert AllNumeric(s[..DigitEnd(s, 0)]) by {
        DigitRun(s, 0);
        assert s[..DigitEnd(s, 0)] == s[0..DigitEnd(s, 0)];
      }
      Ok([Index(NthLefth(ParseUsize(s[..DigitEnd(s, 0)])))])
  }

  // ---------------------------------------------------------------------------
  // The scanner as the repository writes it: a loop over a peekable iterator

  /** Advances over a run of letters (`while let Some(c) = iter.next_if(..)`). */
  method ScanLetters(value: string, start: nat) returns (field: string, pos: nat)
    requires start <= |value|
    ensures pos == LetterEnd(value, start) && field == value[start..pos]
  {
    field, pos := "", start;
    while pos < |value| && IsAlpha(value[pos])
      invariant start <= pos <= |value|
      invariant field == value[start..pos]
      invariant LetterEnd(value, start) == LetterEnd(value, pos)
    {
      field := field + [value[pos]];
      pos := pos + 1;
    }
  }

  /** Advances over a run of digits. */
  method ScanDigits(value: string, start: nat) returns (field: string, pos: nat)
    requires start <= |value|
    ensures pos == DigitEnd(value, start) && field == value[start..pos]
  {
    field, pos := "", start;
    while pos < |value| && IsNumeric(value[pos])
      invariant start <= pos <= |value|
      invariant field == value[start..pos]
      invariant DigitEnd(value, start) == DigitEnd(value, pos)
    {
      field := field + [value[pos]];
      pos := pos + 1;
    }
  }

  lemma PrependStep(value: string, path: JsonPath, at: nat, e: JsonPathElement, next: nat)
    requires at < |value| && ParseElement(value, at) == Ok((e, next))
    ensures Prepend(path, ParseElements(value, at)) == Prepend(path + [e], ParseElements(value, next))
  {
    var rest := ParseElements(value, next);
    if rest.Ok? {
      assert path + ([e] + rest.value) == (path + [e]) + rest.value;
    }
  }

  /** One turn of from_str's element loop, on the character at `at`. */
  method ScanElement(value: string, at: nat) returns (r: Result<(JsonPathElement, nat), string>)
    requires at < |value|
    ensures r == ParseElement(value, at)
  {
    var c := value[at];
    if c == DOT {
      var field, pos := ScanLetters(value, at + 1);
      return Ok((Field(field), pos));
    } else if c == BEGIN_INDEX {
      var pos := at + 1;
      var reverse := false;
      if pos < |value| && value[pos] == BEGIN_REVERSE_INDEX {
        reverse := true;
        pos := pos + 1;
        if pos < |value| && value[pos] == '-' {
          pos := pos + 1;
        }
      }
      var start, field := pos, "";
      field, pos := ScanDigits(value, start);
      if !(pos < |value| && value[pos] == CLOSE_INDEX) {
        return Err(EXPECTED_CLOSE);
      }
      DigitRun(value, start);
      var n := ParseUsize(field);
      return Ok((Index(if reverse then NthRight(n) else NthLefth(n)), pos + 1));
    } else {
      return Err(EXPECTED_DOT_OR_BRACKET);
    }
  }

  /** `JsonPath::from_str`: peeks at the first character, then reads elements
      until the input ends or a character is out of place. */
  method FromStr(value: string) returns (r: Result<JsonPath, string>)
    ensures r == Parse(value)
  {
    if |value| == 0 || (value[0] != ROOT && !IsNumeric(value[0])) {
      return Err(EXPECTED_ROOT_OR_NUMERIC);
    }
    if value[0] != ROOT {
      var field, _ := ScanDigits(value, 0);
      DigitRun(value, 0);
      assert field == value[0..DigitEnd(value, 0)];
      return Ok([Index(NthLefth(ParseUsize(field)))]);
    }
    var pos := 1;
    var path: JsonPath := [];
    assert ParseElements(value, pos).Ok? ==> [] + ParseElements(value, pos).value == ParseElements(value, pos).value;
    while true
      invariant 1 <= pos <= |value|
      invariant Parse(value) == Prepend(path, ParseElements(value, pos))
      decreases |value| - pos
    {
      if pos == |value| {
        assert path + [] == path;
        return Ok(path);
      }
      var next := ScanElement(value, pos);
      match next
      case Err(e) =>
        return Err(e);
      case Ok((e, after)) =>
        PrependStep(value, path, pos, e, after);
        path, pos := path + [e], after;
    }
  }

  // ---------------------------------------------------------------------------
  // Rendering a path back to text, with the element `ToString`s

  /** One element as it is written after the `$`: `.name` or `[index]`. */
  function RenderElement(e: JsonPathElement): string {
    match e
    case Field(_) => [DOT] + ElementToString(e)
    case Index(_) => [BEGIN_INDEX] + ElementToString(e) + [CLOSE_INDEX]
  }

  function RenderElements(p: JsonPath): string
    decreases |p|
  {
    if p == [] then "" else RenderElement(p[0]) + RenderElements(p[1..])
  }

  /** The text of a path: `$` followed by its elements. */
  function Render(p: JsonPath): string {
    [ROOT] + RenderElements(p)
  }

  /** Every field name is made of letters, the only names the scanner can read. */
  predicate LettersOnly(p: JsonPath) {
    forall k :: 0 <= k < |p| ==> p[k].Field? ==> AllAlpha(p[k].name)
  }

  // ---------------------------------------------------------------------------
  // Properties of the parser

  /** A run of letters from i up to a non-letter (or the end) at j ends at j. */
  lemma {:induction false} LetterEndAt(s: string, i: nat, j: nat)
    requires i <= j <= |s|
    requires forall k :: i <= k < j ==> IsAlpha(s[k])
    requires j == |s| || !IsAlpha(s[j])
    ensures LetterEnd(s, i) == j
    decreases j - i
  {
    if i < j {
      LetterEndAt(s, i + 1, j);
    }
  }

  /** A run of digits from i up to a non-digit (or the end) at j ends at j. */
  lemma {:induction false} DigitEndAt(s: string, i: nat, j: nat)
    requires i <= j <= |s|
    requires forall k :: i <= k < j ==> IsNumeric(s[k])
    requires j == |s| || !IsNumeric(s[j])
    ensures DigitEnd(s, i) == j
    decreases j - i
  {
    if i < j {
      DigitEndAt(s, i + 1, j);
    }
  }

  lemma {:induction false} RenderedStart(p: JsonPath)
    ensures var t := RenderElements(p); t == [] || t[0] == DOT || t[0] == BEGIN_INDEX
  {
    if p != [] {
      assert RenderElements(p) == RenderElement(p[0]) + RenderElements(p[1..]);
    }
  }

  lemma SplitSlice(s: string, i: nat, x: string, y: string)
    requires i + |x| + |y| <= |s| && s[i..i + |x| + |y|] == x + y
    ensures s[i..i + |x|] == x && s[i + |x|..i + |x| + |y|] == y
  {
    assert s[i..i + |x|] == s[i..i + |x| + |y|][..|x|];
    assert s[i + |x|..i + |x| + |y|] == s[i..i + |x| + |y|][|x|..];
  }

  lemma ParseRenderedField(s: string, i: nat, n: string)
    requires AllAlpha(n)
    requires i + 1 + |n| <= |s| && s[i] == DOT && s[i + 1..i + 1 + |n|] == n
    requires var j := i + 1 + |n|; j == |s| || s[j] == DOT || s[j] == BEGIN_INDEX
    ensures ParseElement(s, i) == Ok((Field(n), i + 1 + |n|))
  {
    var j := i + 1 + |n|;
    assert forall k :: i + 1 <= k < j ==> s[k] == n[k - i - 1] by {
      forall k | i + 1 <= k < j ensures s[k] == n[k - i - 1] {
        assert s[i + 1..j][k - i - 1] == s[k];
      }
    }
    LetterEndAt(s, i + 1, j);
  }

  /** The digits d of an index, starting at k, closed by `]`. */
  lemma ParseRenderedDigits(s: string, k: nat, d: string)
    requires AllNumeric(d)
    requires k + |d| < |s| && s[k..k + |d|] == d && s[k + |d|] == CLOSE_INDEX
    ensures DigitEnd(s, k) == k + |d| && s[k..DigitEnd(s, k)] == d
  {
    assert forall q :: k <= q < k + |d| ==> s[q] == d[q - k] by {
      forall q | k <= q < k + |d| ensures s[q] == d[q - k] {
        assert s[k..k + |d|][q - k] == s[q];
      }
    }
    DigitEndAt(s, k, k + |d|);
  }

  lemma LeftChars(s: string, i: nat, d: string)
    requires i + |d| + 2 <= |s| && s[i..i + |d| + 2] == [BEGIN_INDEX] + d + [CLOSE_INDEX]
    ensures s[i] == BEGIN_INDEX && s[i + 1..i + 1 + |d|] == d && s[i + 1 + |d|] == CLOSE_INDEX
  {
    SplitSlice(s, i, [BEGIN_INDEX] + d, [CLOSE_INDEX]);
    SplitSlice(s, i, [BEGIN_INDEX], d);
    assert s[i] == s[i..i + 1][0];
    assert s[i + 1 + |d|] == s[i + 1 + |d|..i + |d| + 2][0];
  }

  /** The characters of a rendered `[#-n]`. */
  lemma RightChars(s: string, i: nat, d: string)
    requires i + |d| + 4 <= |s| && s[i..i + |d| + 4] == [BEGIN_INDEX, BEGIN_REVERSE_INDEX, '-'] + d + [CLOSE_INDEX]
    ensures s[i] == BEGIN_INDEX && s[i + 1] == BEGIN_REVERSE_INDEX && s[i + 2] == '-'
    ensures s[i + 3..i + 3 + |d|] == d && s[i + 3 + |d|] == CLOSE_INDEX
  {
    SplitSlice(s, i, [BEGIN_INDEX, BEGIN_REVERSE_INDEX, '-'] + d, [CLOSE_INDEX]);
    SplitSlice(s, i, [BEGIN_INDEX, BEGIN_REVERSE_INDEX, '-'], d);
    assert s[i] == s[i..i + 3][0] && s[i + 1] == s[i..i + 3][1] && s[i + 2] == s[i..i + 3][2];
    assert s[i + 3 + |d|] == s[i + 3 + |d|..i + |d| + 4][0];
  }

  /** The characters of a rendered `.name`. */
  lemma FieldChars(s: string, i: nat, n: string)
    requires i + 1 + |n| <= |s| && s[i..i + 1 + |n|] == [DOT] + n
    ensures s[i] == DOT && s[i + 1..i + 1 + |n|] == n
  {
    SplitSlice(s, i, [DOT], n);
    assert s[i] == s[i..i + 1][0];
  }

  /** The width of an element's text. */
  function Width(e: JsonPathElement): nat {
    |RenderElement(e)|
  }

  /** The text of e sits at position i and is followed by the start of another
      element or by the end of the input. */
  predicate ElementRenderedAt(s: string, i: nat, e: JsonPathElement) {
    var j := i + Width(e);
    j <= |s| && s[i..j] == RenderElement(e) && (j == |s| || s[j] == DOT || s[j] == BEGIN_INDEX)
  }

  /** The scanner reads e at i and stops right after its text. */
  predicate ElementParsedAt(s: string, i: nat, e: JsonPathElement) {
    i < |s| && ParseElement(s, i) == Ok((e, i + Width(e)))
  }

  /** The input from i on is the text of p. */
  predicate RenderedAt(s: string, i: nat, p: JsonPath) {
    i <= |s| && s[i..] == RenderElements(p)
  }

  /** The input from i on scans to p. */
  predicate ParsedAt(s: string, i: nat, p: JsonPath) {
    i <= |s| && ParseElements(s, i) == Ok(p)
  }

  lemma ParseRenderedFieldAt(s: string, i: nat, n: string)
    requires AllAlpha(n) && ElementRenderedAt(s, i, Field(n))
    ensures ElementParsedAt(s, i, Field(n))
  {
    FieldChars(s, i, n);
    ParseRenderedField(s, i, n);
  }

  lemma LeftShape(n: nat, d: string)
    requires d == NatToString(n)
    ensures var e := Index(NthLefth(n));
            Width(e) == |d| + 2 && RenderElement(e) == [BEGIN_INDEX] + d + [CLOSE_INDEX]
  {
  }

  lemma RightShape(n: nat, d: string)
    requires d == NatToString(n)
    ensures var e := Index(NthRight(n));
            Width(e) == |d| + 4 && RenderElement(e) == [BEGIN_INDEX, BEGIN_REVERSE_INDEX, '-'] + d + [CLOSE_INDEX]
  {
  }

  /** What a rendered `[n]` at i tells about the characters there. */
  lemma LeftRendered(s: string, i: nat, n: nat, d: string)
    requires d == NatToString(n) && ElementRenderedAt(s, i, Index(NthLefth(n)))
    ensures i + |d| + 2 <= |s| && s[i] == BEGIN_INDEX
    ensures s[i + 1..i + 1 + |d|] == d && s[i + 1 + |d|] == CLOSE_INDEX
  {
    LeftShape(n, d);
    LeftChars(s, i, d);
  }

  /** What a rendered `[#-n]` at i tells about the characters there. */
  lemma RightRendered(s: string, i: nat, n: nat, d: string)
    requires d == NatToString(n) && ElementRenderedAt(s, i, Index(NthRight(n)))
    ensures i + |d| + 4 <= |s| && s[i] == BEGIN_INDEX && s[i + 1] == BEGIN_REVERSE_INDEX && s[i + 2] == '-'
    ensures s[i + 3..i + 3 + |d|] == d && s[i + 3 + |d|] == CLOSE_INDEX
  {
    RightShape(n, d);
    RightChars(s, i, d);
  }

  lemma ParseLeftChars(s: string, i: nat, n: nat, d: string)
    requires d == NatToString(n)
    requires i + |d| + 2 <= |s| && s[i] == BEGIN_INDEX
    requires s[i + 1..i + 1 + |d|] == d && s[i + 1 + |d|] == CLOSE_INDEX
    ensures ParseElement(s, i) == Ok((Index(NthLefth(n)), i + |d| + 2))
  {
    NatToStringParses(n);
    ParseRenderedDigits(s, i + 1, d);
    assert s[i + 1] == s[i + 1..i + 1 + |d|][0] == d[0];
  }

  lemma LeftParsed(s: string, i: nat, n: nat, d: string)
    requires d == NatToString(n)
    requires i < |s| && ParseElement(s, i) == Ok((Index(NthLefth(n)), i + |d| + 2))
    ensures ElementParsedAt(s, i, Index(NthLefth(n)))
  {
    LeftShape(n, d);
  }

  lemma ParseRightChars(s: string, i: nat, n: nat, d: string)
    requires d == NatToString(n)
    requires i + |d| + 4 <= |s| && s[i] == BEGIN_INDEX && s[i + 1] == BEGIN_REVERSE_INDEX && s[i + 2] == '-'
    requires s[i + 3..i + 3 + |d|] == d && s[i + 3 + |d|] == CLOSE_INDEX
    ensures ParseElement(s, i) == Ok((Index(NthRight(n)), i + |d| + 4))
  {
    NatToStringParses(n);
    ParseRenderedDigits(s, i + 3, d);
  }

  lemma RightParsed(s: string, i: nat, n: nat, d: string)
    requires d == NatToString(n)
    requires i < |s| && ParseElement(s, i) == Ok((Index(NthRight(n)), i + |d| + 4))
    ensures ElementParsedAt(s, i, Index(NthRight(n)))
  {
    RightShape(n, d);
  }

  lemma ParseRenderedLeftAt(s: string, i: nat, n: nat)
    requires ElementRenderedAt(s, i, Index(NthLefth(n)))
    ensures ElementParsedAt(s, i, Index(NthLefth(n)))
  {
    var d := NatToString(n);
    LeftRendered(s, i, n, d);
    ParseLeftChars(s, i, n, d);
    LeftParsed(s, i, n, d);
  }

  lemma ParseRenderedRightAt(s: string, i: nat, n: nat)
    requires ElementRenderedAt(s, i, Index(NthRight(n)))
    ensures ElementParsedAt(s, i, Index(NthRight(n)))
  {
    var d := NatToString(n);
    RightRendered(s, i, n, d);
    ParseRightChars(s, i, n, d);
    RightParsed(s, i, n, d);
  }

  /** The scanner reads a rendered element back, when the input goes on with
      another element or ends right after it. */
  lemma ParseRenderedElement(s: string, i: nat, e: JsonPathElement)
    requires e.Field? ==> AllAlpha(e.name)
    requires ElementRenderedAt(s, i, e)
    ensures ElementParsedAt(s, i, e)
  {
    match e
    case Field(n) => ParseRenderedFieldAt(s, i, n);
    case Index(NthLefth(n)) => ParseRenderedLeftAt(s, i, n);
    case Index(NthRight(n)) => ParseRenderedRightAt(s, i, n);
  }

  /** The text of an index: the decimal digits of `NthLefth(n)`'s n, and `#-`
      followed by the digits of `NthRight(n)`'s n; either way the digits parse back
      to n. */
  lemma IndexToStringDigits(i: JsonPathIndex)
    ensures i.NthLefth? ==>
      var t := IndexToString(i); t != [] && AllNumeric(t) && ParseUsize(t) == i.n
    ensures i.NthRight? ==>
      var t := IndexToString(i); |t| > 2 && t[..2] == "#-" && AllNumeric(t[2..]) && ParseUsize(t[2..]) == i.n
  {
    NatToStringParses(i.n);
    if i.NthRight? {
      var t := IndexToString(i);
      assert t[2..] == NatToString(i.n);
    }
  }

  /** An element's text, written in its frame (`.` before a field name, `[` and `]`
      around an index), is read back by one scanner step as that element. */
  lemma ElementToStringReadBack(e: JsonPathElement)
    ensures e.Index? ==>
      var t := [BEGIN_INDEX] + ElementToString(e) + [CLOSE_INDEX];
      ParseElement(t, 0) == Ok((e, |t|))
    ensures e.Field? && AllAlpha(e.name) ==>
      var t := [DOT] + ElementToString(e);
      ParseElement(t, 0) == Ok((e, |t|))
  {
    if e.Index? || AllAlpha(e.name) {
      var t := RenderElement(e);
      assert t[0..|t|] == t;
      ParseRenderedElement(t, 0, e);
    }
  }

  lemma ParseElementsStep(s: string, i: nat, e: JsonPathElement, j: nat)
    requires i < |s| && ParseElement(s, i) == Ok((e, j))
    ensures j <= |s| && ParseElements(s, i) == Prepend([e], ParseElements(s, j))
  {
  }

  lemma LettersOnlyTail(p: JsonPath)
    requires p != [] && LettersOnly(p)
    ensures LettersOnly(p[1..])
  {
    forall k | 0 <= k < |p[1..]| ensures p[1..][k].Field? ==> AllAlpha(p[1..][k].name) {
      assert p[1..][k] == p[k + 1];
    }
  }

  lemma ConsTail(p: JsonPath)
    requires p != []
    ensures [p[0]] + p[1..] == p
  {
  }

  lemma ParseElementsCons(s: string, i: nat, e: JsonPathElement, rest: JsonPath)
    requires ElementParsedAt(s, i, e) && ParsedAt(s, i + Width(e), rest)
    ensures ParsedAt(s, i, [e] + rest)
  {
    ParseElementsStep(s, i, e, i + Width(e));
  }

  lemma ParseRenderedStep(s: string, i: nat, p: JsonPath)
    requires p != [] && ElementParsedAt(s, i, p[0]) && ParsedAt(s, i + Width(p[0]), p[1..])
    ensures ParsedAt(s, i, p)
  {
    ParseElementsCons(s, i, p[0], p[1..]);
    ConsTail(p);
  }

  lemma SplitSuffix(s: string, i: nat, x: string, y: string)
    requires i <= |s| && s[i..] == x + y
    ensures i + |x| <= |s| && s[i..i + |x|] == x && s[i + |x|..] == y
  {
    assert s[i..i + |x|] == s[i..][..|x|];
    assert s[i + |x|..] == s[i..][|x|..];
  }

  lemma SplitRendered(s: string, i: nat, p: JsonPath)
    requires p != [] && RenderedAt(s, i, p)
    ensures var j := i + Width(p[0]);
            j <= |s| && s[i..j] == RenderElement(p[0]) && RenderedAt(s, j, p[1..])
  {
    RenderHead(p);
    SplitSuffix(s, i, RenderElement(p[0]), RenderElements(p[1..]));
  }

  lemma RenderHead(p: JsonPath)
    requires p != []
    ensures RenderElements(p) == RenderElement(p[0]) + RenderElements(p[1..])
  {
  }

  lemma NextCharAfter(s: string, j: nat, tail: string)
    requires j <= |s| && s[j..] == tail
    requires tail == [] || tail[0] == DOT || tail[0] == BEGIN_INDEX
    ensures j == |s| || s[j] == DOT || s[j] == BEGIN_INDEX
  {
    if j < |s| {
      assert s[j] == s[j..][0];
    }
  }

  /** What the scanner needs to know of the first element of a rendered path. */
  lemma RenderedHead(s: string, i: nat, p: JsonPath)
    requires p != [] && RenderedAt(s, i, p) && LettersOnly(p)
    ensures p[0].Field? ==> AllAlpha(p[0].name)
    ensures ElementRenderedAt(s, i, p[0]) && RenderedAt(s, i + Width(p[0]), p[1..])
    ensures LettersOnly(p[1..])
  {
    LettersOnlyTail(p);
    SplitRendered(s, i, p);
    RenderedStart(p[1..]);
    NextCharAfter(s, i + Width(p[0]), RenderElements(p[1..]));
  }

  lemma {:induction false} ParseRenderedElements(s: string, i: nat, p: JsonPath)
    requires RenderedAt(s, i, p) && LettersOnly(p)
    ensures ParsedAt(s, i, p)
    decreases |p|
  {
    if p == [] {
      ParseRenderedNothing(s, i);
    } else {
      ParseRenderedFirst(s, i, p);
      ParseRenderedElements(s, i + Width(p[0]), p[1..]);
    }
  }

  /** The step of ParseRenderedElements: the rest of a rendered path is rendered
      right after its first element, and once the rest is read back, so is the
      whole. */
  lemma ParseRenderedFirst(s: string, i: nat, p: JsonPath)
    requires p != [] && RenderedAt(s, i, p) && LettersOnly(p)
    ensures RenderedAt(s, i + Width(p[0]), p[1..]) && LettersOnly(p[1..])
    ensures ParsedAt(s, i + Width(p[0]), p[1..]) ==> ParsedAt(s, i, p)
  {
    RenderedHead(s, i, p);
    if ParsedAt(s, i + Width(p[0]), p[1..]) {
      ParseRenderedCons(s, i, p);
    }
  }

  /** The empty rendering is the end of the input, where no element is read. */
  lemma ParseRenderedNothing(s: string, i: nat)
    requires RenderedAt(s, i, [])
    ensures ParsedAt(s, i, [])
  {
    assert |s[i..]| == 0;
  }

  /** The step of ParseRenderedElements: the first element is read back, then
      the rest as the induction hypothesis says. */
  lemma ParseRenderedCons(s: string, i: nat, p: JsonPath)
    requires p != [] && (p[0].Field? ==> AllAlpha(p[0].name))
    requires ElementRenderedAt(s, i, p[0]) && ParsedAt(s, i + Width(p[0]), p[1..])
    ensures ParsedAt(s, i, p)
  {
    ParseRenderedElement(s, i, p[0]);
    ParseRenderedStep(s, i, p);
  }

  /** Round trip: a path whose field names are letters, rendered as text,
      parses back to itself. */
  lemma RoundTrip(p: JsonPath)
    requires LettersOnly(p)
    ensures Parse(Render(p)) == Ok(p)
  {
    var s := Render(p);
    assert s[1..] == RenderElements(p);
    ParseRenderedElements(s, 1, p);
  }

  /** A field the scanner reads is made of letters. */
  lemma ParsedFieldIsLetters(s: string, i: nat)
    requires i < |s| && ParseElement(s, i).Ok? && ParseElement(s, i).value.0.Field?
    ensures AllAlpha(ParseElement(s, i).value.0.name)
  {
    LetterRun(s, i + 1);
  }

  lemma {:induction false} ParsedElementsAreLetters(s: string, i: nat)
    requires i <= |s|
    ensures ParseElements(s, i).Ok? ==> LettersOnly(ParseElements(s, i).value)
    decreases |s| - i
  {
    if i < |s| && ParseElement(s, i).Ok? {
      var (e, j) := ParseElement(s, i).value;
      if e.Field? {
        ParsedFieldIsLetters(s, i);
      }
      ParsedElementsAreLetters(s, j);
      if ParseElements(s, j).Ok? {
        var rest := ParseElements(s, j).value;
        assert ParseElements(s, i).value == [e] + rest;
        forall k | 0 <= k < |[e] + rest| ensures ([e] + rest)[k].Field? ==> AllAlpha(([e] + rest)[k].name) {
          if k > 0 {
            assert ([e] + rest)[k] == rest[k - 1];
          }
        }
      }
    }
  }

  /** Every path the parser produces can be printed and read back: printing
      a parsed path normalises its text without changing its meaning. */
  lemma RenderParsed(s: string)
    requires Parse(s).Ok?
    ensures LettersOnly(Parse(s).value)
    ensures Parse(Render(Parse(s).value)) == Parse(s)
  {
    if s[0] == ROOT {
      ParsedElementsAreLetters(s, 1);
    }
    RoundTrip(Parse(s).value);
  }

  lemma {:induction false} ElementErrors(s: string, i: nat)
    requires i <= |s|
    ensures ParseElements(s, i).Err? ==>
      ParseElements(s, i).error == EXPECTED_CLOSE || ParseElements(s, i).error == EXPECTED_DOT_OR_BRACKET
    decreases |s| - i
  {
    if i < |s| && ParseElement(s, i).Ok? {
      ElementErrors(s, ParseElement(s, i).value.1);
    }
  }

  /** The three syntax errors; "expected $ or numeric" comes exactly from a bad
      (or missing) first character. */
  lemma ParseErrors(s: string)
    ensures Parse(s) == Err(EXPECTED_ROOT_OR_NUMERIC) <==> s == [] || (s[0] != ROOT && !IsNumeric(s[0]))
    ensures Parse(s).Err? ==>
      Parse(s).error in {EXPECTED_ROOT_OR_NUMERIC, EXPECTED_CLOSE, EXPECTED_DOT_OR_BRACKET}
  {
    if s != [] && s[0] == ROOT {
      ElementErrors(s, 1);
    }
  }

  /** A leading digit run is a one-element path; what follows it is never examined. */
  lemma DigitShorthand(d: string, rest: string)
    requires d != [] && AllNumeric(d)
    requires rest == [] || !IsNumeric(rest[0])
    ensures Parse(d + rest) == Ok([Index(NthLefth(ParseUsize(d)))])
  {
    var s := d + rest;
    assert forall k :: 0 <= k < |d| ==> s[k] == d[k];
    assert |d| < |s| ==> s[|d|] == rest[0];
    DigitEndAt(s, 0, |d|);
    assert s[..|d|] == d;
  }

  /** A `[` whose digits are not followed by `]` stops the scan with "expected ]". */
  lemma UnclosedIndex(s: string, i: nat)
    requires i < |s| && s[i] == BEGIN_INDEX
    requires var k := if i + 1 < |s| && s[i + 1] == BEGIN_REVERSE_INDEX then
                        (if i + 2 < |s| && s[i + 2] == '-' then i + 3 else i + 2)
                      else i + 1;
             var j := DigitEnd(s, k);
             j == |s| || s[j] != CLOSE_INDEX
    ensures ParseElements(s, i) == Err(EXPECTED_CLOSE)
  {
  }

  /** Where `.`, `[` or the end of input is expected, any other character stops the
      scan with "expected . or [". */
  lemma UnexpectedCharacter(s: string, i: nat)
    requires i < |s| && s[i] != DOT && s[i] != BEGIN_INDEX
    ensures ParseElements(s, i) == Err(EXPECTED_DOT_OR_BRACKET)
  {
  }

  /** One bracketed index whose digit run from k is closed by `]` at j. */
  lemma ParseClosedIndex(s: string, i: nat, reverse: bool, k: nat, j: nat)
    requires i < |s| && s[i] == BEGIN_INDEX
    requires reverse == (i + 1 < |s| && s[i + 1] == BEGIN_REVERSE_INDEX)
    requires k == if !reverse then i + 1 else if i + 2 < |s| && s[i + 2] == '-' then i + 3 else i + 2
    requires k <= j < |s| && DigitEnd(s, k) == j && s[j] == CLOSE_INDEX && AllNumeric(s[k..j])
    ensures ParseElement(s, i)
      == Ok((Index(if reverse then NthRight(ParseUsize(s[k..j])) else NthLefth(ParseUsize(s[k..j]))), j + 1))
  {
  }

  /** Digits from k up to a `]` at j: the scan stops at the `]`, and the character
      at k is neither `#` nor `-`. */
  lemma ClosedDigits(s: string, k: nat, j: nat)
    requires k <= j < |s| && AllNumeric(s[k..j]) && s[j] == CLOSE_INDEX
    ensures DigitEnd(s, k) == j
    ensures s[k] != BEGIN_REVERSE_INDEX && s[k] != '-'
  {
    forall q | k <= q < j
      ensures IsNumeric(s[q])
    {
      assert s[k..j][q - k] == s[q];
    }
    DigitEndAt(s, k, j);
  }

  /** `[d]`, for any run of digits d from i + 1 to j (leading zeros and the empty
      run included), reads as `NthLefth` of d's value under `parse().unwrap_or(0)`. */
  lemma ParseLeftDigits(s: string, i: nat, j: nat)
    requires i < j < |s| && s[i] == BEGIN_INDEX && AllNumeric(s[i + 1..j]) && s[j] == CLOSE_INDEX
    ensures ParseElement(s, i) == Ok((Index(NthLefth(ParseUsize(s[i + 1..j]))), j + 1))
  {
    ClosedDigits(s, i + 1, j);
    ParseClosedIndex(s, i, false, i + 1, j);
  }

  /** `[#d]`: a `#` alone also counts from the end, for any run of digits d from
      i + 2 to j. */
  lemma ParseHashDigits(s: string, i: nat, j: nat)
    requires i + 1 < j < |s| && s[i] == BEGIN_INDEX && s[i + 1] == BEGIN_REVERSE_INDEX
    requires AllNumeric(s[i + 2..j]) && s[j] == CLOSE_INDEX
    ensures ParseElement(s, i) == Ok((Index(NthRight(ParseUsize(s[i + 2..j]))), j + 1))
  {
    ClosedDigits(s, i + 2, j);
    ParseClosedIndex(s, i, true, i + 2, j);
  }

  /** `[#-d]` counts from the end, for any run of digits d from i + 3 to j. */
  lemma ParseHashMinusDigits(s: string, i: nat, j: nat)
    requires i + 2 < j < |s| && s[i] == BEGIN_INDEX && s[i + 1] == BEGIN_REVERSE_INDEX && s[i + 2] == '-'
    requires AllNumeric(s[i + 3..j]) && s[j] == CLOSE_INDEX
    ensures ParseElement(s, i) == Ok((Index(NthRight(ParseUsize(s[i + 3..j]))), j + 1))
  {
    ClosedDigits(s, i + 3, j);
    ParseClosedIndex(s, i, true, i + 3, j);
  }

  /** Leading zeros are read through: `$[#007]` is `NthRight(7)` and `$[01]` is
      `NthLefth(1)`. */
  lemma ParseLeadingZerosExamples()
    ensures Parse("$[#007]") == Ok([Index(NthRight(7))])
    ensures Parse("$[01]") == Ok([Index(NthLefth(1))])
  {
    HashLeadingZeros();
    LeftLeadingZero();
  }

  lemma HashLeadingZeros()
    ensures Parse("$[#007]") == Ok([Index(NthRight(7))])
  {
    var s := "$[#007]";
    assert s[3..6] == "007" by {
      assert s[3] == '0' && s[4] == '0' && s[5] == '7';
    }
    assert ParseUsize("007") == 7 by {
      assert "007"[..2] == "00" && "00"[..1] == "0" && "0"[..0] == "";
    }
    ParseHashDigits(s, 1, 6);
    ParseElementsStep(s, 1, Index(NthRight(7)), 7);
    assert [Index(NthRight(7))] + [] == [Index(NthRight(7))];
  }

  lemma LeftLeadingZero()
    ensures Parse("$[01]") == Ok([Index(NthLefth(1))])
  {
    var t := "$[01]";
    assert t[2..4] == "01" by {
      assert t[2] == '0' && t[3] == '1';
    }
    assert ParseUsize("01") == 1 by {
      assert "01"[..1] == "0" && "0"[..0] == "";
    }
    ParseLeftDigits(t, 1, 4);
    ParseElementsStep(t, 1, Index(NthLefth(1)), 5);
    assert [Index(NthLefth(1))] + [] == [Index(NthLefth(1))];
  }

  /** An empty digit run reads as 0: `[]` is `NthLefth(0)`, and `[#]` and `[#-]` are
      `NthRight(0)`. */
  lemma EmptyDigitRun(s: string, i: nat)
    requires i < |s| && s[i] == BEGIN_INDEX
    ensures i + 1 < |s| && s[i + 1] == CLOSE_INDEX ==>
      ParseElement(s, i) == Ok((Index(NthLefth(0)), i + 2))
    ensures i + 2 < |s| && s[i + 1] == BEGIN_REVERSE_INDEX && s[i + 2] == CLOSE_INDEX ==>
      ParseElement(s, i) == Ok((Index(NthRight(0)), i + 3))
    ensures i + 3 < |s| && s[i + 1] == BEGIN_REVERSE_INDEX && s[i + 2] == '-' && s[i + 3] == CLOSE_INDEX ==>
      ParseElement(s, i) == Ok((Index(NthRight(0)), i + 4))
  {
    forall k | i < k < |s| && s[k] == CLOSE_INDEX
      ensures DigitEnd(s, k) == k && s[k..DigitEnd(s, k)] == []
    {
    }
  }

  /** The well-formed cases of the repository's parser test (src/json_path.rs:233-296),
      each read off the round trip. */
  lemma ParseExampleRoot()
    ensures Parse("$") == Ok([])
  {
    var p: JsonPath := [];
    assert Render(p) == "$";
    RoundTrip(p);
  }

  lemma ParseExampleField()
    ensures Parse("$.a") == Ok([Field("a")])
  {
    var p: JsonPath := [Field("a")];
    assert Render(p) == "$.a";
    RoundTrip(p);
  }

  lemma ParseExampleTwoFields()
    ensures Parse("$.a.b") == Ok([Field("a"), Field("b")])
  {
    var p: JsonPath := [Field("a"), Field("b")];
    assert Render(p) == "$.a.b";
    RoundTrip(p);
  }

  lemma ParseExampleThreeFields()
    ensures Parse("$.abc.bc.cbc") == Ok([Field("abc"), Field("bc"), Field("cbc")])
  {
    var p: JsonPath := [Field("abc"), Field("bc"), Field("cbc")];
    assert Render(p) == "$.abc.bc.cbc";
    RoundTrip(p);
  }

  lemma ParseExampleIndex()
    ensures Parse("$[4]") == Ok([Index(NthLefth(4))])
  {
    var p: JsonPath := [Index(NthLefth(4))];
    assert Render(p) == "$[4]";
    RoundTrip(p);
  }

  lemma ParseExampleTwoIndices()
    ensures Parse("$[4][3]") == Ok([Index(NthLefth(4)), Index(NthLefth(3))])
  {
    var p: JsonPath := [Index(NthLefth(4)), Index(NthLefth(3))];
    assert Render(p) == "$[4][3]";
    RoundTrip(p);
  }

  lemma ParseExampleMixed()
    ensures Parse("$.a[4].b[3]") == Ok([Field("a"), Index(NthLefth(4)), Field("b"), Index(NthLefth(3))])
  {
    RenderMixed();
    RoundTrip([Field("a"), Index(NthLefth(4)), Field("b"), Index(NthLefth(3))]);
  }

  lemma RenderMixed()
    ensures Render([Field("a"), Index(NthLefth(4)), Field("b"), Index(NthLefth(3))]) == "$.a[4].b[3]"
  {
    RenderFour(Field("a"), Index(NthLefth(4)), Field("b"), Index(NthLefth(3)));
    RenderMixedElements();
    MixedText();
  }

  lemma RenderMixedElements()
    ensures RenderElement(Field("a")) == ".a" && RenderElement(Field("b")) == ".b"
    ensures RenderElement(Index(NthLefth(4))) == "[4]" && RenderElement(Index(NthLefth(3))) == "[3]"
    ensures RenderElement(Index(NthRight(4))) == "[#-4]"
  {
  }

  lemma MixedText()
    ensures [ROOT] + (".a" + ("[4]" + (".b" + "[3]"))) == "$.a[4].b[3]"
    ensures [ROOT] + (".a" + ("[#-4]" + (".b" + "[3]"))) == "$.a[#-4].b[3]"
  {
  }

  lemma ParseExampleMixedFromEnd()
    ensures Parse("$.a[#-4].b[3]") == Ok([Field("a"), Index(NthRight(4)), Field("b"), Index(NthLefth(3))])
  {
    RenderMixedFromEnd();
    RoundTrip([Field("a"), Index(NthRight(4)), Field("b"), Index(NthLefth(3))]);
  }

  lemma RenderMixedFromEnd()
    ensures Render([Field("a"), Index(NthRight(4)), Field("b"), Index(NthLefth(3))]) == "$.a[#-4].b[3]"
  {
    RenderFour(Field("a"), Index(NthRight(4)), Field("b"), Index(NthLefth(3)));
    RenderMixedElements();
    MixedText();
  }

  /** A four-element path renders element by element after the root. */
  lemma RenderFour(e0: JsonPathElement, e1: JsonPathElement, e2: JsonPathElement, e3: JsonPathElement)
    ensures RenderElements([e0, e1, e2, e3])
      == RenderElement(e0) + (RenderElement(e1) + (RenderElement(e2) + RenderElement(e3)))
  {
    RenderCons(e3, []);
    RenderCons(e2, [e3]);
    RenderCons(e1, [e2, e3]);
    RenderCons(e0, [e1, e2, e3]);
    assert [e3] + [] == [e3];
    assert RenderElement(e3) + [] == RenderElement(e3);
    assert [e2] + [e3] == [e2, e3];
    assert [e1] + [e2, e3] == [e1, e2, e3];
    assert [e0] + [e1, e2, e3] == [e0, e1, e2, e3];
  }

  /** The query of the repository's nested lookup test (src/json_path.rs:321). */
  lemma ParseExampleNested()
    ensures Parse("$.a[#-1].b[0].test")
      == Ok([Field("a"), Index(NthRight(1)), Field("b"), Index(NthLefth(0)), Field("test")])
  {
    var p := [Field("a"), Index(NthRight(1)), Field("b"), Index(NthLefth(0)), Field("test")];
    RenderNested();
    NestedLettersOnly();
    RoundTrip(p);
  }

  lemma NestedLettersOnly()
    ensures LettersOnly([Field("a"), Index(NthRight(1)), Field("b"), Index(NthLefth(0)), Field("test")])
  {
    assert AllAlpha("a") && AllAlpha("b") && AllAlpha("test");
  }

  /** Rendering a path is rendering its first element, then the rest. */
  lemma RenderCons(e: JsonPathElement, rest: JsonPath)
    ensures RenderElements([e] + rest) == RenderElement(e) + RenderElements(rest)
  {
    assert ([e] + rest)[1..] == rest;
  }

  lemma RenderNested()
    ensures Render([Field("a"), Index(NthRight(1)), Field("b"), Index(NthLefth(0)), Field("test")])
      == "$.a[#-1].b[0].test"
  {
    var tail := [Field("b"), Index(NthLefth(0)), Field("test")];
    RenderNestedTail();
    RenderNestedElements();
    RenderCons(Index(NthRight(1)), tail);
    RenderCons(Field("a"), [Index(NthRight(1))] + tail);
    var p := [Field("a"), Index(NthRight(1)), Field("b"), Index(NthLefth(0)), Field("test")];
    assert p == [Field("a")] + ([Index(NthRight(1))] + tail);
    assert RenderElements(p) == ".a" + ("[#-1]" + ".b[0].test");
    NestedText();
  }

  lemma NestedText()
    ensures [ROOT] + (".a" + ("[#-1]" + ".b[0].test")) == "$.a[#-1].b[0].test"
  {
  }

  lemma RenderNestedTail()
    ensures RenderElements([Field("b"), Index(NthLefth(0)), Field("test")]) == ".b[0].test"
  {
    RenderNestedElements();
    RenderCons(Field("test"), []);
    RenderCons(Index(NthLefth(0)), [Field("test")]);
    RenderCons(Field("b"), [Index(NthLefth(0)), Field("test")]);
    assert [Field("test")] + [] == [Field("test")];
    assert [Index(NthLefth(0))] + [Field("test")] == [Index(NthLefth(0)), Field("test")];
    assert [Field("b")] + [Index(NthLefth(0)), Field("test")] == [Field("b"), Index(NthLefth(0)), Field("test")];
  }

  lemma RenderNestedElements()
    ensures RenderElement(Field("a")) == ".a" && RenderElement(Field("b")) == ".b"
    ensures RenderElement(Field("test")) == ".test"
    ensures RenderElement(Index(NthRight(1))) == "[#-1]"
    ensures RenderElement(Index(NthLefth(0))) == "[0]"
  {
  }

  /** The rejected cases of the repository's parser test (src/json_path.rs:297-301). */
  lemma ParseErrorExamples()
    ensures Parse(".a") == Err(EXPECTED_ROOT_OR_NUMERIC)
    ensures Parse("a") == Err(EXPECTED_ROOT_OR_NUMERIC)
    ensures Parse("[0]") == Err(EXPECTED_ROOT_OR_NUMERIC)
    ensures Parse("$0]") == Err(EXPECTED_DOT_OR_BRACKET)
    ensures Parse("$[12") == Err(EXPECTED_CLOSE)
  {
  }

  /** Texts the scanner accepts although no path renders to them: the shorthand
      digit path, and `[]`, `[#]` and `[#-]`, whose empty digit runs read as 0. */
  lemma ParseShorthandExamples()
    ensures Parse("3") == Ok([Index(NthLefth(3))])
    ensures Parse("12x") == Ok([Index(NthLefth(12))])
  {
    DigitShorthand("3", "");
    assert "3" + "" == "3";
    DigitShorthand("12", "x");
    assert "12" + "x" == "12x";
  }

  lemma ParseEmptyIndexExample()
    ensures Parse("$[]") == Ok([Index(NthLefth(0))])
  {
    var s := "$[]";
    assert s[1] == BEGIN_INDEX && s[2] == CLOSE_INDEX && !IsNumeric(s[2]);
    assert DigitEnd(s, 2) == 2;
    assert s[2..2] == [];
    assert ParseElement(s, 1) == Ok((Index(NthLefth(0)), 3));
    ParseElementsStep(s, 1, Index(NthLefth(0)), 3);
    assert ParseElements(s, 3) == Ok([]);
    assert [Index(NthLefth(0))] + [] == [Index(NthLefth(0))];
    assert s[0] == ROOT;
  }

  lemma ParseEmptyReverseIndexExample()
    ensures Parse("$[#-]") == Ok([Index(NthRight(0))])
  {
    var s := "$[#-]";
    assert s[1] == BEGIN_INDEX && s[2] == BEGIN_REVERSE_INDEX && s[3] == '-';
    assert s[4] == CLOSE_INDEX && !IsNumeric(s[4]);
    assert DigitEnd(s, 4) == 4;
    assert s[4..4] == [];
    assert ParseElement(s, 1) == Ok((Index(NthRight(0)), 5));
    ParseElementsStep(s, 1, Index(NthRight(0)), 5);
    assert ParseElements(s, 5) == Ok([]);
    assert [Index(NthRight(0))] + [] == [Index(NthRight(0))];
    assert s[0] == ROOT;
  }

  lemma ParseBareReverseIndexExample()
    ensures Parse("$.a[#]") == Ok([Field("a"), Index(NthRight(0))])
  {
    var s := "$.a[#]";
    assert s[1] == DOT && IsAlpha(s[2]) && s[3] == BEGIN_INDEX && !IsAlpha(s[3]);
    assert LetterEnd(s, 2) == 3;
    assert s[2..3] == "a";
    assert ParseElement(s, 1) == Ok((Field("a"), 3));
    assert s[4] == BEGIN_REVERSE_INDEX && s[5] == CLOSE_INDEX && !IsNumeric(s[5]);
    assert DigitEnd(s, 5) == 5;
    assert s[5..5] == [];
    assert ParseElement(s, 3) == Ok((Index(NthRight(0)), 6));
    ParseElementsStep(s, 3, Index(NthRight(0)), 6);
    assert ParseElements(s, 6) == Ok([]);
    assert [Index(NthRight(0))] + [] == [Index(NthRight(0))];
    ParseElementsStep(s, 1, Field("a"), 3);
    assert [Field("a")] + [Index(NthRight(0))] == [Field("a"), Index(NthRight(0))];
    assert s[0] == ROOT;
  }
}
